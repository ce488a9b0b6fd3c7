/** The order in which a kube.env file lists its keys. */
module SortedKeys {

  // ---- Strings in alphabetical order ----------------------------------------------------

  predicate Less(a: string, b: string) {
    b != [] && (a == [] || a[0] < b[0] || (a[0] == b[0] && Less(a[1..], b[1..])))
  }

  lemma {:induction false} LessTransitive(a: string, b: string, c: string)
    requires Less(a, b) && Less(b, c)
    ensures Less(a, c)
  {
    if a != [] && a[0] == b[0] == c[0] {
      LessTransitive(a[1..], b[1..], c[1..]);
    }
  }

  /** Of two strings exactly one comes first, unless they are the same. */
  lemma {:induction false} LessTotal(a: string, b: string)
    ensures !(Less(a, b) && Less(b, a))
    ensures Less(a, b) || Less(b, a) <==> a != b
  {
    if a != [] && b != [] {
      LessTotal(a[1..], b[1..]);
      assert a == [a[0]] + a[1..] && b == [b[0]] + b[1..];
    }
  }

  /** The strings agree up to `n`, where the first ends or has the smaller character. */
  ghost predicate DiffersAt(a: string, b: string, n: nat) {
    && n <= |a| && n < |b| && (forall i :: 0 <= i < n ==> a[i] == b[i])
    && (n == |a| || a[n] < b[n])
  }

  /** Alphabetical order: a string comes before the longer ones it begins and those greater at the first difference. */
  lemma {:induction false} LessExactly(a: string, b: string)
    ensures Less(a, b) <==> exists n :: DiffersAt(a, b, n)
  {
    if Less(a, b) {
      var n := DifferenceOf(a, b);
    }
    if n :| DiffersAt(a, b, n) {
      LessBy(a, b, n);
    }
  }

  lemma {:induction false} DifferenceOf(a: string, b: string) returns (n: nat)
    requires Less(a, b)
    ensures DiffersAt(a, b, n)
  {
    n := 0;
    if a != [] && a[0] == b[0] {
      var m := DifferenceOf(a[1..], b[1..]);
      n := m + 1;
      forall i | 0 <= i < n ensures a[i] == b[i] {
        assert i > 0 ==> a[1..][i - 1] == b[1..][i - 1];
      }
    }
  }

  lemma {:induction false} LessBy(a: string, b: string, n: nat)
    requires DiffersAt(a, b, n)
    ensures Less(a, b)
    decreases n
  {
    if n > 0 {
      LessBy(a[1..], b[1..], n - 1);
    }
  }

  ghost predicate Ascending(keys: seq<string>) {
    forall i, j :: 0 <= i < j < |keys| ==> Less(keys[i], keys[j])
  }

  /** An ascending list is fixed by what it lists. */
  lemma {:induction false} AscendingIsUnique(a: seq<string>, b: seq<string>)
    requires Ascending(a) && Ascending(b)
    requires forall k :: k in a <==> k in b
    ensures a == b
    decreases |a|
  {
    assert a == [] <==> b == [] by {
      if a != [] {
        assert a[0] in b;
      }
      if b != [] {
        assert b[0] in a;
      }
    }
    if a != [] {
      FirstIsLeast(a, b);
      forall k ensures k in a[1..] <==> k in b[1..] {
        InTail(a, k);
        InTail(b, k);
      }
      AscendingIsUnique(a[1..], b[1..]);
      assert a == [a[0]] + a[1..] && b == [b[0]] + b[1..];
    }
  }

  lemma FirstIsLeast(a: seq<string>, b: seq<string>)
    requires Ascending(a) && Ascending(b) && a != [] && b != []
    requires forall k :: k in a <==> k in b
    ensures a[0] == b[0]
  {
    assert a[0] in b && b[0] in a;
    LessTotal(a[0], b[0]);
  }

  lemma InTail(a: seq<string>, k: string)
    requires Ascending(a) && a != []
    ensures k in a[1..] <==> k in a && k != a[0]
  {
    if k in a[1..] {
      LessTotal(a[0], k);
    }
  }

  // ---- Collecting and sorting -----------------------------------------------------------

  method Insert(keys: seq<string>, key: string) returns (longer: seq<string>)
    requires Ascending(keys) && key !in keys
    ensures Ascending(longer) && forall k :: k in longer <==> k in keys || k == key
  {
    hide Ascending;
    var i := 0;
    while i < |keys| && Less(keys[i], key)
      invariant 0 <= i <= |keys|
      invariant forall j :: 0 <= j < i ==> Less(keys[j], key)
    {
      i := i + 1;
    }
    longer := keys[..i] + [key] + keys[i..];
    InsertedAscends(keys, key, i);
    InsertedHolds(keys, key, i);
  }

  lemma InsertedAscends(keys: seq<string>, key: string, i: nat)
    requires Ascending(keys) && key !in keys && i <= |keys|
    requires (forall j :: 0 <= j < i ==> Less(keys[j], key)) && (i < |keys| ==> !Less(keys[i], key))
    ensures Ascending(keys[..i] + [key] + keys[i..])
  {
    hide Less;
    var longer := keys[..i] + [key] + keys[i..];
    forall j | i <= j < |keys| ensures Less(key, keys[j]) {
      LessTotal(keys[i], key);
      if i < j {
        LessTransitive(key, keys[i], keys[j]);
      }
    }
    forall j, k | 0 <= j < k < |longer| ensures Less(longer[j], longer[k]) {
      assert longer[j] == if j < i then keys[j] else if j == i then key else keys[j - 1];
      assert longer[k] == if k < i then keys[k] else if k == i then key else keys[k - 1];
    }
  }

  lemma InsertedHolds(keys: seq<string>, key: string, i: nat)
    requires i <= |keys|
    ensures forall k :: k in keys[..i] + [key] + keys[i..] <==> k in keys || k == key
  {
    assert keys == keys[..i] + keys[i..];
  }

  /** The keys of the map in ascending order, in whatever order the map yields them. */
  method Keys(entries: map<string, string>) returns (keys: seq<string>)
    ensures Ascending(keys) && forall k :: k in keys <==> k in entries
  {
    keys := [];
    var left := entries.Keys;
    while left != {}
      invariant left <= entries.Keys && Ascending(keys)
      invariant forall k :: k in keys <==> k in entries && k !in left
      decreases left
    {
      var key :| key in left;
      keys := Insert(keys, key);
      left := left - {key};
    }
  }
}
