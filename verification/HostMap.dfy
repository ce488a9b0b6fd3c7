/** A host as a flat map of settings, and back. */
module HostMap {
  import opened Options
  import opened FieldTrees

  // ---- Host to map ----------------------------------------------------------------------

  const HOST_ID := "HOSTID"

  datatype HostRecord = HostRecord(name: string, spec: seq<Field>, extra: Settings)

  function Upper(c: char): (u: char)
    ensures 'a' <= c <= 'z' ==> 'A' <= u <= 'Z' && (u as int) - ('A' as int) == (c as int) - ('a' as int)
    ensures !('a' <= c <= 'z') ==> u == c
  {
    if 'a' <= c <= 'z' then ((c as int) - 32) as char else c
  }

  function ToUpper(s: string): string {
    seq(|s|, i requires 0 <= i < |s| => Upper(s[i]))
  }

  /** The settings that extra configuration must not touch. */
  function Base(h: HostRecord): Settings {
    Put(map[], Tagged(h.spec))[HOST_ID := h.name]
  }

  /** The extra settings in the order given, each under its upper-case key unless that is taken. */
  function Merge(entries: Settings, extra: Settings, order: seq<string>): Settings
    requires forall k :: k in order ==> k in extra
    decreases |order|
  {
    if order == [] then entries
    else
      var key := ToUpper(order[0]);
      Merge(if key in entries then entries else entries[key := extra[order[0]]], extra, order[1..])
  }

  /** An order in which a map may be walked: every key once. */
  ghost predicate Walks(order: seq<string>, m: Settings) {
    && (forall i, j :: 0 <= i < j < |order| ==> order[i] != order[j])
    && forall k :: k in order <==> k in m
  }

  /** The host's map; the order in which the extra settings came is up to the run. */
  method ConvertHostToKubeEnvMap(h: HostRecord) returns (kubeEnv: KubeEnvMap, ghost order: seq<string>)
    ensures fresh(kubeEnv) && Walks(order, h.extra) && kubeEnv.entries == Merge(Base(h), h.extra, order)
  {
    hide ToUpper;
    kubeEnv := new KubeEnvMap();
    kubeEnv.StructToKubeEnvMap(h.spec);
    kubeEnv.entries := kubeEnv.entries[HOST_ID := h.name];
    order := [];
    var left := h.extra.Keys;
    while left != {}
      invariant fresh(kubeEnv) && left <= h.extra.Keys
      invariant forall i, j :: 0 <= i < j < |order| ==> order[i] != order[j]
      invariant forall k :: k in order <==> k in h.extra && k !in left
      invariant kubeEnv.entries == Merge(Base(h), h.extra, order)
      decreases left
    {
      var k :| k in left;
      MergeSnoc(Base(h), h.extra, order, k);
      var kubeEnvKey := ToUpper(k);
      if kubeEnvKey !in kubeEnv.entries {
        kubeEnv.entries := kubeEnv.entries[kubeEnvKey := h.extra[k]];
      }
      order, left := order + [k], left - {k};
    }
  }

  lemma {:induction false} MergeSnoc(entries: Settings, extra: Settings, order: seq<string>, k: string)
    requires k in extra && forall o :: o in order ==> o in extra
    ensures Merge(entries, extra, order + [k]) == Merge(Merge(entries, extra, order), extra, [k])
    ensures var m := Merge(entries, extra, order);
            Merge(m, extra, [k]) == if ToUpper(k) in m then m else m[ToUpper(k) := extra[k]]
    decreases |order|
  {
    hide ToUpper;
    assert [k][1..] == [];
    if order == [] {
      assert order + [k] == [k];
    } else {
      var key := ToUpper(order[0]);
      assert (order + [k])[0] == order[0] && (order + [k])[1..] == order[1..] + [k];
      MergeSnoc(if key in entries then entries else entries[key := extra[order[0]]], extra, order[1..], k);
    }
  }

  ghost function UpperKeys(keys: set<string>): set<string> {
    set k | k in keys :: ToUpper(k)
  }

  ghost function Members(order: seq<string>): set<string> {
    set k | k in order
  }

  lemma UpperKeysFirst(order: seq<string>)
    requires order != []
    ensures UpperKeys(Members(order)) == {ToUpper(order[0])} + UpperKeys(Members(order[1..]))
  {
    hide ToUpper;
    assert order == [order[0]] + order[1..];
    assert Members(order) == {order[0]} + Members(order[1..]);
  }

  /** In every order, no setting already there is changed, and exactly the upper-case extra keys are added. */
  lemma {:induction false} ExtraNeverOverrides(entries: Settings, extra: Settings, order: seq<string>)
    requires forall k :: k in order ==> k in extra
    ensures Merge(entries, extra, order).Keys == entries.Keys + UpperKeys(Members(order))
    ensures forall k :: k in entries ==> Merge(entries, extra, order)[k] == entries[k]
    decreases |order|
  {
    hide ToUpper;
    if order == [] {
      assert Members(order) == {};
    } else {
      var key := ToUpper(order[0]);
      ExtraNeverOverrides(if key in entries then entries else entries[key := extra[order[0]]], extra, order[1..]);
      UpperKeysFirst(order);
    }
  }

  /**
   What the map of a host holds, by the places in its spec: its name; for every other tag the value of its last
   place; and for every free upper-case extra key the value of the first that yields it. It holds nothing else.
   */
  lemma HostSettingsAre(h: HostRecord, order: seq<string>)
    requires Walks(order, h.extra)
    ensures var m := Merge(Base(h), h.extra, order);
            && HOST_ID in m && m[HOST_ID] == h.name
            && (forall path, key :: LastTagAt(h.spec, path, key) && key != HOST_ID ==>
                  key in m && m[key] == FieldAt(h.spec, path).value.value)
            && (forall key :: key in m && key != HOST_ID && !HasTag(h.spec, key) ==>
                  exists i :: 0 <= i < |order| && FirstOfItsKind(order, i) && ToUpper(order[i]) == key
                              && m[key] == h.extra[order[i]])
            && (forall key :: key in m <==> key == HOST_ID || HasTag(h.spec, key) || key in UpperKeys(h.extra.Keys))
  {
    hide ToUpper, Merge, Base, LastTagAt, HasTag;
    var m := Merge(Base(h), h.extra, order);
    BaseIs(h);
    ExtraNeverOverrides(Base(h), h.extra, order);
    assert Members(order) == h.extra.Keys;
    forall key | key in m && key != HOST_ID && !HasTag(h.spec, key)
      ensures exists i :: 0 <= i < |order| && FirstOfItsKind(order, i) && ToUpper(order[i]) == key
                          && m[key] == h.extra[order[i]]
    {
      var i := FirstExtraCounts(Base(h), h.extra, order, key);
      assert FirstOfItsKind(order, i);
    }
  }

  /** No key walked before it is the same but for case. */
  ghost predicate FirstOfItsKind(order: seq<string>, i: nat)
    requires i < |order|
  {
    forall j :: 0 <= j < i ==> ToUpper(order[j]) != ToUpper(order[i])
  }

  lemma BaseIs(h: HostRecord)
    ensures var b := Base(h);
            && HOST_ID in b && b[HOST_ID] == h.name
            && (forall path, key :: LastTagAt(h.spec, path, key) && key != HOST_ID ==>
                  TagAt(h.spec, path, key) && key in b && b[key] == FieldAt(h.spec, path).value.value)
            && (forall key :: key in b <==> key == HOST_ID || HasTag(h.spec, key))
  {
    hide LastTagAt, HasTag, Put;
    PuttingReads(map[], h.spec);
    forall path, key | LastTagAt(h.spec, path, key) ensures TagAt(h.spec, path, key) {
      PlaceOfLast(h.spec, path, key);
    }
    forall key ensures key in Put(map[], Tagged(h.spec)) <==> HasTag(h.spec, key) {
      ListedExactly(h.spec, key);
      PutKeys(map[], Tagged(h.spec));
    }
  }

  /** Of several extra keys alike but for case, the first walked gives the value. */
  lemma {:induction false} FirstExtraCounts(entries: Settings, extra: Settings, order: seq<string>, key: string)
    returns (i: nat)
    requires forall k :: k in order ==> k in extra
    requires key !in entries && key in Merge(entries, extra, order)
    ensures i < |order| && ToUpper(order[i]) == key && Merge(entries, extra, order)[key] == extra[order[i]]
    ensures forall j :: 0 <= j < i ==> ToUpper(order[j]) != key
    decreases |order|
  {
    hide ToUpper;
    var first := ToUpper(order[0]);
    if first == key {
      ExtraNeverOverrides(entries[key := extra[order[0]]], extra, order[1..]);
      i := 0;
    } else {
      var j := FirstExtraCounts(if first in entries then entries else entries[first := extra[order[0]]],
                                extra, order[1..], key);
      i := j + 1;
    }
  }

  /** No two extra keys compete for a key with different values. */
  ghost predicate Unambiguous(entries: Settings, extra: Settings) {
    forall a, b :: a in extra && b in extra && ToUpper(a) == ToUpper(b) && ToUpper(a) !in entries
                   ==> extra[a] == extra[b]
  }

  lemma SameForBoth(entries: Settings, extra: Settings, one: seq<string>, other: seq<string>)
    requires Walks(one, extra) && Walks(other, extra) && Unambiguous(entries, extra)
    ensures Merge(entries, extra, one) == Merge(entries, extra, other)
  {
    hide ToUpper, Merge;
    assert Members(one) == Members(other);
    ExtraNeverOverrides(entries, extra, one);
    ExtraNeverOverrides(entries, extra, other);
    forall k | k in Merge(entries, extra, one)
      ensures Merge(entries, extra, one)[k] == Merge(entries, extra, other)[k]
    {
      if k !in entries {
        var i := FirstExtraCounts(entries, extra, one, k);
        var j := FirstExtraCounts(entries, extra, other, k);
        assert one[i] in extra && other[j] in extra;
      }
    }
  }

  lemma {:induction false} ListOf(s: set<string>) returns (order: seq<string>)
    ensures forall i, j :: 0 <= i < j < |order| ==> order[i] != order[j]
    ensures forall k :: k in order <==> k in s
  {
    order := [];
    if s != {} {
      var k :| k in s;
      var others := ListOf(s - {k});
      order := [k] + others;
    }
  }

  lemma WalkFrom(m: Settings, k: string) returns (order: seq<string>)
    requires k in m
    ensures Walks(order, m) && order[0] == k
  {
    var others := ListOf(m.Keys - {k});
    order := [k] + others;
  }

  lemma FirstWalkedCounts(entries: Settings, extra: Settings, order: seq<string>)
    requires Walks(order, extra) && order != [] && ToUpper(order[0]) !in entries
    ensures ToUpper(order[0]) in Merge(entries, extra, order)
    ensures Merge(entries, extra, order)[ToUpper(order[0])] == extra[order[0]]
  {
    hide ToUpper;
    ExtraNeverOverrides(entries[ToUpper(order[0]) := extra[order[0]]], extra, order[1..]);
  }

  /** The map is the same for all orders exactly if no two extra keys compete. */
  lemma OrderIrrelevantExactly(entries: Settings, extra: Settings)
    ensures (forall one, other :: Walks(one, extra) && Walks(other, extra)
                                  ==> Merge(entries, extra, one) == Merge(entries, extra, other))
            <==> Unambiguous(entries, extra)
  {
    hide ToUpper, Merge;
    if Unambiguous(entries, extra) {
      forall one, other | Walks(one, extra) && Walks(other, extra)
        ensures Merge(entries, extra, one) == Merge(entries, extra, other)
      {
        SameForBoth(entries, extra, one, other);
      }
    } else {
      var a, b :| a in extra && b in extra && ToUpper(a) == ToUpper(b) && ToUpper(a) !in entries
                  && extra[a] != extra[b];
      var one := WalkFrom(extra, a);
      var other := WalkFrom(extra, b);
      FirstWalkedCounts(entries, extra, one);
      FirstWalkedCounts(entries, extra, other);
    }
  }

  // ---- Map to host ----------------------------------------------------------------------

  function RestoredName(entries: Settings, known: set<string>): string {
    if HOST_ID in entries && HOST_ID !in known then entries[HOST_ID] else ""
  }

  function RestoredExtra(entries: Settings, known: set<string>): Settings {
    map k | k in entries && k !in known && k != HOST_ID :: entries[k]
  }

  /** The host of a map, given what decoding the known keys yields, in whatever order the map is walked. */
  method ToHost(entries: Settings, known: set<string>, decoded: Option<seq<Field>>) returns (r: Option<HostRecord>)
    ensures r == if decoded.None? then None
                 else Some(HostRecord(RestoredName(entries, known), decoded.value, RestoredExtra(entries, known)))
  {
    if decoded.None? {
      return None;
    }
    var name, extra: Settings := "", map[];
    var left := entries.Keys;
    while left != {}
      invariant left <= entries.Keys
      invariant name == if HOST_ID in left then "" else RestoredName(entries, known)
      invariant extra == map k | k in entries && k !in left && k !in known && k != HOST_ID :: entries[k]
      decreases left
    {
      var key :| key in left;
      if key !in known {
        if key == HOST_ID {
          name := entries[key];
        } else {
          extra := extra[key := entries[key]];
        }
      }
      left := left - {key};
    }
    assert extra == RestoredExtra(entries, known);
    return Some(HostRecord(name, decoded.value, extra));
  }

  lemma BaseKeys(h: HostRecord)
    ensures Base(h).Keys == Keys(Tagged(h.spec)) + {HOST_ID}
  {
    PutKeys(map[], Tagged(h.spec));
  }

  /**
   There and back: the name comes back exactly if it is empty or its key is not also a known one, and of the
   extra configuration exactly the upper-case keys that are neither known nor the name's.
   */
  lemma NameAndExtraComeBack(h: HostRecord, known: set<string>, order: seq<string>)
    requires Walks(order, h.extra) && Keys(Tagged(h.spec)) <= known
    ensures var m := Merge(Base(h), h.extra, order);
            && (RestoredName(m, known) == h.name <==> HOST_ID !in known || h.name == "")
            && RestoredExtra(m, known).Keys == UpperKeys(h.extra.Keys) - known - {HOST_ID}
            && (RestoredExtra(m, known) == h.extra
                <==> forall k :: k in h.extra ==> ToUpper(k) == k && k !in known && k != HOST_ID)
  {
    hide ToUpper, Merge, Base, RestoredExtra;
    var m := Merge(Base(h), h.extra, order);
    NameComesBack(h, known, order);
    ExtraKeysComeBack(h, known, order);
    if forall k :: k in h.extra ==> ToUpper(k) == k && k !in known && k != HOST_ID {
      ExtraComesBack(h, known, order);
    }
    if RestoredExtra(m, known) == h.extra {
      forall k | k in h.extra ensures ToUpper(k) == k && k !in known && k != HOST_ID {
        assert k in RestoredExtra(m, known).Keys;
        UpperIsFixed(h.extra.Keys, k);
      }
    }
  }

  lemma BaseName(h: HostRecord)
    ensures HOST_ID in Base(h) && Base(h)[HOST_ID] == h.name
  {
  }

  lemma NameComesBack(h: HostRecord, known: set<string>, order: seq<string>)
    requires Walks(order, h.extra)
    ensures RestoredName(Merge(Base(h), h.extra, order), known) == h.name <==> HOST_ID !in known || h.name == ""
  {
    hide ToUpper, Merge, Base;
    ExtraNeverOverrides(Base(h), h.extra, order);
    BaseName(h);
  }

  lemma ExtraKeysComeBack(h: HostRecord, known: set<string>, order: seq<string>)
    requires Walks(order, h.extra) && Keys(Tagged(h.spec)) <= known
    ensures RestoredExtra(Merge(Base(h), h.extra, order), known).Keys == UpperKeys(h.extra.Keys) - known - {HOST_ID}
  {
    hide ToUpper, Merge, Base, UpperKeys;
    ExtraNeverOverrides(Base(h), h.extra, order);
    assert Members(order) == h.extra.Keys;
    BaseKeys(h);
  }

  lemma ExtraComesBack(h: HostRecord, known: set<string>, order: seq<string>)
    requires Walks(order, h.extra) && Keys(Tagged(h.spec)) <= known
    requires forall k :: k in h.extra ==> ToUpper(k) == k && k !in known && k != HOST_ID
    ensures RestoredExtra(Merge(Base(h), h.extra, order), known) == h.extra
  {
    hide ToUpper, Merge, Base;
    var m := Merge(Base(h), h.extra, order);
    ExtraNeverOverrides(Base(h), h.extra, order);
    assert Members(order) == h.extra.Keys;
    assert UpperKeys(h.extra.Keys) == h.extra.Keys;
    BaseKeys(h);
    forall k | k in h.extra ensures m[k] == h.extra[k] {
      var i := FirstExtraCounts(Base(h), h.extra, order, k);
      assert order[i] in h.extra;
    }
  }

  /**
   From a map to a host and on to a map: provided the decoded spec has the settings of the original, the map is the
   same exactly if no extra key is a known one outside the spec.
   */
  lemma MapComesBackExactly(h: HostRecord, known: set<string>, order: seq<string>, back: HostRecord,
                            backOrder: seq<string>)
    requires Walks(order, h.extra) && Keys(Tagged(h.spec)) <= known && HOST_ID !in known
    requires var m := Merge(Base(h), h.extra, order);
             back.name == RestoredName(m, known) && back.extra == RestoredExtra(m, known)
    requires Put(map[], Tagged(back.spec)) == Put(map[], Tagged(h.spec)) && Walks(backOrder, back.extra)
    ensures Merge(Base(back), back.extra, backOrder) == Merge(Base(h), h.extra, order)
            <==> UpperKeys(h.extra.Keys) * known <= Keys(Tagged(h.spec))
  {
    assert Base(back) == Base(h) by {
      hide ToUpper;
      ExtraNeverOverrides(Base(h), h.extra, order);
    }
    BaseKeys(h);
    hide ToUpper, Merge, Base;
    var base, m, spec, uppers := Base(h), Merge(Base(h), h.extra, order), Keys(Tagged(h.spec)), UpperKeys(h.extra.Keys);
    ExtraNeverOverrides(base, h.extra, order);
    assert Members(order) == h.extra.Keys;
    forall k | k in uppers ensures ToUpper(k) == k {
      UpperIsFixed(h.extra.Keys, k);
    }
    hide Keys, Tagged, UpperKeys;
    MergedAgain(base, m, uppers, known, back.extra, backOrder);
    SameKeysExactly(spec, uppers, known);
    assert Merge(base, back.extra, backOrder).Keys == m.Keys ==> Merge(base, back.extra, backOrder) == m;
  }

  lemma MergedAgain(base: Settings, m: Settings, uppers: set<string>, known: set<string>, extra: Settings,
                    order: seq<string>)
    requires m.Keys == base.Keys + uppers && forall k :: k in base ==> m[k] == base[k]
    requires base.Keys <= known + {HOST_ID} && forall k :: k in uppers ==> ToUpper(k) == k
    requires extra == RestoredExtra(m, known) && Walks(order, extra)
    ensures var again := Merge(base, extra, order);
            again.Keys == base.Keys + (uppers - known - {HOST_ID}) && forall k :: k in again ==> again[k] == m[k]
  {
    hide ToUpper, Merge;
    var again := Merge(base, extra, order);
    ExtraNeverOverrides(base, extra, order);
    assert Members(order) == extra.Keys == uppers - known - {HOST_ID};
    assert UpperKeys(extra.Keys) == extra.Keys;
    forall k | k in again ensures again[k] == m[k] {
      if k !in base {
        var i := FirstExtraCounts(base, extra, order, k);
        assert order[i] in extra.Keys;
      }
    }
  }

  lemma SameKeysExactly(spec: set<string>, uppers: set<string>, known: set<string>)
    requires spec <= known && HOST_ID !in known
    ensures spec + {HOST_ID} + (uppers - known - {HOST_ID}) == spec + {HOST_ID} + uppers <==> uppers * known <= spec
  {
  }

  lemma UpperIsFixed(keys: set<string>, k: string)
    requires k in UpperKeys(keys)
    ensures ToUpper(k) == k
  {
  }
}
