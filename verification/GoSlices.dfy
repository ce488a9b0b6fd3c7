/** Go slices of strings: a window with spare capacity onto a shared array. */
module GoSlices {

  datatype Slice = Slice(arr: array<string>, off: nat, len: nat, cap: nat) {
    ghost predicate Valid() {
      off + cap <= arr.Length && len <= cap
    }

    ghost function Elems(): seq<string>
      requires Valid()
      reads arr
    {
      arr[off..off + len]
    }

    /** `s[0:n]`: the same array and capacity, another length. */
    function Prefix(n: nat): Slice
      requires n <= cap
    {
      this.(len := n)
    }

    lemma PrefixElems(n: nat)
      requires Valid() && n <= len
      ensures Prefix(n).Valid() && Prefix(n).Elems() == Elems()[..n]
    {
    }
  }

  /**
   `append(s, x)`: with spare capacity the element is written into the shared array, otherwise the
   elements move to a larger one.
   */
  method Append(s: Slice, x: string) returns (r: Slice)
    requires s.Valid()
    modifies s.arr
    ensures r.Valid() && r.Elems() == old(s.Elems()) + [x]
    ensures s.len < s.cap ==> r == s.Prefix(s.len + 1) && s.arr[s.off + s.len] == x
    ensures s.len == s.cap ==> fresh(r.arr)
    ensures forall k :: 0 <= k < s.arr.Length && (k != s.off + s.len || s.len == s.cap) ==> s.arr[k] == old(s.arr[k])
  {
    if s.len < s.cap {
      s.arr[s.off + s.len] := x;
      r := s.Prefix(s.len + 1);
    } else {
      var grown := new string[2 * s.cap + 1](_ => "");
      forall i | 0 <= i < s.len {
        grown[i] := s.arr[s.off + i];
      }
      grown[s.len] := x;
      r := Slice(grown, 0, s.len + 1, 2 * s.cap + 1);
    }
  }
}
