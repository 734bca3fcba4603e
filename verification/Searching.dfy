/** Where something first occurs in a sequence. */
module Searching {
  /** The first index of `x`, or the length when there is none. */
  function FirstIndex<T(==)>(s: seq<T>, x: T): (i: nat)
    ensures i <= |s| && (i < |s| ==> s[i] == x)
    ensures forall k :: 0 <= k < i ==> s[k] != x
  {
    if s == [] || s[0] == x then 0 else 1 + FirstIndex(s[1..], x)
  }

  /** A part without `x` in front only shifts the index. */
  lemma FirstIndexAfter<T>(before: seq<T>, s: seq<T>, x: T)
    requires x !in before
    ensures FirstIndex(before + s, x) == |before| + FirstIndex(s, x)
  {
    var i, all := FirstIndex(s, x), before + s;
    forall k | 0 <= k < |before| + i ensures all[k] != x {
      assert all[k] == if k < |before| then before[k] else s[k - |before|];
    }
    assert i < |s| ==> all[|before| + i] == s[i] == x;
  }

  lemma NoIndex<T>(s: seq<T>, x: T)
    ensures FirstIndex(s, x) == |s| <==> x !in s
  {
    if FirstIndex(s, x) < |s| {
      assert s[FirstIndex(s, x)] == x;
    }
  }
}
