/** JavaScript's `Array.prototype.splice(start, 1)` on a copy of the list: the element at the
    resolved start position is taken out and the elements after it close the gap. */
module Splice {
  import opened Sequences

  /** The position `splice` starts at: a negative `start` counts back from the end (and stops at 0),
      a `start` past the end is clamped to the length. */
  function SpliceStart(len: nat, start: int): (k: nat)
    ensures k <= len
  {
    if start < 0 then (if len + start < 0 then 0 else len + start)
    else if start > len then len
    else start
  }

  /** `copy.splice(start, 1)` applied to a copy of `s`: the remaining elements in their order. */
  function SpliceOne<T>(s: seq<T>, start: int): (r: seq<T>)
    ensures var k := SpliceStart(|s|, start);
      && (k < |s| ==> |r| == |s| - 1)
      && (k == |s| ==> r == s)
      && (forall j :: 0 <= j < k && j < |r| ==> r[j] == s[j])
      && (forall j :: k <= j < |r| ==> r[j] == s[j + 1])
  {
    var k := SpliceStart(|s|, start);
    if k < |s| then s[..k] + s[k + 1..] else s
  }

  /** For an index of the list, exactly that element goes: the rest keep their order, and the
      multiset of elements loses one copy of it. */
  lemma RemoveAtIndex<T>(s: seq<T>, i: int)
    requires 0 <= i < |s|
    ensures SpliceOne(s, i) == s[..i] + s[i + 1..]
    ensures |SpliceOne(s, i)| == |s| - 1
    ensures multiset(SpliceOne(s, i)) + multiset{s[i]} == multiset(s)
  {
    assert s == s[..i] + [s[i]] + s[i + 1..];
  }

  /** A negative index counts from the end: `-1` removes the last element. */
  lemma RemoveFromEnd<T>(s: seq<T>, i: int)
    requires i < 0 && 0 <= |s| + i
    ensures SpliceOne(s, i) == s[..|s| + i] + s[|s| + i + 1..]
  {
  }

  /** An index at or past the end removes nothing; one before `-|s|` removes the first element. */
  lemma RemoveOutOfRange<T>(s: seq<T>, i: int)
    ensures i >= |s| ==> SpliceOne(s, i) == s
    ensures |s| + i < 0 && |s| > 0 ==> SpliceOne(s, i) == s[1..]
  {
  }

  /** Elements that were pairwise distinct stay pairwise distinct after the removal. */
  lemma SpliceKeepsDistinct<T>(s: seq<T>, start: int)
    requires Distinct(s)
    ensures Distinct(SpliceOne(s, start))
  {
  }
}
