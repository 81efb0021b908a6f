/**
 * The two JavaScript array operations the handlers use to delete nested entries:
 * `indexOf` by strict equality and `splice(start, 1)`, with its negative-start rule.
 */
module Arrays {

  /** `keys.indexOf(x)`: the first position holding x, or -1 when there is none. */
  function IndexOf<T(==)>(keys: seq<T>, x: T): (i: int)
    ensures -1 <= i < |keys|
    ensures i == -1 <==> x !in keys
    ensures 0 <= i ==> keys[i] == x && x !in keys[..i]
  {
    if keys == [] then -1
    else if keys[0] == x then 0
    else
      var j := IndexOf(keys[1..], x);
      if j == -1 then -1
      else
        assert keys[..j + 1] == [keys[0]] + keys[1..][..j];
        j + 1
  }

  /** Where `splice(start, 1)` starts: a negative start counts from the end, clamped to the bounds. */
  function SpliceStart(len: nat, start: int): (a: nat)
    ensures a <= len
    ensures 0 <= start <= len ==> a == start
    ensures start < 0 && len + start >= 0 ==> a == len + start
  {
    if start < 0 then (if len + start < 0 then 0 else len + start)
    else if start > len then len
    else start
  }

  /** The array after `s.splice(start, 1)`: one element removed, if the clamped start is in range. */
  function Splice<T>(s: seq<T>, start: int): (r: seq<T>)
    ensures 0 <= start < |s| ==> r == s[..start] + s[start + 1..]
    ensures start <= -1 && |s| + start >= 0 && |s| > 0 ==> r == s[..|s| + start] + s[|s| + start + 1..]
    ensures start >= |s| ==> r == s
  {
    var a := SpliceStart(|s|, start);
    if a < |s| then s[..a] + s[a + 1..] else s
  }

  /** Unguarded, `splice(-1, 1)` drops the last element of a non-empty array. */
  lemma SpliceMinusOneDropsLast<T>(s: seq<T>)
    requires |s| > 0
    ensures Splice(s, -1) == s[..|s| - 1]
  {
    assert s[|s| - 1 + 1..] == [];
  }

  /**
   * Removing the entry at `indexOf` of a present key removes exactly the FIRST entry
   * whose key matches, keeps the order of the others, and changes the multiset by that entry.
   */
  lemma SpliceAtIndexOf<T, K>(s: seq<T>, keys: seq<K>, x: K)
    requires |keys| == |s| && x in keys
    ensures var i := IndexOf(keys, x);
      && 0 <= i < |s| && keys[i] == x && x !in keys[..i]
      && Splice(s, i) == s[..i] + s[i + 1..]
      && |Splice(s, i)| == |s| - 1
      && multiset(Splice(s, i)) + multiset{s[i]} == multiset(s)
  {
    var i := IndexOf(keys, x);
    assert s == s[..i] + [s[i]] + s[i + 1..];
  }

  /**
   * The first position whose element satisfies `p`, or -1: what `findOne(filter)` picks from a
   * collection in its natural order, and what `filter(...).length > 0` tests.
   */
  function FindFirst<T>(s: seq<T>, p: T -> bool): (i: int)
    ensures -1 <= i < |s|
    ensures i == -1 <==> forall k :: 0 <= k < |s| ==> !p(s[k])
    ensures 0 <= i ==> p(s[i]) && forall k :: 0 <= k < i ==> !p(s[k])
  {
    if s == [] then -1
    else if p(s[0]) then 0
    else
      var j := FindFirst(s[1..], p);
      assert forall k :: 1 <= k < |s| ==> s[k] == s[1..][k - 1];
      if j == -1 then -1 else j + 1
  }

  /** The scan a store does to answer `findOne`: front to back, stopping at the first match. */
  method Find<T>(s: seq<T>, p: T -> bool) returns (i: int)
    ensures i == FindFirst(s, p)
  {
    i := 0;
    while i < |s| && !p(s[i])
      invariant 0 <= i <= |s|
      invariant forall k :: 0 <= k < i ==> !p(s[k])
      decreases |s| - i
    {
      i := i + 1;
    }
    if i == |s| {
      i := -1;
    }
    FirstIsUnique(s, p, i);
  }

  /** A position that matches, with no match before it, is the first one. */
  lemma FirstIsUnique<T>(s: seq<T>, p: T -> bool, i: int)
    requires -1 <= i < |s|
    requires i == -1 ==> forall k :: 0 <= k < |s| ==> !p(s[k])
    requires 0 <= i ==> p(s[i]) && forall k :: 0 <= k < i ==> !p(s[k])
    ensures i == FindFirst(s, p)
  {
  }
}
