/** Sequence operations that the task list is built from. */
module Sequences {

  /** The elements of `s` that satisfy `keep`, in their original order:
      JavaScript's `Array.prototype.filter`. */
  function Filter<T>(s: seq<T>, keep: T -> bool): (r: seq<T>)
    ensures |r| <= |s|
    ensures forall k :: 0 <= k < |r| ==> keep(r[k]) && r[k] in s
    ensures forall k :: 0 <= k < |s| && keep(s[k]) ==> s[k] in r
  {
    if s == [] then []
    else
      assert s == [s[0]] + s[1..];
      (if keep(s[0]) then [s[0]] else []) + Filter(s[1..], keep)
  }

  /** Filtering a concatenation filters each part: the survivors keep their relative order. */
  lemma {:induction false} FilterConcat<T>(a: seq<T>, b: seq<T>, keep: T -> bool)
    ensures Filter(a + b, keep) == Filter(a, keep) + Filter(b, keep)
  {
    if a == [] {
      assert a + b == b;
    } else {
      assert (a + b)[0] == a[0];
      assert (a + b)[1..] == a[1..] + b;
      FilterConcat(a[1..], b, keep);
    }
  }

  /** An element is kept or dropped: the two complementary filters split the sequence. */
  lemma {:induction false} FilterSplit<T>(s: seq<T>, keep: T -> bool, drop: T -> bool)
    requires forall x :: drop(x) == !keep(x)
    ensures |Filter(s, keep)| + |Filter(s, drop)| == |s|
  {
    if s != [] {
      FilterSplit(s[1..], keep, drop);
    }
  }

  /** A filter that rejects nothing returns its input. */
  lemma {:induction false} FilterKeepsAll<T>(s: seq<T>, keep: T -> bool)
    requires forall k :: 0 <= k < |s| ==> keep(s[k])
    ensures Filter(s, keep) == s
  {
    if s != [] {
      FilterKeepsAll(s[1..], keep);
    }
  }

  /** A filter returns nothing exactly when it accepts no element. */
  lemma FilterEmpty<T>(s: seq<T>, keep: T -> bool)
    ensures Filter(s, keep) == [] <==> forall k :: 0 <= k < |s| ==> !keep(s[k])
  {
  }

  /** A kept element lands right after the survivors that precede it. */
  lemma FilterKeepsPosition<T>(s: seq<T>, keep: T -> bool, i: nat)
    requires i < |s| && keep(s[i])
    ensures |Filter(s[..i], keep)| < |Filter(s, keep)|
    ensures Filter(s, keep)[|Filter(s[..i], keep)|] == s[i]
  {
    assert s == s[..i] + s[i..];
    FilterConcat(s[..i], s[i..], keep);
    assert s[i..][1..] == s[i + 1..];
  }
}
