/** `Array.prototype.filter` and the facts about it the pages rely on. */
module Sequences {

  /** `xs.filter(p)`: the elements satisfying `p`, in their original order. */
  function Filter<T>(xs: seq<T>, p: T -> bool): (r: seq<T>)
    ensures |r| <= |xs|
  {
    if xs == [] then [] else (if p(xs[0]) then [xs[0]] else []) + Filter(xs[1..], p)
  }

  /** An element survives exactly when it was there and satisfies `p`. */
  lemma {:induction false} FilterMembers<T>(xs: seq<T>, p: T -> bool, x: T)
    ensures (x in Filter(xs, p)) <==> (x in xs && p(x))
  {
    if xs != [] {
      FilterMembers(xs[1..], p, x);
      assert xs == [xs[0]] + xs[1..];
    }
  }

  /** Filtering a concatenation filters each part: relative order is kept. */
  lemma {:induction false} FilterAppend<T>(xs: seq<T>, ys: seq<T>, p: T -> bool)
    ensures Filter(xs + ys, p) == Filter(xs, p) + Filter(ys, p)
  {
    if xs == [] {
      assert xs + ys == ys;
    } else {
      var zs := xs + ys;
      var head := if p(xs[0]) then [xs[0]] else [];
      assert zs[0] == xs[0];
      assert zs[1..] == xs[1..] + ys;
      assert Filter(zs, p) == head + Filter(xs[1..] + ys, p);
      FilterAppend(xs[1..], ys, p);
      assert Filter(xs, p) == head + Filter(xs[1..], p);
      assert head + (Filter(xs[1..], p) + Filter(ys, p)) == (head + Filter(xs[1..], p)) + Filter(ys, p);
    }
  }

  /** When every element satisfies `p`, nothing is removed. */
  lemma {:induction false} FilterKeepsAll<T>(xs: seq<T>, p: T -> bool)
    requires forall i :: 0 <= i < |xs| ==> p(xs[i])
    ensures Filter(xs, p) == xs
  {
    if xs != [] {
      assert forall i :: 0 <= i < |xs| - 1 ==> xs[1..][i] == xs[i + 1];
      FilterKeepsAll(xs[1..], p);
    }
  }

  /** An element satisfying `p` is kept as many times as it occurs; one failing it, never. */
  lemma {:induction false} FilterCount<T>(xs: seq<T>, p: T -> bool, x: T)
    ensures multiset(Filter(xs, p))[x] == (if p(x) then multiset(xs)[x] else 0)
  {
    if xs != [] {
      FilterCount(xs[1..], p, x);
      assert xs == [xs[0]] + xs[1..];
      assert multiset(xs) == multiset([xs[0]]) + multiset(xs[1..]);
    }
  }

  /** The elements failing `p`. */
  function Complement<T>(p: T -> bool): T -> bool
  {
    x => !p(x)
  }

  /** Every element either satisfies `p` or fails it: the two filters share out the list. */
  lemma {:induction false} FilterPartition<T>(xs: seq<T>, p: T -> bool)
    ensures |Filter(xs, p)| + |Filter(xs, Complement(p))| == |xs|
  {
    if xs != [] {
      FilterPartition(xs[1..], p);
      assert Complement(p)(xs[0]) == !p(xs[0]);
    }
  }

  /** Nothing is removed exactly when every element satisfies `p`. */
  lemma {:induction false} FilterKeepsLength<T>(xs: seq<T>, p: T -> bool)
    ensures |Filter(xs, p)| == |xs| <==> forall i :: 0 <= i < |xs| ==> p(xs[i])
  {
    if xs != [] {
      FilterKeepsLength(xs[1..], p);
      if p(xs[0]) {
        if forall i :: 0 <= i < |xs| - 1 ==> p(xs[1..][i]) {
          forall i | 0 <= i < |xs| ensures p(xs[i]) {
            if i > 0 { assert xs[1..][i - 1] == xs[i]; }
          }
        } else {
          var i :| 0 <= i < |xs| - 1 && !p(xs[1..][i]);
          assert xs[i + 1] == xs[1..][i];
        }
      }
    }
  }
}
