/** Facts about "some element satisfies P" on a sequence split at one
    end, for the loops that stop at their first bad element. */
module Sequences {

  /** Some element of `xs` satisfies `p` exactly when one of `init`, all
      of `xs` but the last, does or the last one does. */
  lemma {:induction false} ExistsSplitLast<T>(xs: seq<T>, init: seq<T>, p: T -> bool)
    requires |xs| > 0 && init == xs[..|xs| - 1]
    ensures (exists i :: 0 <= i < |xs| && p(xs[i])) <==>
            ((exists i :: 0 <= i < |init| && p(init[i])) || p(xs[|xs| - 1]))
  {
    if exists i :: 0 <= i < |xs| && p(xs[i]) {
      var i :| 0 <= i < |xs| && p(xs[i]);
      if i < |init| { assert init[i] == xs[i]; }
    }
    if exists i :: 0 <= i < |init| && p(init[i]) {
      var i :| 0 <= i < |init| && p(init[i]);
      assert init[i] == xs[i];
    }
  }

  /** Some element of `xs` satisfies `p` exactly when its first one does
      or one of the rest does. */
  lemma {:induction false} ExistsSplitFirst<T>(xs: seq<T>, p: T -> bool)
    requires |xs| > 0
    ensures (exists i :: 0 <= i < |xs| && p(xs[i])) <==>
            (p(xs[0]) || exists i :: 0 <= i < |xs[1..]| && p(xs[1..][i]))
  {
    if exists i :: 0 <= i < |xs| && p(xs[i]) {
      var i :| 0 <= i < |xs| && p(xs[i]);
      if i > 0 { assert xs[1..][i - 1] == xs[i]; }
    }
    if exists i :: 0 <= i < |xs[1..]| && p(xs[1..][i]) {
      var i :| 0 <= i < |xs[1..]| && p(xs[1..][i]);
      assert xs[1..][i] == xs[i + 1];
    }
  }
}
