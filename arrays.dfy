/**
 * JavaScript's `Array.prototype.filter`, as the history store uses it,
 * with the properties that pin its result down: an in-order subsequence of
 * the input holding every kept element as often as the input does.
 */
module Arrays {

  /** The elements of `xs` that `keep` accepts, in their original order. */
  function Filter<T>(xs: seq<T>, keep: T -> bool): seq<T> {
    if xs == [] then []
    else (if keep(xs[0]) then [xs[0]] else []) + Filter(xs[1..], keep)
  }

  /** `sub` can be obtained from `xs` by deleting elements, keeping the order. */
  predicate IsSubsequence<T(==)>(sub: seq<T>, xs: seq<T>)
    decreases |xs|
  {
    if sub == [] then true
    else if xs == [] then false
    else (sub[0] == xs[0] && IsSubsequence(sub[1..], xs[1..])) || IsSubsequence(sub, xs[1..])
  }

  /** The filtered sequence is an in-order subsequence of the input. */
  lemma {:induction false} FilterSubsequence<T>(xs: seq<T>, keep: T -> bool)
    ensures IsSubsequence(Filter(xs, keep), xs)
  {
    if xs != [] {
      FilterSubsequence(xs[1..], keep);
      var rest := Filter(xs[1..], keep);
      if keep(xs[0]) {
        assert Filter(xs, keep) == [xs[0]] + rest;
        assert Filter(xs, keep)[1..] == rest;
      } else {
        assert Filter(xs, keep) == rest;
        SubsequenceOfTail(rest, xs);
      }
    }
  }

  /** Each kept value occurs as often as in the input; no other value occurs. */
  lemma {:induction false} FilterCount<T>(xs: seq<T>, keep: T -> bool)
    ensures forall x :: multiset(Filter(xs, keep))[x] == if keep(x) then multiset(xs)[x] else 0
  {
    if xs != [] {
      FilterCount(xs[1..], keep);
      assert xs == [xs[0]] + xs[1..];
      assert multiset(xs) == multiset{xs[0]} + multiset(xs[1..]);
      var rest := Filter(xs[1..], keep);
      if keep(xs[0]) {
        assert multiset(Filter(xs, keep)) == multiset{xs[0]} + multiset(rest);
      }
    }
  }

  /** An element is in the filtered sequence exactly when it is in the input and kept. */
  lemma FilterMembers<T>(xs: seq<T>, keep: T -> bool)
    ensures forall x | x in Filter(xs, keep) :: x in xs && keep(x)
    ensures forall x | x in xs && keep(x) :: x in Filter(xs, keep)
  {
    FilterCount(xs, keep);
    forall x ensures x in Filter(xs, keep) <==> x in xs && keep(x) {
      assert x in Filter(xs, keep) <==> x in multiset(Filter(xs, keep));
      assert x in xs <==> x in multiset(xs);
    }
  }

  lemma {:induction false} SubsequenceOfTail<T>(sub: seq<T>, xs: seq<T>)
    requires xs != [] && IsSubsequence(sub, xs[1..])
    ensures IsSubsequence(sub, xs)
  {
  }

  /** The length never grows, and it is kept exactly when every element is kept. */
  lemma {:induction false} FilterLength<T>(xs: seq<T>, keep: T -> bool)
    ensures |Filter(xs, keep)| <= |xs|
    ensures |Filter(xs, keep)| == |xs| <==> forall i :: 0 <= i < |xs| ==> keep(xs[i])
    ensures |Filter(xs, keep)| == |xs| ==> Filter(xs, keep) == xs
  {
    if xs != [] {
      FilterLength(xs[1..], keep);
      if !keep(xs[0]) {
        // index 0 is the witness that not every element is kept
        assert !keep(xs[0 + 0]);
      } else if |Filter(xs[1..], keep)| == |xs| - 1 {
        assert xs == [xs[0]] + xs[1..];
        forall i | 0 <= i < |xs| ensures keep(xs[i]) {
          if i > 0 { assert xs[i] == xs[1..][i - 1]; }
        }
      } else {
        var i :| 0 <= i < |xs| - 1 && !keep(xs[1..][i]);
        assert !keep(xs[i + 1]);
      }
    }
  }

  /** Filtering twice with the same test is filtering once. */
  lemma FilterIdempotent<T>(xs: seq<T>, keep: T -> bool)
    ensures Filter(Filter(xs, keep), keep) == Filter(xs, keep)
  {
    var once := Filter(xs, keep);
    FilterMembers(xs, keep);
    forall i | 0 <= i < |once| ensures keep(once[i]) {
      assert once[i] in once;
    }
    FilterLength(once, keep);
    assert |Filter(once, keep)| == |once|;
  }
}
