/** Order-preserving selections from sequences. */
module Seqs {
  /** The elements of `xs` satisfying `p`, in their order. */
  function Filter<T>(xs: seq<T>, p: T -> bool): seq<T>
    decreases |xs|
  {
    if xs == [] then []
    else Filter(xs[..|xs| - 1], p) + (if p(xs[|xs| - 1]) then [xs[|xs| - 1]] else [])
  }

  /** `sub` is `xs` with some elements left out. */
  predicate IsSubsequence<T(==)>(sub: seq<T>, xs: seq<T>)
    decreases |xs|
  {
    sub == [] || (xs != [] && ((sub[0] == xs[0] && IsSubsequence(sub[1..], xs[1..])) || IsSubsequence(sub, xs[1..])))
  }

  lemma {:induction false} FilterStep<T>(xs: seq<T>, p: T -> bool, i: nat)
    requires i < |xs|
    ensures Filter(xs[..i + 1], p) == Filter(xs[..i], p) + (if p(xs[i]) then [xs[i]] else [])
  {
    assert xs[..i + 1][..i] == xs[..i];
  }

  /** An element is selected exactly when it is in the sequence and
      satisfies the predicate. */
  lemma {:induction false} FilterIn<T>(xs: seq<T>, p: T -> bool, x: T)
    ensures x in Filter(xs, p) <==> x in xs && p(x)
    decreases |xs|
  {
    if xs != [] {
      var n := |xs| - 1;
      FilterIn(xs[..n], p, x);
      assert xs == xs[..n] + [xs[n]];
      assert x in xs <==> x in xs[..n] || x == xs[n];
    }
  }

  /** What is selected and what is not make up the sequence, each element
      once. */
  lemma {:induction false} FilterSplit<T>(xs: seq<T>, p: T -> bool, q: T -> bool)
    requires forall x :: q(x) == !p(x)
    ensures multiset(Filter(xs, p)) + multiset(Filter(xs, q)) == multiset(xs)
    decreases |xs|
  {
    if xs != [] {
      var n := |xs| - 1;
      FilterSplit(xs[..n], p, q);
      assert xs == xs[..n] + [xs[n]];
    }
  }

  lemma {:induction false} SubsequenceSnoc<T>(sub: seq<T>, xs: seq<T>, x: T)
    requires IsSubsequence(sub, xs)
    ensures IsSubsequence(sub + [x], xs + [x])
    decreases |xs|
  {
    if sub == [] {
      SubsequenceOne(xs, x);
      assert sub + [x] == [x];
    } else {
      assert (sub + [x])[0] == sub[0] && (sub + [x])[1..] == sub[1..] + [x];
      assert (xs + [x])[0] == xs[0] && (xs + [x])[1..] == xs[1..] + [x];
      if sub[0] == xs[0] && IsSubsequence(sub[1..], xs[1..]) {
        SubsequenceSnoc(sub[1..], xs[1..], x);
      } else {
        SubsequenceSnoc(sub, xs[1..], x);
      }
    }
  }

  lemma {:induction false} SubsequenceOne<T>(xs: seq<T>, x: T)
    ensures IsSubsequence([x], xs + [x])
    decreases |xs|
  {
    if xs != [] {
      assert (xs + [x])[1..] == xs[1..] + [x];
      SubsequenceOne(xs[1..], x);
    } else {
      assert [x][1..] == [];
    }
  }

  lemma {:induction false} SubsequenceLonger<T>(sub: seq<T>, xs: seq<T>, x: T)
    requires IsSubsequence(sub, xs)
    ensures IsSubsequence(sub, xs + [x])
    decreases |xs|
  {
    if sub != [] {
      assert (xs + [x])[0] == xs[0] && (xs + [x])[1..] == xs[1..] + [x];
      if sub[0] == xs[0] && IsSubsequence(sub[1..], xs[1..]) {
        SubsequenceLonger(sub[1..], xs[1..], x);
      } else {
        SubsequenceLonger(sub, xs[1..], x);
      }
    }
  }

  /** The selection keeps the order of the sequence. */
  lemma {:induction false} FilterSubsequence<T>(xs: seq<T>, p: T -> bool)
    ensures IsSubsequence(Filter(xs, p), xs)
    decreases |xs|
  {
    if xs != [] {
      var n := |xs| - 1;
      FilterSubsequence(xs[..n], p);
      assert xs == xs[..n] + [xs[n]];
      if p(xs[n]) {
        SubsequenceSnoc(Filter(xs[..n], p), xs[..n], xs[n]);
      } else {
        SubsequenceLonger(Filter(xs[..n], p), xs[..n], xs[n]);
        assert Filter(xs, p) == Filter(xs[..n], p);
      }
    }
  }

  /** Three elements, the middle one failing the predicate. */
  lemma {:induction false} FilterThree<T>(a: T, b: T, c: T, p: T -> bool, q: T -> bool)
    requires p(a) && !p(b) && p(c)
    requires forall x :: q(x) == !p(x)
    ensures Filter([a, b, c], p) == [a, c]
    ensures Filter([a, b, c], q) == [b]
  {
    var xs := [a, b, c];
    assert xs[..0] == [] && xs[..1] == [a] && xs[..2] == [a, b] && xs[..3] == xs;
    FilterStep(xs, p, 0);
    FilterStep(xs, p, 1);
    FilterStep(xs, p, 2);
    FilterStep(xs, q, 0);
    FilterStep(xs, q, 1);
    FilterStep(xs, q, 2);
  }
}
