/** Order-preserving selection over sequences: the model of JavaScript's
    `Array.prototype.filter`, which every list computation of the dashboard uses. */
module Lists {

  /** `b` keeps every element of `a`, in order, possibly with others in between. */
  ghost predicate IsSubsequence<T>(a: seq<T>, b: seq<T>)
    decreases |b|
  {
    a == [] || (b != [] && ((a[0] == b[0] && IsSubsequence(a[1..], b[1..])) || IsSubsequence(a, b[1..])))
  }

  /** `xs.filter(p)`: the elements of `xs` that satisfy `p`, in their original order.
      The result is a subsequence of `xs` that holds every element satisfying `p` as often as
      `xs` does and no other element; together these pin the result down. */
  function Keep<T(!new)>(xs: seq<T>, p: T -> bool): (r: seq<T>)
    ensures |r| <= |xs|
    ensures IsSubsequence(r, xs)
    ensures forall x :: x in r <==> x in xs && p(x)
    ensures forall x :: multiset(r)[x] == if p(x) then multiset(xs)[x] else 0
  {
    if xs == [] then []
    else
      assert xs == [xs[0]] + xs[1..];
      var rest := Keep(xs[1..], p);
      if p(xs[0]) then
        assert ([xs[0]] + rest)[1..] == rest;
        [xs[0]] + rest
      else
        rest
  }

  /** Selecting with a predicate that holds on every element gives the input back. */
  lemma {:induction false} KeepEverything<T(!new)>(xs: seq<T>, p: T -> bool)
    requires forall x :: x in xs ==> p(x)
    ensures Keep(xs, p) == xs
  {
    if xs != [] {
      KeepEverything(xs[1..], p);
      assert xs == [xs[0]] + xs[1..];
    }
  }

  /** Selecting with a predicate that holds nowhere in `xs` gives the empty sequence. */
  lemma KeepNothing<T(!new)>(xs: seq<T>, p: T -> bool)
    requires forall x :: x in xs ==> !p(x)
    ensures Keep(xs, p) == []
  {
  }
}
