/** Small facts about slices and concatenations, kept apart so that larger proofs stay cheap. */
module Sequences {

  lemma Assoc<T>(a: seq<T>, b: seq<T>, c: seq<T>)
    ensures (a + b) + c == a + (b + c)
  {
  }

  lemma DropFromConcat<T>(a: seq<T>, b: seq<T>, k: nat)
    requires k <= |a|
    ensures (a + b)[k..] == a[k..] + b
  {
  }

  lemma DropTwice<T>(s: seq<T>, i: nat, k: nat)
    requires i + k <= |s|
    ensures s[i..][k..] == s[i + k..]
  {
  }

  lemma TakeAndDrop<T>(s: seq<T>, k: nat)
    requires k <= |s|
    ensures s[..k] + s[k..] == s
  {
  }

  lemma NothingRight<T>(s: seq<T>)
    ensures s + [] == s
  {
  }

  lemma NothingLeft<T>(s: seq<T>)
    ensures [] + s == s
  {
  }

  /** Apply `f` to the elements in order. */
  function Fold<S, A>(f: (S, A) -> S, s: S, xs: seq<A>): S
    decreases |xs|
  {
    if xs == [] then s else f(Fold(f, s, xs[..|xs| - 1]), xs[|xs| - 1])
  }

  lemma {:induction false} FoldAppend<S, A>(f: (S, A) -> S, s: S, xs: seq<A>, ys: seq<A>)
    ensures Fold(f, s, xs + ys) == Fold(f, Fold(f, s, xs), ys)
    decreases |ys|
  {
    if ys == [] {
      NothingRight(xs);
    } else {
      var n := |ys| - 1;
      assert (xs + ys)[..|xs| + n] == xs + ys[..n];
      FoldAppend(f, s, xs, ys[..n]);
    }
  }

  lemma FoldNext<S, A>(f: (S, A) -> S, s: S, xs: seq<A>, x: A)
    ensures Fold(f, s, xs + [x]) == f(Fold(f, s, xs), x)
  {
    assert (xs + [x])[..|xs|] == xs;
  }

  lemma FoldOne<S, A>(f: (S, A) -> S, s: S, x: A)
    ensures Fold(f, s, [x]) == f(s, x)
  {
    assert [x][..0] == [];
  }

  /** The lists `f` gives for the elements, in order, end to end. */
  function FlatMap<A, B>(f: A -> seq<B>, xs: seq<A>): seq<B>
    decreases |xs|
  {
    if xs == [] then [] else FlatMap(f, xs[..|xs| - 1]) + f(xs[|xs| - 1])
  }

  lemma {:induction false} FlatMapAppend<A, B>(f: A -> seq<B>, xs: seq<A>, ys: seq<A>)
    ensures FlatMap(f, xs + ys) == FlatMap(f, xs) + FlatMap(f, ys)
    decreases |ys|
  {
    if ys == [] {
      NothingRight(xs);
      NothingRight(FlatMap(f, xs));
    } else {
      var n := |ys| - 1;
      assert (xs + ys)[..|xs| + n] == xs + ys[..n];
      FlatMapAppend(f, xs, ys[..n]);
      Assoc(FlatMap(f, xs), FlatMap(f, ys[..n]), f(ys[n]));
    }
  }

  /** One more element of a list that is being walked. */
  lemma FlatMapNext<A, B>(f: A -> seq<B>, xs: seq<A>, i: nat)
    requires i < |xs|
    ensures FlatMap(f, xs[..i + 1]) == FlatMap(f, xs[..i]) + f(xs[i])
  {
    assert xs[..i + 1][..i] == xs[..i];
  }

  lemma WholePrefix<A>(xs: seq<A>)
    ensures xs[..|xs|] == xs
  {
  }

  lemma KeptUpTo<A>(xs: seq<A>, ys: seq<A>, i: nat)
    requires xs <= ys && i < |xs|
    ensures xs[i] == ys[i] && xs[..i] == ys[..i] && xs[..i + 1] == ys[..i + 1]
  {
  }

  lemma PrefixNext<A>(xs: seq<A>, i: nat)
    requires i < |xs|
    ensures xs[..i + 1] == xs[..i] + [xs[i]]
  {
  }

  lemma SplitAround<A>(xs: seq<A>, i: nat)
    requires i < |xs|
    ensures xs == (xs[..i] + [xs[i]]) + xs[i + 1..]
  {
  }

  lemma SplitLast<A>(xs: seq<A>)
    requires xs != []
    ensures xs == xs[..|xs| - 1] + [xs[|xs| - 1]]
  {
  }

  lemma {:induction false} SubsetCount<A>(a: set<A>, b: set<A>)
    requires a <= b
    ensures |a| <= |b|
    ensures |a| == |b| ==> a == b
    decreases a
  {
    if x :| x in a {
      SubsetCount(a - {x}, b - {x});
    }
  }

  /** Taking one element out of a list takes it out of its multiset. */
  lemma WithoutOne<A>(xs: seq<A>, i: nat)
    requires i < |xs|
    ensures multiset(xs) == multiset(xs[..i] + xs[i + 1..]) + multiset{xs[i]}
  {
    assert xs == xs[..i] + ([xs[i]] + xs[i + 1..]);
  }

  /** The same element taken out of equal multisets leaves equal multisets. */
  lemma CancelOne<A>(x: multiset<A>, y: multiset<A>, a: A)
    requires x + multiset{a} == y + multiset{a}
    ensures x == y
  {
    assert x == (x + multiset{a}) - multiset{a};
    assert y == (y + multiset{a}) - multiset{a};
  }

  /** The last element of one list found in another list of the same elements, and both without it. */
  lemma FindLast<A>(xs: seq<A>, ys: seq<A>) returns (i: nat)
    requires multiset(xs) == multiset(ys) && xs != []
    ensures i < |ys| && ys[i] == xs[|xs| - 1]
    ensures multiset(xs[..|xs| - 1]) == multiset(ys[..i] + ys[i + 1..])
    ensures ys == (ys[..i] + [ys[i]]) + ys[i + 1..]
  {
    var n := |xs| - 1;
    var a := xs[n];
    assert a in multiset(ys);
    i :| 0 <= i < |ys| && ys[i] == a;
    WithoutOne(xs, n);
    WithoutOne(ys, i);
    assert xs[n + 1..] == [];
    NothingRight(xs[..n]);
    CancelOne(multiset(xs[..n]), multiset(ys[..i] + ys[i + 1..]), a);
  }

  lemma OneMore<A>(xs: seq<A>, ys: seq<A>, i: nat)
    requires i < |ys|
    ensures xs + ys[..i + 1] == (xs + ys[..i]) + [ys[i]]
  {
  }
}
