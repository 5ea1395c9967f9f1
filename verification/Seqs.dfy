/** Concatenations and sums over sequences. */
module Seqs {

  /** 0, 1, ..., n - 1. */
  function Upto(n: nat): (r: seq<nat>)
    ensures |r| == n && forall i :: 0 <= i < n ==> r[i] == i
  {
    seq(n, i => i)
  }

  /** The lists that `f` makes of the elements, put together. */
  function FlatMap<T, U>(f: T -> seq<U>, xs: seq<T>): seq<U> {
    if xs == [] then [] else f(xs[0]) + FlatMap(f, xs[1..])
  }

  lemma {:induction false} FlatMapConcat<T, U>(f: T -> seq<U>, xs: seq<T>, ys: seq<T>)
    ensures FlatMap(f, xs + ys) == FlatMap(f, xs) + FlatMap(f, ys)
  {
    if xs == [] {
      assert xs + ys == ys;
    } else {
      FlatMapConcat(f, xs[1..], ys);
      assert (xs + ys)[1..] == xs[1..] + ys;
      assert f(xs[0]) + (FlatMap(f, xs[1..]) + FlatMap(f, ys)) == (f(xs[0]) + FlatMap(f, xs[1..])) + FlatMap(f, ys);
    }
  }

  lemma FlatMapOne<T, U>(f: T -> seq<U>, x: T)
    ensures FlatMap(f, [x]) == f(x)
  {
    assert FlatMap(f, [x]) == f(x) + FlatMap(f, []);
  }

  lemma FlatMapAppend<T, U>(f: T -> seq<U>, xs: seq<T>, x: T)
    ensures FlatMap(f, xs + [x]) == FlatMap(f, xs) + f(x)
  {
    FlatMapConcat(f, xs, [x]);
    FlatMapOne(f, x);
  }

  /** One turn of a loop that appends f(xs[i]). */
  lemma FlatMapNext<T, U>(f: T -> seq<U>, xs: seq<T>, i: nat)
    requires i < |xs|
    ensures FlatMap(f, xs[..i + 1]) == FlatMap(f, xs[..i]) + f(xs[i])
    ensures f(xs[i]) == [] ==> FlatMap(f, xs[..i + 1]) == FlatMap(f, xs[..i])
  {
    FlatMapAppend(f, xs[..i], xs[i]);
    assert xs[..i + 1] == xs[..i] + [xs[i]];
  }

  /** When every element makes exactly one. */
  lemma {:induction false} FlatMapSingles<T, U>(f: T -> seq<U>, xs: seq<T>, ys: seq<U>)
    requires |xs| == |ys| && forall i :: 0 <= i < |xs| ==> f(xs[i]) == [ys[i]]
    ensures FlatMap(f, xs) == ys
  {
    if xs != [] {
      FlatMapSingles(f, xs[1..], ys[1..]);
      assert ys == [ys[0]] + ys[1..];
    }
  }

  lemma BagWithout<T>(xs: seq<T>, i: nat)
    requires i < |xs|
    ensures multiset(xs[..i] + xs[i + 1..]) == multiset(xs) - multiset{xs[i]}
  {
    assert xs == xs[..i] + ([xs[i]] + xs[i + 1..]);
  }

  lemma BagTail<T>(xs: seq<T>)
    requires xs != []
    ensures multiset(xs[1..]) == multiset(xs) - multiset{xs[0]}
  {
    assert xs == [xs[0]] + xs[1..];
  }

  /** An occurrence of the first element of `xs` in its rearrangement `ys`, and what is left without it. */
  lemma PermStep<T>(xs: seq<T>, ys: seq<T>) returns (i: nat)
    requires xs != [] && multiset(xs) == multiset(ys)
    ensures i < |ys| && ys[i] == xs[0] && multiset(xs[1..]) == multiset(ys[..i] + ys[i + 1..])
  {
    assert xs[0] in multiset(ys);
    i :| 0 <= i < |ys| && ys[i] == xs[0];
    BagTail(xs);
    BagWithout(ys, i);
  }

  lemma FlatMapWithout<T, U>(f: T -> seq<U>, xs: seq<T>, i: nat)
    requires i < |xs|
    ensures multiset(FlatMap(f, xs)) == multiset(f(xs[i])) + multiset(FlatMap(f, xs[..i] + xs[i + 1..]))
  {
    var a, b := xs[..i], xs[i + 1..];
    assert xs == (a + [xs[i]]) + b;
    FlatMapConcat(f, a + [xs[i]], b);
    FlatMapAppend(f, a, xs[i]);
    FlatMapConcat(f, a, b);
  }

  /** Rearranging the elements rearranges what they make. */
  lemma {:induction false} FlatMapPerm<T, U>(f: T -> seq<U>, xs: seq<T>, ys: seq<T>)
    requires multiset(xs) == multiset(ys)
    ensures multiset(FlatMap(f, xs)) == multiset(FlatMap(f, ys))
  {
    if xs == [] {
      assert |multiset(ys)| == 0;
    } else {
      var i := PermStep(xs, ys);
      FlatMapPerm(f, xs[1..], ys[..i] + ys[i + 1..]);
      FlatMapWithout(f, ys, i);
    }
  }

  /** Making two lists of every element, at once or one after the other. */
  lemma {:induction false} FlatMapPlus<T, U>(f: T -> seq<U>, g: T -> seq<U>, h: T -> seq<U>, xs: seq<T>)
    requires forall i :: 0 <= i < |xs| ==> h(xs[i]) == f(xs[i]) + g(xs[i])
    ensures multiset(FlatMap(h, xs)) == multiset(FlatMap(f, xs)) + multiset(FlatMap(g, xs))
  {
    if xs != [] {
      FlatMapPlus(f, g, h, xs[1..]);
    }
  }

  lemma {:induction false} FlatMapSame<T, U>(f: T -> seq<U>, g: T -> seq<U>, xs: seq<T>)
    requires forall i :: 0 <= i < |xs| ==> f(xs[i]) == g(xs[i])
    ensures FlatMap(f, xs) == FlatMap(g, xs)
  {
    if xs != [] {
      FlatMapSame(f, g, xs[1..]);
    }
  }

  function Sum<T>(f: T -> int, xs: seq<T>): int {
    if xs == [] then 0 else f(xs[0]) + Sum(f, xs[1..])
  }

  lemma {:induction false} SumConcat<T>(f: T -> int, xs: seq<T>, ys: seq<T>)
    ensures Sum(f, xs + ys) == Sum(f, xs) + Sum(f, ys)
  {
    if xs == [] {
      assert xs + ys == ys;
    } else {
      SumConcat(f, xs[1..], ys);
      assert (xs + ys)[1..] == xs[1..] + ys;
    }
  }

  lemma SumAppend<T>(f: T -> int, xs: seq<T>, x: T)
    ensures Sum(f, xs + [x]) == Sum(f, xs) + f(x)
  {
    SumConcat(f, xs, [x]);
    assert Sum(f, [x]) == f(x) + Sum(f, []);
  }

  lemma SumNext<T>(f: T -> int, xs: seq<T>, i: nat)
    requires i < |xs|
    ensures Sum(f, xs[..i + 1]) == Sum(f, xs[..i]) + f(xs[i])
  {
    SumAppend(f, xs[..i], xs[i]);
    assert xs[..i + 1] == xs[..i] + [xs[i]];
  }

  /** Taking one element out. */
  lemma {:induction false} SumWithout<T>(f: T -> int, xs: seq<T>, i: nat)
    requires i < |xs|
    ensures Sum(f, xs) == f(xs[i]) + Sum(f, xs[..i] + xs[i + 1..])
  {
    if i == 0 {
      assert xs[..0] + xs[1..] == xs[1..];
    } else {
      SumWithout(f, xs[1..], i - 1);
      assert (xs[..i] + xs[i + 1..])[1..] == xs[1..][..i - 1] + xs[1..][i..];
    }
  }

  lemma SumUpdate<T>(f: T -> int, xs: seq<T>, i: nat, x: T)
    requires i < |xs|
    ensures Sum(f, xs[i := x]) + f(xs[i]) == Sum(f, xs) + f(x)
  {
    SumWithout(f, xs, i);
    SumWithout(f, xs[i := x], i);
    assert xs[i := x][..i] == xs[..i] && xs[i := x][i + 1..] == xs[i + 1..];
  }

  /** Rearranging changes no sum. */
  lemma {:induction false} SumPerm<T>(f: T -> int, xs: seq<T>, ys: seq<T>)
    requires multiset(xs) == multiset(ys)
    ensures Sum(f, xs) == Sum(f, ys)
  {
    if xs == [] {
      assert |multiset(ys)| == 0;
    } else {
      var i := PermStep(xs, ys);
      SumPerm(f, xs[1..], ys[..i] + ys[i + 1..]);
      SumWithout(f, ys, i);
    }
  }

  lemma {:induction false} SumBounds<T>(f: T -> int, xs: seq<T>, b: nat)
    requires forall i :: 0 <= i < |xs| ==> 0 <= f(xs[i]) <= b
    ensures 0 <= Sum(f, xs) <= b * |xs|
  {
    if xs != [] {
      SumBounds(f, xs[1..], b);
      assert b * |xs| == b + b * (|xs| - 1);
    }
  }
}
