/** Filtering of sequences: the per-queue index, the routing table and the dead-letter
    listing are all read through `Filter`. */
module Sequences {

  ghost predicate Distinct<T>(xs: seq<T>) {
    forall i, j :: 0 <= i < j < |xs| ==> xs[i] != xs[j]
  }

  /** The elements of `xs` that satisfy `p`, in their original order. */
  function Filter<T(!new)>(p: T -> bool, xs: seq<T>): (r: seq<T>)
    ensures |r| <= |xs|
    ensures forall x {:trigger x in r} :: x in r <==> x in xs && p(x)
  {
    if xs == [] then []
    else
      var last := xs[|xs| - 1];
      assert xs == xs[..|xs| - 1] + [last];
      Filter(p, xs[..|xs| - 1]) + (if p(last) then [last] else [])
  }

  function One(b: bool): nat {
    if b then 1 else 0
  }

  function Take<T>(limit: int, xs: seq<T>): (r: seq<T>)
    ensures forall x :: x in r ==> x in xs
    ensures |r| == if limit <= 0 then 0 else if limit < |xs| then limit else |xs|
  {
    if limit <= 0 then [] else if limit < |xs| then xs[..limit] else xs
  }

  lemma FilterPush<T(!new)>(p: T -> bool, xs: seq<T>, x: T)
    ensures Filter(p, xs + [x]) == Filter(p, xs) + (if p(x) then [x] else [])
  {
    assert (xs + [x])[..|xs|] == xs;
  }

  lemma {:induction false} FilterAppend<T(!new)>(p: T -> bool, xs: seq<T>, ys: seq<T>)
    ensures Filter(p, xs + ys) == Filter(p, xs) + Filter(p, ys)
    decreases |ys|
  {
    if ys == [] {
      assert xs + ys == xs;
    } else {
      var front, last := ys[..|ys| - 1], ys[|ys| - 1];
      FilterAppend(p, xs, front);
      assert xs + ys == (xs + front) + [last];
      FilterPush(p, xs + front, last);
      assert ys == front + [last];
    }
  }

  lemma {:induction false} FilterCong<T(!new)>(p: T -> bool, q: T -> bool, xs: seq<T>)
    requires forall x :: x in xs ==> p(x) == q(x)
    ensures Filter(p, xs) == Filter(q, xs)
    decreases |xs|
  {
    if xs != [] {
      assert xs == xs[..|xs| - 1] + [xs[|xs| - 1]];
      FilterCong(p, q, xs[..|xs| - 1]);
    }
  }

  /** A stronger filter sees through a weaker one. */
  lemma {:induction false} FilterFilter<T(!new)>(p: T -> bool, q: T -> bool, xs: seq<T>)
    requires forall x :: x in xs && p(x) ==> q(x)
    ensures Filter(p, Filter(q, xs)) == Filter(p, xs)
    decreases |xs|
  {
    if xs != [] {
      var front, last := xs[..|xs| - 1], xs[|xs| - 1];
      assert xs == front + [last];
      FilterFilter(p, q, front);
      FilterPush(q, front, last);
      if q(last) {
        FilterPush(p, Filter(q, front), last);
      } else {
        assert Filter(q, xs) == Filter(q, front);
      }
      FilterPush(p, front, last);
    }
  }

  lemma {:induction false} FilterDistinct<T(!new)>(p: T -> bool, xs: seq<T>)
    requires Distinct(xs)
    ensures Distinct(Filter(p, xs))
    decreases |xs|
  {
    if xs != [] {
      var front, last := xs[..|xs| - 1], xs[|xs| - 1];
      FilterDistinct(p, front);
      assert last !in Filter(p, front);
    }
  }

  lemma {:induction false} FilterNone<T(!new)>(p: T -> bool, xs: seq<T>)
    requires forall x :: x in xs ==> !p(x)
    ensures Filter(p, xs) == []
  {
    if Filter(p, xs) != [] {
      assert Filter(p, xs)[0] in Filter(p, xs);
    }
  }

  lemma {:induction false} FilterAll<T(!new)>(p: T -> bool, xs: seq<T>)
    requires forall x :: x in xs ==> p(x)
    ensures Filter(p, xs) == xs
    decreases |xs|
  {
    if xs != [] {
      assert xs == xs[..|xs| - 1] + [xs[|xs| - 1]];
      FilterAll(p, xs[..|xs| - 1]);
    }
  }

  lemma {:induction false} FilterFull<T(!new)>(p: T -> bool, xs: seq<T>)
    requires |Filter(p, xs)| == |xs|
    ensures forall x :: x in xs ==> p(x)
    decreases |xs|
  {
    if xs != [] {
      assert xs == xs[..|xs| - 1] + [xs[|xs| - 1]];
      FilterPush(p, xs[..|xs| - 1], xs[|xs| - 1]);
      FilterFull(p, xs[..|xs| - 1]);
    }
  }

  /** Filtering keeps the order of a duplicate-free sequence. */
  lemma {:induction false} FilterInOrder<T(!new)>(p: T -> bool, xs: seq<T>, a: nat, b: nat, i: nat, j: nat)
    requires Distinct(xs) && a < b < |Filter(p, xs)| && i < |xs| && j < |xs|
    requires xs[i] == Filter(p, xs)[a] && xs[j] == Filter(p, xs)[b]
    ensures i < j
    decreases |xs|
  {
    var front, last := xs[..|xs| - 1], xs[|xs| - 1];
    FilterPush(p, front, last);
    assert xs == front + [last];
    assert Filter(p, front)[a] in Filter(p, front);
    if b < |Filter(p, front)| {
      assert Filter(p, front)[b] in Filter(p, front);
      FilterInOrder(p, front, a, b, i, j);
    }
  }

  /** Whoever is left out of the first `n` comes after all of them, and only once there are `n`. */
  lemma {:induction false} FirstComeFirst<T(!new)>(p: T -> bool, xs: seq<T>, n: int, j: nat)
    requires Distinct(xs) && j < |xs| && p(xs[j]) && xs[j] !in Take(n, Filter(p, xs))
    ensures |Take(n, Filter(p, xs))| == if n < 0 then 0 else n
    ensures forall i :: 0 <= i < |xs| && xs[i] in Take(n, Filter(p, xs)) ==> i < j
    decreases |xs|
  {
    var front, last := xs[..|xs| - 1], xs[|xs| - 1];
    FilterPush(p, front, last);
    assert xs == front + [last];
    assert n <= |Filter(p, front)| by {
      assert xs[j] in Filter(p, xs);
    }
    assert Take(n, Filter(p, xs)) == Take(n, Filter(p, front));
    forall i | 0 <= i < |xs| && xs[i] in Take(n, Filter(p, xs))
      ensures i < j
    {
      assert xs[i] in front;
      if j < |front| { FirstComeFirst(p, front, n, j); }
    }
  }

  lemma DistinctPush<T>(xs: seq<T>, x: T)
    requires Distinct(xs) && x !in xs
    ensures Distinct(xs + [x])
  {}

  lemma {:induction false} DistinctSize<T(!new)>(xs: seq<T>, s: set<T>)
    requires Distinct(xs) && forall x :: x in xs <==> x in s
    ensures |xs| == |s|
    decreases |xs|
  {
    if xs == [] {
      assert s == {};
    } else {
      var front, last := xs[..|xs| - 1], xs[|xs| - 1];
      assert xs == front + [last];
      DistinctSize(front, s - {last});
    }
  }

  function Except<T(==)>(x: T): T -> bool {
    y => y != x
  }

  /** Dropping one element of a duplicate-free sequence shortens it by one. */
  lemma {:induction false} ExceptLength<T(!new)>(x: T, xs: seq<T>)
    requires Distinct(xs) && x in xs
    ensures |Filter(Except(x), xs)| == |xs| - 1
    decreases |xs|
  {
    var front, last := xs[..|xs| - 1], xs[|xs| - 1];
    assert xs == front + [last];
    if last == x {
      FilterAll(Except(x), front);
    } else {
      ExceptLength(x, front);
    }
  }

  /** Cutting one position out of a duplicate-free sequence removes that element and nothing else. */
  lemma ExceptAt<T(!new)>(xs: seq<T>, i: nat)
    requires i < |xs| && Distinct(xs)
    ensures Filter(Except(xs[i]), xs) == xs[..i] + xs[i + 1..]
  {
    hide Filter;
    var x, front, back := xs[i], xs[..i], xs[i + 1..];
    assert Filter(Except(x), front) == front by {
      assert x !in front;
      FilterAll(Except(x), front);
    }
    assert Filter(Except(x), back) == back by {
      assert x !in back;
      FilterAll(Except(x), back);
    }
    assert Filter(Except(x), [x]) == [] by { FilterNone(Except(x), [x]); }
    FilterAppend(Except(x), front, [x]);
    FilterAppend(Except(x), front + [x], back);
    assert xs == front + [x] + back;
  }
}
