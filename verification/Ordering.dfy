/** The byte-wise string order that sorts queue names, binding keys and message identifiers. */
module Ordering {
  import opened Sequences

  predicate Less(a: string, b: string) {
    b != "" && (a == "" || a[0] < b[0] || (a[0] == b[0] && Less(a[1..], b[1..])))
  }

  lemma {:induction false} LessIrreflexive(a: string)
    ensures !Less(a, a)
  {
    if a != "" { LessIrreflexive(a[1..]); }
  }

  lemma {:induction false} LessTransitive(a: string, b: string, c: string)
    requires Less(a, b) && Less(b, c)
    ensures Less(a, c)
  {
    if a != "" && a[0] == b[0] && b[0] == c[0] {
      LessTransitive(a[1..], b[1..], c[1..]);
    }
  }

  lemma {:induction false} LessTotal(a: string, b: string)
    ensures a == b || Less(a, b) || Less(b, a)
  {
    if a != "" && b != "" && a[0] == b[0] {
      LessTotal(a[1..], b[1..]);
      assert a == [a[0]] + a[1..] && b == [b[0]] + b[1..];
    }
  }

  /** Strictly increasing by `key`; so the keys are pairwise distinct. */
  ghost predicate SortedBy<T(!new)>(key: T -> string, xs: seq<T>) {
    forall i, j :: 0 <= i < j < |xs| ==> Less(key(xs[i]), key(xs[j]))
  }

  ghost predicate DistinctKeys<T(!new)>(key: T -> string, xs: seq<T>) {
    forall i, j :: 0 <= i < j < |xs| ==> key(xs[i]) != key(xs[j])
  }

  /** Insertion sort by key, standing in for the library sort. */
  function SortBy<T(!new)>(key: T -> string, xs: seq<T>): (r: seq<T>)
    ensures |r| == |xs|
    ensures forall x :: x in r <==> x in xs
  {
    if xs == [] then []
    else
      assert xs == xs[..|xs| - 1] + [xs[|xs| - 1]];
      Insert(key, SortBy(key, xs[..|xs| - 1]), xs[|xs| - 1])
  }

  function Insert<T(!new)>(key: T -> string, sorted: seq<T>, x: T): (r: seq<T>)
    ensures |r| == |sorted| + 1
    ensures forall y :: y in r <==> y in sorted || y == x
  {
    if sorted == [] then [x]
    else
      var front, last := sorted[..|sorted| - 1], sorted[|sorted| - 1];
      assert sorted == front + [last];
      if Less(key(x), key(last)) then Insert(key, front, x) + [last] else sorted + [x]
  }

  lemma {:induction false} InsertSorted<T(!new)>(key: T -> string, sorted: seq<T>, x: T)
    requires SortedBy(key, sorted) && forall y :: y in sorted ==> key(y) != key(x)
    ensures SortedBy(key, Insert(key, sorted, x))
    decreases |sorted|
  {
    if sorted != [] {
      var front, last := sorted[..|sorted| - 1], sorted[|sorted| - 1];
      LessTotal(key(x), key(last));
      if Less(key(x), key(last)) {
        InsertSorted(key, front, x);
        var head := Insert(key, front, x);
        forall i | 0 <= i < |head|
          ensures Less(key(head[i]), key(last))
        {
          assert head[i] in front || head[i] == x;
        }
      } else {
        forall i | 0 <= i < |sorted|
          ensures Less(key(sorted[i]), key(x))
        {
          if i < |sorted| - 1 { LessTransitive(key(sorted[i]), key(last), key(x)); }
        }
      }
    }
  }

  lemma {:induction false} SortBySorted<T(!new)>(key: T -> string, xs: seq<T>)
    requires DistinctKeys(key, xs)
    ensures SortedBy(key, SortBy(key, xs))
    decreases |xs|
  {
    if xs != [] {
      var front := xs[..|xs| - 1];
      SortBySorted(key, front);
      InsertSorted(key, SortBy(key, front), xs[|xs| - 1]);
    }
  }

  /** A strictly sorted listing is determined by its members. */
  lemma {:induction false} SortedUnique<T(!new)>(key: T -> string, xs: seq<T>, ys: seq<T>)
    requires SortedBy(key, xs) && SortedBy(key, ys)
    requires forall x :: x in xs <==> x in ys
    ensures xs == ys
    decreases |xs|
  {
    assert ys == [] || ys[0] in ys;
    if xs != [] {
      assert xs[0] in ys;
      SameLast(key, xs, ys);
      var fx, fy := xs[..|xs| - 1], ys[..|ys| - 1];
      forall x
        ensures x in fx <==> x in fy
      {
        FrontMembers(key, xs, x);
        FrontMembers(key, ys, x);
      }
      SortedUnique(key, fx, fy);
      assert xs == fx + [xs[|xs| - 1]] && ys == fy + [ys[|ys| - 1]];
    }
  }

  lemma SameLast<T(!new)>(key: T -> string, xs: seq<T>, ys: seq<T>)
    requires SortedBy(key, xs) && SortedBy(key, ys) && xs != [] && ys != []
    requires forall x :: x in xs <==> x in ys
    ensures xs[|xs| - 1] == ys[|ys| - 1]
  {
    var lx, ly := xs[|xs| - 1], ys[|ys| - 1];
    SortedLast(key, xs, ly);
    SortedLast(key, ys, lx);
    if lx != ly {
      LessTransitive(key(lx), key(ly), key(lx));
      LessIrreflexive(key(lx));
    }
  }

  lemma SortedLast<T(!new)>(key: T -> string, xs: seq<T>, x: T)
    requires SortedBy(key, xs) && x in xs
    ensures x == xs[|xs| - 1] || Less(key(x), key(xs[|xs| - 1]))
  {
    var i :| 0 <= i < |xs| && xs[i] == x;
  }

  lemma FrontMembers<T(!new)>(key: T -> string, xs: seq<T>, x: T)
    requires SortedBy(key, xs) && xs != []
    ensures x in xs[..|xs| - 1] <==> x in xs && x != xs[|xs| - 1]
  {
    var front, last := xs[..|xs| - 1], xs[|xs| - 1];
    assert xs == front + [last];
    if last in front {
      var i :| 0 <= i < |front| && front[i] == last;
      LessIrreflexive(key(last));
    }
  }

  lemma SortedDistinct<T(!new)>(key: T -> string, xs: seq<T>)
    requires SortedBy(key, xs)
    ensures Distinct(xs)
  {
    forall i, j | 0 <= i < j < |xs|
      ensures xs[i] != xs[j]
    {
      LessIrreflexive(key(xs[i]));
    }
  }

  /** The members of a finite set in increasing order of their keys. */
  ghost function ListingBy<T(!new)>(key: T -> string, s: set<T>): (r: seq<T>)
    ensures forall x :: x in r <==> x in s
    ensures |r| == |s|
  {
    if s == {} then []
    else
      var x :| x in s;
      assert s == (s - {x}) + {x};
      Insert(key, ListingBy(key, s - {x}), x)
  }

  lemma {:induction false} ListingBySorted<T(!new)>(key: T -> string, s: set<T>)
    requires forall x, y :: x in s && y in s && key(x) == key(y) ==> x == y
    ensures SortedBy(key, ListingBy(key, s))
    decreases |s|
  {
    if s != {} {
      var x :| x in s && ListingBy(key, s) == Insert(key, ListingBy(key, s - {x}), x);
      ListingBySorted(key, s - {x});
      InsertSorted(key, ListingBy(key, s - {x}), x);
    }
  }

  /** Sorting any duplicate-free enumeration of a set yields its listing. */
  lemma SortIsListing<T(!new)>(key: T -> string, xs: seq<T>, s: set<T>)
    requires DistinctKeys(key, xs) && forall x :: x in xs <==> x in s
    ensures SortBy(key, xs) == ListingBy(key, s)
  {
    SortBySorted(key, xs);
    forall x, y | x in s && y in s && key(x) == key(y)
      ensures x == y
    {
      var i, j :| 0 <= i < |xs| && 0 <= j < |xs| && xs[i] == x && xs[j] == y;
    }
    ListingBySorted(key, s);
    SortedUnique(key, SortBy(key, xs), ListingBy(key, s));
  }

  lemma DistinctKeysPush<T(!new)>(key: T -> string, xs: seq<T>, x: T)
    requires DistinctKeys(key, xs) && forall y :: y in xs ==> key(y) != key(x)
    ensures DistinctKeys(key, xs + [x])
  {}

  function Itself(): string -> string {
    s => s
  }

  ghost function Listing(s: set<string>): (r: seq<string>)
    ensures forall x :: x in r <==> x in s
    ensures |r| == |s|
  {
    ListingBy(Itself(), s)
  }

  lemma ListingSorted(s: set<string>)
    ensures SortedBy(Itself(), Listing(s))
  {
    ListingBySorted(Itself(), s);
  }
}
