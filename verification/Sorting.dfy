/** Sorting by a rank made of two texts, the second breaking ties of the first. */
module Sorting {
  /** `str::cmp`: by code point from the left, a proper prefix first. */
  predicate TextAtMost(a: string, b: string) {
    a == "" || (b != "" && (a[0] < b[0] || (a[0] == b[0] && TextAtMost(a[1..], b[1..]))))
  }

  lemma TextTotal(a: string, b: string)
    ensures TextAtMost(a, b) || TextAtMost(b, a)
  {
  }

  lemma {:induction false} TextTransitive(a: string, b: string, c: string)
    requires TextAtMost(a, b) && TextAtMost(b, c)
    ensures TextAtMost(a, c)
  {
    if a == "" || !(a[0] == b[0] == c[0]) {
    } else {
      TextTransitive(a[1..], b[1..], c[1..]);
    }
  }

  lemma {:induction false} TextAntisymmetric(a: string, b: string)
    requires TextAtMost(a, b) && TextAtMost(b, a)
    ensures a == b
  {
    if a == "" {
    } else {
      TextAntisymmetric(a[1..], b[1..]);
      assert a == [a[0]] + a[1..] && b == [b[0]] + b[1..];
    }
  }

  datatype Rank = Rank(key: string, tie: string)

  predicate AtMost(p: Rank, q: Rank) {
    if p.key == q.key then TextAtMost(p.tie, q.tie) else TextAtMost(p.key, q.key)
  }

  lemma Total(p: Rank, q: Rank)
    ensures AtMost(p, q) || AtMost(q, p)
  {
    TextTotal(p.key, q.key);
    TextTotal(p.tie, q.tie);
  }

  lemma Transitive(p: Rank, q: Rank, r: Rank)
    requires AtMost(p, q) && AtMost(q, r)
    ensures AtMost(p, r)
  {
    if p.key == q.key == r.key {
      TextTransitive(p.tie, q.tie, r.tie);
    } else if p.key != q.key && q.key != r.key {
      TextTransitive(p.key, q.key, r.key);
      if p.key == r.key { TextAntisymmetric(p.key, q.key); }
    }
  }

  lemma Antisymmetric(p: Rank, q: Rank)
    requires AtMost(p, q) && AtMost(q, p)
    ensures p == q
  {
    if p.key == q.key { TextAntisymmetric(p.tie, q.tie); } else { TextAntisymmetric(p.key, q.key); }
  }

  ghost predicate Sorted<T>(xs: seq<T>, rank: T -> Rank) {
    forall i, j | 0 <= i < j < |xs| :: AtMost(rank(xs[i]), rank(xs[j]))
  }

  /** No two different elements share a rank. */
  ghost predicate Distinguishes<T>(xs: seq<T>, rank: T -> Rank) {
    forall x, y | x in xs && y in xs && rank(x) == rank(y) :: x == y
  }

  function Insert<T>(x: T, xs: seq<T>, rank: T -> Rank): (r: seq<T>)
    ensures multiset(r) == multiset{x} + multiset(xs)
  {
    if xs == [] || AtMost(rank(x), rank(xs[0])) then [x] + xs
    else
      assert xs == [xs[0]] + xs[1..];
      [xs[0]] + Insert(x, xs[1..], rank)
  }

  function Sort<T>(xs: seq<T>, rank: T -> Rank): (r: seq<T>)
    ensures multiset(r) == multiset(xs) && |r| == |xs|
  {
    if xs == [] then []
    else
      assert xs == [xs[0]] + xs[1..];
      var r := Insert(xs[0], Sort(xs[1..], rank), rank);
      assert |multiset(r)| == |multiset(xs)|;
      r
  }

  lemma InMultiset<T>(x: T, xs: seq<T>)
    ensures x in xs <==> x in multiset(xs)
  {
  }

  lemma {:induction false} InsertSorted<T>(x: T, xs: seq<T>, rank: T -> Rank)
    requires Sorted(xs, rank)
    ensures Sorted(Insert(x, xs, rank), rank)
  {
    if xs == [] {
    } else if AtMost(rank(x), rank(xs[0])) {
      forall j | 0 <= j < |xs| ensures AtMost(rank(x), rank(xs[j])) {
        if j > 0 { Transitive(rank(x), rank(xs[0]), rank(xs[j])); }
      }
    } else {
      Total(rank(x), rank(xs[0]));
      InsertSorted(x, xs[1..], rank);
      var rest := Insert(x, xs[1..], rank);
      forall j | 0 <= j < |rest| ensures AtMost(rank(xs[0]), rank(rest[j])) {
        InMultiset(rest[j], rest);
        InMultiset(rest[j], xs[1..]);
      }
    }
  }

  lemma {:induction false} SortSorts<T>(xs: seq<T>, rank: T -> Rank)
    ensures Sorted(Sort(xs, rank), rank)
  {
    if xs == [] {
    } else {
      SortSorts(xs[1..], rank);
      InsertSorted(xs[0], Sort(xs[1..], rank), rank);
    }
  }

  lemma SortMembers<T>(xs: seq<T>, rank: T -> Rank)
    ensures forall x :: x in Sort(xs, rank) <==> x in xs
  {
    forall x ensures x in Sort(xs, rank) <==> x in xs {
      InMultiset(x, Sort(xs, rank));
      InMultiset(x, xs);
    }
  }

  lemma SameLeast<T>(xs: seq<T>, ys: seq<T>, rank: T -> Rank)
    requires xs != [] && ys != [] && multiset(xs) == multiset(ys) && Distinguishes(xs, rank)
    requires Sorted(xs, rank) && Sorted(ys, rank)
    ensures xs[0] == ys[0]
  {
    InMultiset(xs[0], ys);
    InMultiset(ys[0], xs);
    if xs[0] != ys[0] {
      Antisymmetric(rank(xs[0]), rank(ys[0]));
    }
  }

  lemma SameRest<T>(x: T, xs: seq<T>, ys: seq<T>)
    requires multiset([x] + xs) == multiset([x] + ys)
    ensures multiset(xs) == multiset(ys)
  {
    assert multiset(xs) == multiset([x] + xs) - multiset{x};
    assert multiset(ys) == multiset([x] + ys) - multiset{x};
  }

  /** Two sorted arrangements of the same elements are the same, when the rank tells elements apart. */
  lemma {:induction false} SortedUnique<T>(xs: seq<T>, ys: seq<T>, rank: T -> Rank)
    requires multiset(xs) == multiset(ys) && Distinguishes(xs, rank)
    requires Sorted(xs, rank) && Sorted(ys, rank)
    ensures xs == ys
  {
    assert |xs| == |multiset(xs)| == |multiset(ys)| == |ys|;
    if xs == [] {
    } else {
      SameLeast(xs, ys, rank);
      assert xs == [xs[0]] + xs[1..] && ys == [xs[0]] + ys[1..];
      SameRest(xs[0], xs[1..], ys[1..]);
      SortedUnique(xs[1..], ys[1..], rank);
    }
  }

  /** Sorting forgets the original arrangement and nothing else. */
  lemma SortCanonical<T>(xs: seq<T>, ys: seq<T>, rank: T -> Rank)
    requires Distinguishes(xs, rank)
    ensures Sort(xs, rank) == Sort(ys, rank) <==> multiset(xs) == multiset(ys)
  {
    if multiset(xs) == multiset(ys) {
      SortSorts(xs, rank);
      SortSorts(ys, rank);
      forall x | x in Sort(xs, rank) ensures x in xs {
        InMultiset(x, Sort(xs, rank));
        InMultiset(x, xs);
      }
      SortedUnique(Sort(xs, rank), Sort(ys, rank), rank);
    }
  }
}
