/** Sums over term lists, the Cauchy-Schwarz bound and the stable sort the ranker relies on
    (`lib/kernel/ranker.js`). */
module RankerMath {
  import opened Common

  type Term = string

  type Vector = map<Term, real>

  /** The two functions of `Math` in use, over exact reals. */
  datatype Maths = Maths(log: real -> real, sqrt: real -> real)

  ghost predicate Lawful(m: Maths) {
    && m.log(1.0) == 0.0
    && (forall x: real | x >= 1.0 :: m.log(x) >= 0.0)
    && (forall x: real | x >= 0.0 :: m.sqrt(x) >= 0.0 && m.sqrt(x) * m.sqrt(x) == x)
  }

  predicate Distinct<T(==)>(s: seq<T>) {
    forall i, j | 0 <= i < j < |s| :: s[i] != s[j]
  }

  function At(v: Vector, t: Term): real {
    if t in v then v[t] else 0.0
  }

  function Times(a: real, b: real): real {
    a * b
  }

  /** The sum of `x[t] * y[t]` over the listed terms. */
  function Dot(ts: seq<Term>, x: Vector, y: Vector): real {
    if ts == [] then 0.0 else Dot(ts[..|ts| - 1], x, y) + Times(At(x, ts[|ts| - 1]), At(y, ts[|ts| - 1]))
  }

  function Square(ts: seq<Term>, x: Vector): real {
    Dot(ts, x, x)
  }

  lemma {:induction false} SquareIsNonnegative(ts: seq<Term>, x: Vector)
    ensures Square(ts, x) >= 0.0
  {
    if ts != [] {
      SquareIsNonnegative(ts[..|ts| - 1], x);
      var a := At(x, ts[|ts| - 1]);
      assert a * a >= 0.0;
    }
  }

  lemma {:induction false} DotIsNonnegative(ts: seq<Term>, x: Vector, y: Vector)
    requires forall t | t in x :: x[t] >= 0.0
    requires forall t | t in y :: y[t] >= 0.0
    ensures Dot(ts, x, y) >= 0.0
  {
    if ts != [] {
      DotIsNonnegative(ts[..|ts| - 1], x, y);
      ProductIsNonnegative(At(x, ts[|ts| - 1]), At(y, ts[|ts| - 1]));
    }
  }

  lemma ProductIsNonnegative(a: real, b: real)
    requires a >= 0.0 && b >= 0.0
    ensures a * b >= 0.0
  {
  }

  lemma {:induction false} DotDependsOn(ts: seq<Term>, x: Vector, y: Vector, x': Vector, y': Vector)
    requires forall t | t in ts :: At(x, t) == At(x', t) && At(y, t) == At(y', t)
    ensures Dot(ts, x, y) == Dot(ts, x', y')
  {
    if ts != [] {
      var last := ts[|ts| - 1];
      assert last in ts;
      DotDependsOn(ts[..|ts| - 1], x, y, x', y');
    }
  }

  // ---------- Cauchy-Schwarz ----------

  lemma SquareSplits(q: real, e: real)
    ensures (q + e) * (q + e) == q * q + (2.0 * (q * e) + e * e)
  {
  }

  lemma SquareGrows(p: real, q: real)
    requires p > q >= 0.0
    ensures p * p > q * q
  {
    var e := p - q;
    SquareSplits(q, e);
    assert p == q + e;
    ProductIsNonnegative(q, e);
    assert e * e > 0.0;
  }

  lemma SquaresOrder(p: real, q: real)
    requires q >= 0.0 && p * p <= q * q
    ensures p <= q
  {
    if p > q {
      SquareGrows(p, q);
    }
  }

  lemma MeanBound(u: real, v: real)
    ensures 4.0 * (u * v) <= (u + v) * (u + v)
  {
    assert (u + v) * (u + v) - 4.0 * (u * v) == (u - v) * (u - v);
    assert (u - v) * (u - v) >= 0.0;
  }

  lemma MixedTerm(d: real, p: real, q: real, a: real, b: real)
    requires d * d <= p * q && p >= 0.0 && q >= 0.0
    ensures 2.0 * (d * (a * b)) <= p * (b * b) + q * (a * a)
  {
    var u, v := p * (b * b), q * (a * a);
    var ab := a * b;
    assert a * a >= 0.0 && b * b >= 0.0;
    ProductIsNonnegative(p, b * b);
    ProductIsNonnegative(q, a * a);
    MeanBound(u, v);
    var m := 2.0 * (d * ab);
    assert u * v == (p * q) * (ab * ab) by {
      Rearranged(p, q, a, b);
    }
    assert ab * ab >= 0.0;
    ScalesOrder(d * d, p * q, ab * ab);
    assert m * m == 4.0 * ((d * d) * (ab * ab)) by {
      DoubledSquare(d, ab);
    }
    SquaresOrder(m, u + v);
  }

  lemma Rearranged(p: real, q: real, a: real, b: real)
    ensures (p * (b * b)) * (q * (a * a)) == (p * q) * ((a * b) * (a * b))
  {
    var s, t := a * a, b * b;
    assert (a * b) * (a * b) == s * t;
    assert (p * t) * (q * s) == (p * q) * (s * t);
  }

  lemma DoubledSquare(d: real, e: real)
    ensures (2.0 * (d * e)) * (2.0 * (d * e)) == 4.0 * ((d * d) * (e * e))
  {
    var f := d * e;
    assert f * f == (d * d) * (e * e);
  }

  lemma ScalesOrder(x: real, y: real, k: real)
    requires x <= y && k >= 0.0
    ensures x * k <= y * k
  {
    assert (y - x) * k >= 0.0;
  }

  predicate WithinRoots(d: real, p: real, q: real) {
    d * d <= p * q
  }

  lemma NothingWithinRoots()
    ensures WithinRoots(0.0, 0.0, 0.0)
  {
  }

  lemma {:induction false} CauchySchwarz(ts: seq<Term>, x: Vector, y: Vector)
    ensures WithinRoots(Dot(ts, x, y), Square(ts, x), Square(ts, y))
  {
    hide WithinRoots, At, Times;
    if ts != [] {
      var front, last := ts[..|ts| - 1], ts[|ts| - 1];
      CauchySchwarz(front, x, y);
      SquareIsNonnegative(front, x);
      SquareIsNonnegative(front, y);
      AddOneTerm(Dot(front, x, y), Square(front, x), Square(front, y), At(x, last), At(y, last));
    } else {
      NothingWithinRoots();
    }
  }

  lemma AddOneTerm(d: real, p: real, q: real, a: real, b: real)
    requires WithinRoots(d, p, q) && p >= 0.0 && q >= 0.0
    ensures WithinRoots(d + Times(a, b), p + Times(a, a), q + Times(b, b))
  {
    MixedTerm(d, p, q, a, b);
    var ab, aa, bb := a * b, a * a, b * b;
    assert (d + ab) * (d + ab) == d * d + 2.0 * (d * ab) + ab * ab;
    assert (p + aa) * (q + bb) == p * q + p * bb + q * aa + aa * bb;
    assert ab * ab == aa * bb;
  }

  /** Terms outside the vector add nothing, so any distinct list sums to at most the whole. */
  lemma {:induction false} SquareOverSome(ts: seq<Term>, all: seq<Term>, y: Vector)
    requires Distinct(ts) && Distinct(all) && forall t | t in y :: t in all
    ensures Square(ts, y) <= Square(all, y)
    decreases |all|
  {
    if all == [] {
      NothingToSum(ts, y);
    } else {
      var front, last := all[..|all| - 1], all[|all| - 1];
      var y' := y - {last};
      forall t | t in y'
        ensures t in front
      {
        var k :| 0 <= k < |all| && all[k] == t;
        assert front[k] == t;
      }
      SquareOverSome(ts, front, y');
      assert last !in front;
      DotDependsOn(front, y, y, y', y');
      DropOneTerm(ts, last, y);
    }
  }

  lemma {:induction false} NothingToSum(ts: seq<Term>, y: Vector)
    requires y == map[]
    ensures Square(ts, y) == 0.0
  {
    if ts != [] {
      NothingToSum(ts[..|ts| - 1], y);
    }
  }

  lemma {:induction false} DropOneTerm(ts: seq<Term>, t: Term, y: Vector)
    requires Distinct(ts)
    ensures Square(ts, y) == Square(ts, y - {t}) + if t in ts then At(y, t) * At(y, t) else 0.0
  {
    if ts != [] {
      var front, last := ts[..|ts| - 1], ts[|ts| - 1];
      DropOneTerm(front, t, y);
      assert ts == front + [last];
      assert t in ts <==> t in front || t == last;
      if last == t {
        assert t !in front;
      } else {
        assert At(y - {t}, last) == At(y, last);
      }
    }
  }

  /** The cosine of a query and a document, each with the norm of all its terms, lies in [0, 1]. */
  lemma CosineIsInUnit(m: Maths, qs: seq<Term>, x: Vector, ds: seq<Term>, y: Vector)
    requires Lawful(m) && Distinct(qs) && Distinct(ds) && forall t | t in y :: t in ds
    requires forall t | t in x :: x[t] >= 0.0
    requires forall t | t in y :: y[t] >= 0.0
    ensures Square(qs, x) >= 0.0 && Square(ds, y) >= 0.0
    ensures 0.0 <= Dot(qs, x, y) <= Times(m.sqrt(Square(qs, x)), m.sqrt(Square(ds, y)))
  {
    hide Dot, Square, Distinct, WithinRoots, Lawful, Times, IsRoot;
    SquareIsNonnegative(qs, x);
    SquareIsNonnegative(ds, y);
    SquareIsNonnegative(qs, y);
    DotIsNonnegative(qs, x, y);
    CauchySchwarz(qs, x, y);
    SquareOverSome(qs, ds, y);
    RootsOf(m, Square(qs, x));
    RootsOf(m, Square(ds, y));
    RootsBound(Dot(qs, x, y), Square(qs, x), Square(ds, y), Square(qs, y), m.sqrt(Square(qs, x)), m.sqrt(Square(ds, y)));
  }

  predicate IsRoot(n: real, p: real) {
    n >= 0.0 && n * n == p
  }

  lemma RootsOf(m: Maths, p: real)
    requires Lawful(m) && p >= 0.0
    ensures IsRoot(m.sqrt(p), p)
  {
  }

  lemma RootsBound(d: real, p: real, q: real, r: real, n: real, k: real)
    requires WithinRoots(d, p, r) && r <= q && p >= 0.0
    requires IsRoot(n, p) && IsRoot(k, q)
    ensures d <= Times(n, k)
  {
    ScalesOrder(r, q, p);
    ProductIsNonnegative(n, k);
    SquareOfProduct(n, k);
    SquaresOrder(d, n * k);
  }

  lemma SquareOfProduct(n: real, k: real)
    ensures (n * k) * (n * k) == (n * n) * (k * k)
  {
  }

  lemma QuotientInUnit(d: real, e: real)
    requires 0.0 <= d <= e && e > 0.0
    ensures 0.0 <= d / e <= 1.0
  {
  }

  // ---------- the sort ----------

  datatype Ranked = Ranked(id: string, sim: real)

  predicate Descending(s: seq<Ranked>) {
    forall i, j | 0 <= i < j < |s| :: s[i].sim >= s[j].sim
  }

  /** The entries of similarity `v`, in order. */
  function Ties(s: seq<Ranked>, v: real): seq<Ranked> {
    if s == [] then [] else Ties(s[..|s| - 1], v) + if s[|s| - 1].sim == v then [s[|s| - 1]] else []
  }

  /** `e` goes behind every entry at least as similar. */
  function Insert(s: seq<Ranked>, e: Ranked): seq<Ranked> {
    if s == [] || s[|s| - 1].sim >= e.sim then s + [e] else Insert(s[..|s| - 1], e) + [s[|s| - 1]]
  }

  /** `out.sort((a, b) => b.sim - a.sim)`, which keeps ties in order. */
  function SortDescending(s: seq<Ranked>): seq<Ranked> {
    if s == [] then [] else Insert(SortDescending(s[..|s| - 1]), s[|s| - 1])
  }

  lemma {:induction false} TiesAppend(s: seq<Ranked>, e: Ranked, v: real)
    ensures Ties(s + [e], v) == Ties(s, v) + if e.sim == v then [e] else []
  {
    assert (s + [e])[..|s|] == s;
  }

  lemma {:induction false} TiesAbove(s: seq<Ranked>, v: real)
    requires forall k | 0 <= k < |s| :: s[k].sim != v
    ensures Ties(s, v) == []
  {
    if s != [] {
      TiesAbove(s[..|s| - 1], v);
    }
  }

  lemma {:induction false} InsertPermutes(s: seq<Ranked>, e: Ranked)
    ensures multiset(Insert(s, e)) == multiset(s) + multiset{e}
  {
    if s != [] && s[|s| - 1].sim < e.sim {
      InsertPermutes(s[..|s| - 1], e);
      assert s == s[..|s| - 1] + [s[|s| - 1]];
    }
  }

  lemma {:induction false} InsertSorts(s: seq<Ranked>, e: Ranked)
    requires Descending(s)
    ensures Descending(Insert(s, e))
  {
    if s != [] && s[|s| - 1].sim < e.sim {
      var front, last := s[..|s| - 1], s[|s| - 1];
      InsertSorts(front, e);
      InsertPermutes(front, e);
      var r := Insert(front, e);
      forall k | 0 <= k < |r|
        ensures r[k].sim >= last.sim
      {
        assert r[k] in multiset(r);
        assert r[k] in multiset(front) || r[k] == e;
        assert r[k] in front || r[k] == e;
      }
    }
  }

  lemma {:induction false} InsertKeepsTies(s: seq<Ranked>, e: Ranked, v: real)
    requires Descending(s)
    ensures Ties(Insert(s, e), v) == Ties(s, v) + if e.sim == v then [e] else []
  {
    if s == [] || s[|s| - 1].sim >= e.sim {
      TiesAppend(s, e, v);
    } else {
      var front, last := s[..|s| - 1], s[|s| - 1];
      assert s == front + [last];
      InsertKeepsTies(front, e, v);
      TiesAppend(Insert(front, e), last, v);
      TiesAppend(front, last, v);
    }
  }

  /** The ranking is a permutation, most similar first, ties in index order. */
  lemma {:induction false} SortIsStable(s: seq<Ranked>)
    ensures Descending(SortDescending(s))
    ensures multiset(SortDescending(s)) == multiset(s)
    ensures forall v: real :: Ties(SortDescending(s), v) == Ties(s, v)
  {
    if s != [] {
      var front, last := s[..|s| - 1], s[|s| - 1];
      assert s == front + [last];
      SortIsStable(front);
      InsertSorts(SortDescending(front), last);
      InsertPermutes(SortDescending(front), last);
      forall v: real
        ensures Ties(SortDescending(s), v) == Ties(s, v)
      {
        InsertKeepsTies(SortDescending(front), last, v);
        TiesAppend(front, last, v);
      }
    }
  }
}
