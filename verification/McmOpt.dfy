/** Matrix chain multiplication, `src/algorithm/mcm_opt.c`: the best order of multiplication by
    dynamic programming, with costs as 64-bit machine integers. */
module McmOpt {

  const INT_MAX: int := 0x7fff_ffff
  const SIZE_LIMIT: int := 0x1_0000_0000_0000_0000

  // ----- Parenthesizations -----

  /** A way to multiply a chain: one matrix, or the product of two shorter chains. */
  datatype Paren = One(i: nat) | Mul(l: Paren, r: Paren)

  function First(t: Paren): nat { if t.One? then t.i else First(t.l) }
  function Last(t: Paren): nat { if t.One? then t.i else Last(t.r) }

  predicate Proper(t: Paren) {
    t.Mul? ==> Proper(t.l) && Proper(t.r) && Last(t.l) + 1 == First(t.r)
  }

  predicate Spans(t: Paren, i: nat, j: nat) {
    Proper(t) && First(t) == i && Last(t) == j
  }

  lemma {:induction false} SpanOrder(t: Paren)
    requires Proper(t)
    ensures First(t) <= Last(t)
  {
    if t.Mul? {
      SpanOrder(t.l);
      SpanOrder(t.r);
    }
  }

  datatype Shape = Shape(rows: nat, cols: nat)

  /** Matrix `i` has `p[i - 1]` rows and `p[i]` columns; a product has the rows of its left operand
      and the columns of its right one. */
  function ShapeOf(p: seq<nat>, t: Paren): Shape
    requires Proper(t) && 1 <= First(t) && Last(t) < |p|
  {
    match t
    case One(i) => Shape(p[i - 1], p[i])
    case Mul(l, r) =>
      SpanOrder(l);
      SpanOrder(r);
      Shape(ShapeOf(p, l).rows, ShapeOf(p, r).cols)
  }

  /** The scalar multiplications of the plain product: one for each row of the left operand, column of
      the right one, and place in between. */
  function Triples(a: Shape, b: Shape): set<(nat, nat, nat)> { Box(a.rows, a.cols, b.cols) }

  function Box(n: nat, m: nat, k: nat): set<(nat, nat, nat)> {
    set x: nat, y: nat, z: nat | x < n && y < m && z < k :: (x, y, z)
  }

  /** Scalar multiplications of a parenthesization. */
  function Cost(p: seq<nat>, t: Paren): nat
    requires Proper(t) && 1 <= First(t) && Last(t) < |p|
  {
    if t.One? then 0
    else
      SpanOrder(t.l);
      SpanOrder(t.r);
      Cost(p, t.l) + Cost(p, t.r) + |Triples(ShapeOf(p, t.l), ShapeOf(p, t.r))|
  }

  /** The product of chains `i..q` and `q + 1..j`. */
  function Product(p: seq<nat>, i: nat, q: nat, j: nat): nat
    requires 1 <= i <= q < j < |p|
  {
    p[i - 1] * p[q] * p[j]
  }

  /** The part of a box with its first place fixed, and with its first two. */
  function Layer(x: nat, m: nat, k: nat): set<(nat, nat, nat)> {
    set y: nat, z: nat {:trigger (x, y, z)} | y < m && z < k :: (x, y, z)
  }

  function Line(x: nat, y: nat, k: nat): set<(nat, nat, nat)> {
    set z: nat {:trigger (x, y, z)} | z < k :: (x, y, z)
  }

  lemma InBox(n: nat, m: nat, k: nat)
    ensures forall t :: t in Box(n, m, k) <==> t.0 < n && t.1 < m && t.2 < k
  {
    forall t: (nat, nat, nat) ensures t in Box(n, m, k) <==> t.0 < n && t.1 < m && t.2 < k {
      assert t == (t.0, t.1, t.2);
    }
  }

  lemma InLayer(x: nat, m: nat, k: nat)
    ensures forall t :: t in Layer(x, m, k) <==> t.0 == x && t.1 < m && t.2 < k
  {
    forall t: (nat, nat, nat) ensures t in Layer(x, m, k) <==> t.0 == x && t.1 < m && t.2 < k {
      assert t == (t.0, t.1, t.2);
      assert t.0 == x ==> t == (x, t.1, t.2);
    }
  }

  lemma InLine(x: nat, y: nat, k: nat)
    ensures forall t :: t in Line(x, y, k) <==> t.0 == x && t.1 == y && t.2 < k
  {
    forall t: (nat, nat, nat) ensures t in Line(x, y, k) <==> t.0 == x && t.1 == y && t.2 < k {
      assert t == (t.0, t.1, t.2);
      assert t.0 == x && t.1 == y ==> t == (x, y, t.2);
    }
  }

  lemma {:induction false} LineSize(x: nat, y: nat, k: nat)
    ensures |Line(x, y, k)| == k
  {
    hide Line;
    InLine(x, y, k);
    if k == 0 {
      assert Line(x, y, k) == {};
    } else {
      InLine(x, y, k - 1);
      LineSize(x, y, k - 1);
      assert Line(x, y, k) == Line(x, y, k - 1) + {(x, y, k - 1)};
    }
  }

  lemma {:induction false} LayerSize(x: nat, m: nat, k: nat)
    ensures |Layer(x, m, k)| == m * k
  {
    hide Layer, Line;
    InLayer(x, m, k);
    if m == 0 {
      assert Layer(x, m, k) == {};
    } else {
      var rest, line := Layer(x, m - 1, k), Line(x, m - 1, k);
      InLayer(x, m - 1, k);
      InLine(x, m - 1, k);
      LayerSize(x, m - 1, k);
      LineSize(x, m - 1, k);
      assert Layer(x, m, k) == rest + line && rest * line == {};
      OneMoreLine(m, k);
    }
  }

  lemma OneMoreLine(m: nat, k: nat)
    requires m > 0
    ensures (m - 1) * k + k == m * k
  {
  }

  lemma {:induction false} BoxSize(n: nat, m: nat, k: nat)
    ensures |Box(n, m, k)| == n * m * k
  {
    hide Box, Layer;
    InBox(n, m, k);
    if n == 0 {
      assert Box(n, m, k) == {};
    } else {
      var rest, layer := Box(n - 1, m, k), Layer(n - 1, m, k);
      InBox(n - 1, m, k);
      InLayer(n - 1, m, k);
      BoxSize(n - 1, m, k);
      LayerSize(n - 1, m, k);
      assert Box(n, m, k) == rest + layer && rest * layer == {};
      OneMoreLayer(n, m, k);
    }
  }

  lemma OneMoreLayer(n: nat, m: nat, k: nat)
    requires n > 0
    ensures (n - 1) * m * k + m * k == n * m * k
  {
  }

  /** The shapes fit, and are those of the chain. */
  lemma {:induction false} ShapesFit(p: seq<nat>, t: Paren)
    requires Proper(t) && 1 <= First(t) && Last(t) < |p|
    ensures First(t) <= Last(t) && ShapeOf(p, t) == Shape(p[First(t) - 1], p[Last(t)])
    ensures t.Mul? ==>
      First(t) <= Last(t.l) < Last(t) && ShapeOf(p, t.l).cols == ShapeOf(p, t.r).rows
  {
    if t.Mul? {
      SpanOrder(t.l);
      SpanOrder(t.r);
      ShapesFit(p, t.l);
      ShapesFit(p, t.r);
    }
  }

  lemma LoneCost(p: seq<nat>, i: nat)
    requires 1 <= i < |p|
    ensures Cost(p, One(i)) == 0
  {
  }

  /** So a product of chains takes as many scalar multiplications as its three dimensions multiply to. */
  lemma CostMul(p: seq<nat>, t: Paren)
    requires Proper(t) && 1 <= First(t) && Last(t) < |p| && t.Mul?
    ensures First(t) <= Last(t.l) < Last(t) && 1 <= First(t.r)
    ensures Cost(p, t) == Cost(p, t.l) + Cost(p, t.r) + Product(p, First(t), Last(t.l), Last(t))
  {
    SpanOrder(t.l);
    SpanOrder(t.r);
    ShapesFit(p, t);
    ShapesFit(p, t.l);
    ShapesFit(p, t.r);
    BoxSize(p[First(t) - 1], p[Last(t.l)], p[Last(t)]);
  }

  /** The least cost of chain `i..j`, and the least over splits before `hi`. */
  function Opt(p: seq<nat>, i: nat, j: nat): nat
    requires 1 <= i <= j < |p|
    decreases j - i, j + 1
  {
    if i == j then 0 else OptBelow(p, i, j, j)
  }

  function Split(p: seq<nat>, i: nat, q: nat, j: nat): nat
    requires 1 <= i <= q < j < |p|
    decreases j - i, 0
  {
    Opt(p, i, q) + Opt(p, q + 1, j) + Product(p, i, q, j)
  }

  function OptBelow(p: seq<nat>, i: nat, j: nat, hi: nat): nat
    requires 1 <= i < hi <= j < |p|
    decreases j - i, hi
  {
    var last := Split(p, i, hi - 1, j);
    if hi == i + 1 then last else Min(OptBelow(p, i, j, hi - 1), last)
  }

  function Min(a: int, b: int): int { if a <= b then a else b }

  lemma {:induction false} OptBelowLeast(p: seq<nat>, i: nat, j: nat, hi: nat, q: nat)
    requires 1 <= i <= q < hi <= j < |p|
    ensures OptBelow(p, i, j, hi) <= Split(p, i, q, j)
  {
    if hi > q + 1 { OptBelowLeast(p, i, j, hi - 1, q); }
  }

  lemma {:induction false} OptBelowReached(p: seq<nat>, i: nat, j: nat, hi: nat) returns (q: nat)
    requires 1 <= i < hi <= j < |p|
    ensures i <= q < hi && OptBelow(p, i, j, hi) == Split(p, i, q, j)
  {
    q := hi - 1;
    if hi > i + 1 && OptBelow(p, i, j, hi) != Split(p, i, q, j) {
      q := OptBelowReached(p, i, j, hi - 1);
    }
  }

  /** No parenthesization costs less... */
  lemma {:induction false} OptLeast(p: seq<nat>, t: Paren, i: nat, j: nat)
    requires 1 <= i && j < |p| && Spans(t, i, j)
    ensures i <= j && Opt(p, i, j) <= Cost(p, t)
    decreases t
  {
    hide Triples;
    SpanOrder(t);
    if t.Mul? {
      var q := Last(t.l);
      SpanOrder(t.l);
      SpanOrder(t.r);
      OptLeast(p, t.l, i, q);
      OptLeast(p, t.r, q + 1, j);
      CostMul(p, t);
      OptBelowLeast(p, i, j, j, q);
    }
  }

  /** ...and some parenthesization costs just that. */
  lemma {:induction false} OptReached(p: seq<nat>, i: nat, j: nat) returns (t: Paren)
    requires 1 <= i <= j < |p|
    ensures Spans(t, i, j) && Cost(p, t) == Opt(p, i, j)
    decreases j - i
  {
    if i == j {
      t := One(i);
    } else {
      var q := OptBelowReached(p, i, j, j);
      var l := OptReached(p, i, q);
      var r := OptReached(p, q + 1, j);
      t := Mul(l, r);
      CostMul(p, t);
    }
  }

  // ----- What the program computes -----

  /** No product of three dimensions, with two capped costs added, exceeds the machine's integers. */
  ghost predicate NoWrap(p: seq<nat>) {
    forall i, q, j :: 1 <= i <= q < j < |p| ==> Product(p, i, q, j) + 2 * INT_MAX < SIZE_LIMIT
  }

  /** Costs above the initial value are never stored. */
  function Capped(x: int): int { Min(x, INT_MAX) }

  /** The capped least cost is a lower bound, and reached unless it was capped. */
  lemma CappedCost(p: seq<nat>, n: nat)
    requires 1 <= n < |p|
    ensures forall t :: Spans(t, 1, n) ==> Capped(Opt(p, 1, n)) <= Cost(p, t)
    ensures (exists t :: Spans(t, 1, n) && Cost(p, t) == Capped(Opt(p, 1, n))) <==> Opt(p, 1, n) <= INT_MAX
  {
    forall t | Spans(t, 1, n) ensures Opt(p, 1, n) <= Cost(p, t) {
      OptLeast(p, t, 1, n);
    }
    var best := OptReached(p, 1, n);
  }

  /** A split whose parts may be capped costs the same, or is too expensive anyway. */
  lemma CappedSplit(p: seq<nat>, i: nat, q: nat, j: nat)
    requires 1 <= i <= q < j < |p|
    ensures Capped(Capped(Opt(p, i, q)) + Capped(Opt(p, q + 1, j)) + Product(p, i, q, j)) == Capped(Split(p, i, q, j))
  {
  }

  lemma Unreduced(x: nat)
    requires x < SIZE_LIMIT
    ensures x % SIZE_LIMIT == x
  {
  }

  class Optimizer {
    const matrices: seq<nat>
    const results: array2<nat>
    const route: array2<nat>
    var minMults: nat

    ghost predicate Valid() {
      && |matrices| >= 2 && results != route
      && results.Length0 == results.Length1 == route.Length0 == route.Length1 == |matrices|
    }

    constructor (matrices: seq<nat>)
      requires |matrices| >= 2
      ensures Valid() && this.matrices == matrices && fresh(results) && fresh(route)
      ensures forall i, j :: 0 <= i < |matrices| && 0 <= j < |matrices| ==> results[i, j] == 0 && route[i, j] == 0
    {
      this.matrices := matrices;
      results := new nat[|matrices|, |matrices|]((i, j) => 0);
      route := new nat[|matrices|, |matrices|]((i, j) => 0);
      minMults := 0;
    }

    /** The entries of chain `j..k` are final: the route leads to a best split unless the cost was
        capped, and is untouched then. */
    ghost predicate Done(j: nat, k: nat)
      requires Valid() && 1 <= j <= k < |matrices|
      reads results, route
    {
      && results[j, k] == Capped(Opt(matrices, j, k))
      && (j < k ==> RouteOk(j, k, Opt(matrices, j, k)))
    }

    ghost predicate RouteOk(j: nat, k: nat, best: int)
      requires Valid() && 1 <= j < k < |matrices|
      reads route
    {
      var q := route[j, k];
      if best < INT_MAX then j <= q < k && best == Split(matrices, j, q, k) else q == 0
    }

    /** Chains of fewer than `len` matrices are done, and of exactly `len` those before `start`;
        the route of any other is still untouched. */
    ghost predicate Progress(len: nat, start: nat)
      requires Valid()
      reads results, route
    {
      forall j, k :: 1 <= j <= k < |matrices| ==>
        if k - j + 1 < len || (k - j + 1 == len && j < start) then Done(j, k) else route[j, k] == 0
    }

    /** The cost of splitting chain `j..k` after matrix `q`, as the machine adds and multiplies. */
    method SplitCost(j: nat, q: nat, k: nat) returns (num: nat)
      requires Valid() && 1 <= j <= q < k < |matrices| && Done(j, q) && Done(q + 1, k) && NoWrap(matrices)
      ensures Capped(num) == Capped(Split(matrices, j, q, k))
    {
      hide Product, Split, Opt;
      num := (results[j, q] + results[q + 1, k] + ChainProduct(j, q, k)) % SIZE_LIMIT;
      assert Product(matrices, j, q, k) + 2 * INT_MAX < SIZE_LIMIT;
      Unreduced(results[j, q] + results[q + 1, k] + Product(matrices, j, q, k));
      CappedSplit(matrices, j, q, k);
    }

    function ChainProduct(j: nat, q: nat, k: nat): (r: nat)
      requires 1 <= j <= q < k < |matrices|
      ensures r == Product(matrices, j, q, k)
    {
      matrices[j - 1] * matrices[q] * matrices[k]
    }

    /** The innermost loop. */
    method BestSplit(j: nat, k: nat)
      requires Valid() && 1 <= j < k < |matrices| && NoWrap(matrices) && route[j, k] == 0
      requires Progress(k - j + 1, j)
      modifies results, route
      ensures Progress(k - j + 1, j + 1)
      ensures forall a, b :: 0 <= a < |matrices| && 0 <= b < |matrices| && (a, b) != (j, k) ==>
        results[a, b] == old(results[a, b]) && route[a, b] == old(route[a, b])
    {
      results[j, k] := INT_MAX;
      var q := j;
      while q <= k - 1
        invariant j <= q <= k
        invariant q == j ==> results[j, k] == INT_MAX && route[j, k] == 0
        invariant q > j ==>
          results[j, k] == Capped(OptBelow(matrices, j, k, q)) && RouteOk(j, k, OptBelow(matrices, j, k, q))
        invariant forall a, b :: 0 <= a < |matrices| && 0 <= b < |matrices| && (a, b) != (j, k) ==>
          results[a, b] == old(results[a, b]) && route[a, b] == old(route[a, b])
      {
        assert old(Done(j, q)) && old(Done(q + 1, k));
        assert Done(j, q) && Done(q + 1, k);
        var num := SplitCost(j, q, k);
        if num < results[j, k] {
          results[j, k] := num;
          route[j, k] := q;
        }
        q := q + 1;
      }
    }

    /** `mcm_opt_optimize`. */
    method Optimize()
      requires Valid() && NoWrap(matrices)
      requires forall i, j :: 0 <= i < |matrices| && 0 <= j < |matrices| ==> route[i, j] == 0
      modifies this`minMults, results, route
      ensures Progress(|matrices|, 0) && minMults == Capped(Opt(matrices, 1, |matrices| - 1))
      ensures forall t :: Spans(t, 1, |matrices| - 1) ==> minMults <= Cost(matrices, t)
      ensures (exists t :: Spans(t, 1, |matrices| - 1) && Cost(matrices, t) == minMults)
        <==> Opt(matrices, 1, |matrices| - 1) <= INT_MAX
    {
      var n := |matrices| - 1;
      var i := 1;
      while i < |matrices|
        invariant 1 <= i <= |matrices|
        invariant forall j :: 1 <= j < i ==> results[j, j] == 0
        invariant forall j, k :: 0 <= j < |matrices| && 0 <= k < |matrices| ==> route[j, k] == 0
      {
        results[i, i] := 0;
        i := i + 1;
      }
      i := 2;
      while i <= n
        invariant 2 <= i <= n + 1 && Progress(i, 0)
      {
        var j := 1;
        while j <= n - i + 1
          invariant 1 <= j <= n - i + 2 && Progress(i, j)
        {
          BestSplit(j, j + i - 1);
          j := j + 1;
        }
        i := i + 1;
      }
      assert Done(1, n);
      minMults := results[1, n];
      CappedCost(matrices, n);
    }

    /** Following the route from chain `i..j` always splits it. */
    ghost predicate Routed(i: nat, j: nat)
      requires Valid() && 1 <= i <= j < |matrices|
      reads route
      decreases j - i
    {
      i == j || (i <= route[i, j] < j && Routed(i, route[i, j]) && Routed(route[i, j] + 1, j))
    }

    ghost function TreeAt(i: nat, j: nat): Paren
      requires Valid() && 1 <= i <= j < |matrices| && Routed(i, j)
      reads route
      decreases j - i
    {
      if i == j then One(i) else Mul(TreeAt(i, route[i, j]), TreeAt(route[i, j] + 1, j))
    }

    /** The recorded route reconstructs a parenthesization of least cost, exactly when that cost is
        below the initial value. */
    lemma {:induction false} RouteIsBest(i: nat, j: nat)
      requires Valid() && 1 <= i <= j < |matrices| && Progress(|matrices|, 0)
      ensures Routed(i, j) <==> i == j || Opt(matrices, i, j) < INT_MAX
      ensures Routed(i, j) ==> Spans(TreeAt(i, j), i, j) && Cost(matrices, TreeAt(i, j)) == Opt(matrices, i, j)
      decreases j - i
    {
      hide Cost, Triples, ShapeOf;
      assert Done(i, j);
      LoneCost(matrices, i);
      if i < j && Opt(matrices, i, j) < INT_MAX {
        var q := route[i, j];
        RouteIsBest(i, q);
        RouteIsBest(q + 1, j);
        CostMul(matrices, TreeAt(i, j));
      }
    }

    /** What one call reports, by what the two calls it makes report. */
    lemma ReportSplit(i: nat, j: nat)
      requires Valid() && 1 <= i < j < |matrices| && Routed(i, j)
      ensures var k := route[i, j];
        && i <= k < j && Routed(i, k) && Routed(k + 1, j)
        && Reported(TreeAt(i, j)) == Reported(TreeAt(i, k)) + Reported(TreeAt(k + 1, j))
          + (if i == k then [k] else []) + (if k + 1 == j then [k + 1] else [])
    {
    }

    lemma ReportNone(i: nat)
      requires Valid() && 1 <= i < |matrices|
      ensures Routed(i, i) && Reported(TreeAt(i, i)) == []
    {
    }

    /** `mcm_opt_report_parens`. */
    method ReportParens(i: nat, j: nat, ordering: array<nat>, count: nat) returns (count': nat)
      requires Valid() && 1 <= i <= j < |matrices| && Routed(i, j)
      requires count + (if i < j then j - i + 1 else 0) <= ordering.Length
      modifies ordering
      ensures count' == count + |Reported(TreeAt(i, j))| && count' == count + (if i < j then j - i + 1 else 0)
      ensures ordering[..count'] == old(ordering[..count]) + Reported(TreeAt(i, j))
      decreases j - i
    {
      hide Routed, Reported, TreeAt;
      count' := count;
      if i == j {
        ReportNone(i);
        return;
      }
      var k := route[i, j];
      ReportSplit(i, j);
      count' := ReportParens(i, k, ordering, count');
      count' := ReportParens(k + 1, j, ordering, count');
      if i == k {
        ordering[count'] := k;
        count' := count' + 1;
      }
      if k + 1 == j {
        ordering[count'] := k + 1;
        count' := count' + 1;
      }
    }

    /** `mcm_opt_report` after `mcm_opt_optimize`: for two matrices or more, every one is reported
        exactly once, if the best cost was recorded. */
    method Report(ordering: array<nat>)
      requires Valid() && Progress(|matrices|, 0) && ordering.Length == |matrices| - 1 >= 2
      requires Opt(matrices, 1, |matrices| - 1) < INT_MAX
      modifies ordering
      ensures Routed(1, |matrices| - 1) && ordering[..] == Reported(TreeAt(1, |matrices| - 1))
      ensures forall x: nat :: multiset(ordering[..])[x] == if 1 <= x < |matrices| then 1 else 0
    {
      hide Progress, Reported, Opt, Spans, TreeAt, Routed;
      var n := |matrices| - 1;
      RouteIsBest(1, n);
      EachOnce(1, n);
      var count := ReportParens(1, n, ordering, 0);
      assert ordering[..0] == [] && ordering[..count] == ordering[..];
    }

    lemma EachOnce(i: nat, j: nat)
      requires Valid() && 1 <= i < j < |matrices| && Routed(i, j) && Spans(TreeAt(i, j), i, j)
      ensures forall x: nat :: multiset(Reported(TreeAt(i, j)))[x] == if i <= x <= j then 1 else 0
    {
      forall x: nat ensures multiset(Reported(TreeAt(i, j)))[x] == if i <= x <= j then 1 else 0 {
        ReportedOnce(TreeAt(i, j), x);
      }
    }
  }

  /** The order in which the report writes the matrices of a product: single factors after the
      products they are multiplied with. */
  function Reported(t: Paren): seq<nat> {
    if t.One? then []
    else Reported(t.l) + Reported(t.r) + (if t.l.One? then [t.l.i] else []) + (if t.r.One? then [t.r.i] else [])
  }

  /** The products in the order they can be computed: operands first, left before right. */
  function Products(t: Paren): seq<Paren> {
    if t.One? then [] else Products(t.l) + Products(t.r) + [t]
  }

  /** The operands of a product that are single matrices, and those of several products. */
  function Singles(t: Paren): seq<nat> {
    if t.One? then [] else (if t.l.One? then [t.l.i] else []) + (if t.r.One? then [t.r.i] else [])
  }

  function Operands(ms: seq<Paren>): seq<nat> {
    if ms == [] then [] else Singles(ms[0]) + Operands(ms[1..])
  }

  lemma OperandsNext(ms: seq<Paren>)
    ensures ms == [] ==> Operands(ms) == []
    ensures ms != [] ==> Operands(ms) == Singles(ms[0]) + Operands(ms[1..])
  {
  }

  lemma {:induction false} OperandsConcat(a: seq<Paren>, b: seq<Paren>)
    ensures Operands(a + b) == Operands(a) + Operands(b)
  {
    hide Singles, Operands;
    OperandsNext(a);
    if a == [] {
      assert a + b == b;
    } else {
      OperandsNext(a + b);
      OperandsConcat(a[1..], b);
      assert (a + b)[0] == a[0] && (a + b)[1..] == a[1..] + b;
    }
  }

  /** Matrices are reported as the products that use them are computed. */
  lemma {:induction false} ReportedAsComputed(t: Paren)
    ensures Reported(t) == Operands(Products(t))
  {
    if t.Mul? {
      ReportedAsComputed(t.l);
      ReportedAsComputed(t.r);
      OperandsConcat(Products(t.l), Products(t.r));
      OperandsConcat(Products(t.l) + Products(t.r), [t]);
    }
  }

  lemma {:induction false} ReportedOnce(t: Paren, x: nat)
    requires Proper(t)
    ensures multiset(Reported(t))[x] == if t.Mul? && First(t) <= x <= Last(t) then 1 else 0
  {
    if t.Mul? {
      SpanOrder(t.l);
      SpanOrder(t.r);
      ReportedOnce(t.l, x);
      ReportedOnce(t.r, x);
    }
  }
}
