/** The OpenMP radix sorter of `src/multithread/omp_radix_sort.c`. The threads of a parallel loop
    take their steps in any order: each turn of such a loop here picks any unfinished thread. */
module RadixSort {
  import opened Rbuffer
  import opened RadixOrder
  import opened RadixBins
  import S = Stable
  import T = Threads

  const INT_MAX: int := 0x7fff_ffff

  /** How far thread-local counters are from their end. */
  function Left(end: nat): nat -> nat {
    (x: nat) => if x < end then end - x else 0
  }

  function Count(): nat -> nat {
    (x: nat) => x
  }

  class Sorter {
    const base: nat
    const nThreads: nat
    const chunk: nat
    const data: array<nat>
    /** One row for each thread, one column for each symbol. */
    const bins: array2<seq<nat>>
    const sums: array2<nat>

    ghost predicate Valid() {
      && base > 0 && nThreads > 0 && chunk > 0 && data.Length == RadixBins.Start(nThreads, chunk)
      && bins.Length0 == sums.Length0 == nThreads && bins.Length1 == sums.Length1 == base
    }

    /** The number of elements is a multiple of the number of threads. */
    constructor (elements: seq<nat>, base: nat, nThreads: nat)
      requires base > 0 && 0 < nThreads <= |elements| && |elements| % nThreads == 0
      ensures Valid() && data[..] == elements && this.base == base && this.nThreads == nThreads
      ensures fresh(data) && fresh(bins) && fresh(sums)
    {
      this.base, this.nThreads, chunk := base, nThreads, |elements| / nThreads;
      data := new nat[|elements|](i requires 0 <= i < |elements| => elements[i]);
      bins := new seq<nat>[nThreads, base];
      sums := new nat[nThreads, base];
      new;
      Divides(|elements|, nThreads);
    }

    /** The bins as values. */
    ghost function Bins(): (b: seq<seq<seq<nat>>>)
      requires Valid()
      reads bins
      ensures |b| == nThreads && Rect(b, base)
      ensures forall i, j :: 0 <= i < nThreads && 0 <= j < base ==> b[i][j] == bins[i, j]
    {
      seq(nThreads, i requires 0 <= i < nThreads reads bins =>
        seq(base, j requires 0 <= j < base reads bins => bins[i, j]))
    }

    /** Each thread flushes its own bins. */
    method Flush()
      requires Valid()
      modifies bins
      ensures forall i, j :: 0 <= i < nThreads && 0 <= j < base ==> bins[i, j] == []
    {
      forall i, j | 0 <= i < nThreads && 0 <= j < base {
        bins[i, j] := [];
      }
    }

    /** The elements thread `t` has put into its bins. */
    ghost predicate Distributed(exp: nat, t: nat, p: nat)
      requires Valid() && exp > 0 && t < nThreads && p <= chunk
      reads data, bins
    {
      RadixBins.Start(t, chunk) + p <= data.Length
      && forall j :: 0 <= j < base ==>
        bins[t, j] == Select(data[RadixBins.Start(t, chunk)..RadixBins.Start(t, chunk) + p], exp, base, j)
    }

    /** One turn of the loop over the elements, taken by the thread whose part it is. */
    method AddNext(exp: nat, t: nat, p: nat)
      requires Valid() && exp > 0 && t < nThreads && p < chunk && Distributed(exp, t, p)
      modifies bins
      ensures Distributed(exp, t, p + 1)
      ensures forall u, q :: 0 <= u < nThreads && u != t && 0 <= q <= chunk && old(Distributed(exp, u, q)) ==>
        Distributed(exp, u, q)
    {
      ghost var start := RadixBins.Start(t, chunk);
      PartFits(t, nThreads, chunk);
      OwnRow(t, p, chunk);
      var i := t * chunk + p;
      var row, col := i / chunk, Digit(data[i], exp, base);
      ghost var part := data[start..start + p];
      assert data[start..start + (p + 1)] == part + [data[i]];
      SelectConcat(part, [data[i]], exp, base, col);
      forall j | 0 <= j < base
        ensures Select(part + [data[i]], exp, base, j)
          == Select(part, exp, base, j) + if j == col then [data[i]] else []
      {
        SelectConcat(part, [data[i]], exp, base, j);
        SelectOne(data[i], exp, base, j);
      }
      SelectShort(part, exp, base, col);
      var (ok, bin) := FifoAdd(bins[row, col], chunk, data[i]);
      assert ok;
      bins[row, col] := bin;
    }

    /** Some thread that is not done with its part. */
    predicate Running(pos: seq<nat>)
      requires |pos| == nThreads
    {
      exists t :: 0 <= t < nThreads && pos[t] < chunk
    }

    /** The elements go into the bins, the threads running in any order. */
    method Distribute(exp: nat)
      requires Valid() && exp > 0
      modifies bins
      ensures Filled(Bins(), data[..], chunk, exp, base)
    {
      hide Filled, Select, Distributed, RadixBins.Start;
      Flush();
      NothingDistributed(exp);
      var pos: seq<nat> := seq(nThreads, i => 0);
      while Running(pos)
        invariant |pos| == nThreads
        invariant forall t :: 0 <= t < nThreads ==> pos[t] <= chunk && Distributed(exp, t, pos[t])
        decreases T.Total(pos, Left(chunk))
      {
        var t :| 0 <= t < nThreads && pos[t] < chunk;
        T.TotalStep<nat>(pos, t, pos[t] + 1, Left(chunk));
        AddNext(exp, t, pos[t]);
        pos := pos[t := pos[t] + 1];
      }
      AllDistributed(exp, pos);
    }

    lemma NothingDistributed(exp: nat)
      requires Valid() && exp > 0 && forall i, j :: 0 <= i < nThreads && 0 <= j < base ==> bins[i, j] == []
      ensures forall t :: 0 <= t < nThreads ==> Distributed(exp, t, 0)
    {
      forall t | 0 <= t < nThreads ensures Distributed(exp, t, 0) {
        PartFits(t, nThreads, chunk);
      }
    }

    lemma AllDistributed(exp: nat, pos: seq<nat>)
      requires Valid() && exp > 0 && |pos| == nThreads && !Running(pos)
      requires forall t :: 0 <= t < nThreads ==> pos[t] <= chunk && Distributed(exp, t, pos[t])
      ensures Filled(Bins(), data[..], chunk, exp, base)
    {
      var b := Bins();
      forall i, j | 0 <= i < |b| && 0 <= j < base
        ensures RadixBins.Start(i, chunk) + chunk <= data.Length
        ensures b[i][j] == Select(Chunk(data[..], chunk, i), exp, base, j)
      {
        assert pos[i] == chunk && Distributed(exp, i, chunk);
        PartFits(i, nThreads, chunk);
        assert Chunk(data[..], chunk, i) == data[RadixBins.Start(i, chunk)..RadixBins.Start(i, chunk) + chunk];
      }
    }

    /** The prefix sums are right for all bins before bin `j` of thread `i`. */
    ghost predicate Summed(b: seq<seq<seq<nat>>>, i: nat, j: nat)
      requires Valid() && |b| == nThreads && Rect(b, base)
      reads sums
    {
      forall k, l :: 0 <= k < nThreads && 0 <= l < base && Earlier(k, l, i, j) ==> sums[k, l] == |Upto(b, base, k, l)|
    }

    /** One prefix sum from the one before it. */
    method AddSum(i: nat, j: nat, i': nat, j': nat, ghost b: seq<seq<seq<nat>>>)
      requires Valid() && b == Bins() && Summed(b, i, j) && i < nThreads && j < base
      requires if i > 0 then i' == i - 1 && j' == j else j > 0 && i' == nThreads - 1 && j' == j - 1
      modifies sums
      ensures Summed(b, i + 1, j)
    {
      sums[i, j] := sums[i', j'] + |bins[i', j']|;
    }

    lemma NextColumn(b: seq<seq<seq<nat>>>, j: nat)
      requires Valid() && |b| == nThreads && Rect(b, base) && Summed(b, nThreads, j)
      ensures Summed(b, 0, j + 1)
    {
    }

    /** The exclusive prefix sums, first for symbol 0, then for the others. */
    method PrefixSums()
      requires Valid() && sums[0, 0] == 0
      modifies sums
      ensures Summed(Bins(), 0, base)
    {
      ghost var b := Bins();
      var i := 1;
      assert Summed(b, 1, 0);
      while i < nThreads
        invariant 1 <= i <= nThreads && Summed(b, i, 0)
      {
        AddSum(i, 0, i - 1, 0, b);
        i := i + 1;
      }
      NextColumn(b, 0);
      var j := 1;
      while j < base
        invariant 1 <= j <= base && Summed(b, 0, j)
      {
        AddSum(0, j, nThreads - 1, j - 1, b);
        i := 1;
        while i < nThreads
          invariant 1 <= i <= nThreads && Summed(b, i, j)
        {
          AddSum(i, j, i - 1, j, b);
          i := i + 1;
        }
        NextColumn(b, j);
        j := j + 1;
      }
    }

    // ----- Copying the bins back -----

    /** Thread `t` has emptied its bins below `sym`, and taken `cnt` elements from bin `sym`. */
    ghost predicate RowBins(b: seq<seq<seq<nat>>>, t: nat, sym: nat, cnt: nat)
      requires Valid() && |b| == nThreads && Rect(b, base) && t < nThreads
      reads bins
    {
      && sym <= base && (sym < base ==> cnt <= |b[t][sym]| && bins[t, sym] == b[t][sym][cnt..])
      && forall j :: sym < j < base ==> bins[t, j] == b[t][j]
    }

    /** One turn of the inner loops of thread `t`. */
    method CopyNext(t: nat, sym: nat, cnt: nat, ghost b: seq<seq<seq<nat>>>) returns (sym': nat, cnt': nat)
      requires Valid() && |b| == nThreads && Rect(b, base) && t < nThreads && sym < base
      requires RowBins(b, t, sym, cnt) && RowData(b, base, data[..], t, sym, cnt) && Summed(b, 0, base)
      modifies bins, data
      ensures RowBins(b, t, sym', cnt') && RowData(b, base, data[..], t, sym', cnt')
      ensures MoreRight(Whole(b, base), old(data[..]), data[..])
      ensures forall i, j :: 0 <= i < nThreads && 0 <= j < base && i != t ==> bins[i, j] == old(bins[i, j])
      ensures if old(|bins[t, sym]|) == 0 then sym' == sym + 1
              else sym' == sym && |bins[t, sym]| == old(|bins[t, sym]|) - 1
    {
      if bins[t, sym] == [] {
        NextBin(b, base, data[..], t, sym, cnt);
        return sym + 1, 0;
      }
      var (x, rest) := FifoRemove(bins[t, sym]);
      BinAt(b, base, t, sym, cnt);
      assert sums[t, sym] == |Upto(b, base, t, sym)|;
      ghost var was := data[..];
      bins[t, sym] := rest;
      data[sums[t, sym] + cnt] := x.value;
      OneMore(b, base, was, t, sym, cnt);
      return sym, cnt + 1;
    }

    predicate Copying(sym: seq<nat>)
      requires |sym| == nThreads
    {
      exists t :: 0 <= t < nThreads && sym[t] < base
    }

    /** Elements left in the bin each thread is at. */
    ghost predicate Remaining(left: seq<nat>, sym: seq<nat>)
      requires Valid() && |sym| == nThreads
      reads bins
    {
      |left| == nThreads && forall t :: 0 <= t < nThreads && sym[t] < base ==> left[t] == |bins[t, sym[t]]|
    }

    ghost predicate RowsOk(b: seq<seq<seq<nat>>>, sym: seq<nat>, cnt: seq<nat>)
      requires Valid() && |b| == nThreads && Rect(b, base) && |sym| == |cnt| == nThreads
      reads bins, data
    {
      forall t :: 0 <= t < nThreads ==> RowBins(b, t, sym[t], cnt[t]) && RowData(b, base, data[..], t, sym[t], cnt[t])
    }

    /** One turn of some thread. */
    method CopyTurn(t: nat, sym: seq<nat>, cnt: seq<nat>, ghost left: seq<nat>, ghost b: seq<seq<seq<nat>>>)
      returns (sym': seq<nat>, cnt': seq<nat>, ghost left': seq<nat>)
      requires Valid() && |b| == nThreads && Rect(b, base) && t < nThreads && |sym| == |cnt| == nThreads
      requires sym[t] < base
      requires RowsOk(b, sym, cnt) && Remaining(left, sym) && Summed(b, 0, base)
      modifies bins, data
      ensures |sym'| == |cnt'| == nThreads && RowsOk(b, sym', cnt') && Remaining(left', sym')
      ensures T.Total(sym', Left(base)) < T.Total(sym, Left(base))
        || (sym' == sym && T.Total(left', Count()) < T.Total(left, Count()))
    {
      ghost var was := data[..];
      var s, c := CopyNext(t, sym[t], cnt[t], b);
      sym', cnt' := sym[t := s], cnt[t := c];
      left' := left[t := if s < base then |bins[t, s]| else 0];
      T.TotalStep<nat>(sym, t, s, Left(base));
      T.TotalStep<nat>(left, t, left'[t], Count());
      forall u | 0 <= u < nThreads
        ensures RowBins(b, u, sym'[u], cnt'[u]) && RowData(b, base, data[..], u, sym'[u], cnt'[u])
      {
        if u != t {
          assert RowBins(b, u, sym[u], cnt[u]);
          RowKept(b, base, was, data[..], u, sym[u], cnt[u]);
        }
      }
    }

    /** The bins are copied back, the threads running in any order. */
    method Collect()
      requires Valid() && Summed(Bins(), 0, base) && |Whole(Bins(), base)| == data.Length
      modifies bins, data
      ensures data[..] == old(Whole(Bins(), base))
    {
      ghost var b := Bins();
      var sym: seq<nat>, cnt: seq<nat> := seq(nThreads, i => 0), seq(nThreads, i => 0);
      ghost var left: seq<nat> := seq(nThreads, i requires 0 <= i < nThreads => |b[i][0]|);
      while Copying(sym)
        invariant |sym| == |cnt| == nThreads && RowsOk(b, sym, cnt) && Remaining(left, sym)
        decreases T.Total(sym, Left(base)), T.Total(left, Count())
      {
        var t :| 0 <= t < nThreads && sym[t] < base;
        sym, cnt, left := CopyTurn(t, sym, cnt, left, b);
      }
      forall t, j, m | 0 <= t < |b| && 0 <= j < base && 0 <= m < |b[t][j]| ensures Placed(b, base, data[..], t, j, m) {
        assert sym[t] == base && RowData(b, base, data[..], t, sym[t], cnt[t]);
      }
      AllPlaced(b, base, data[..]);
    }

    /** `omp_radix_sorter_step`: whatever the order of the threads, the data is stably sorted by the
        symbol at place value `exp`, and no bin overflows. */
    method Step(exp: nat)
      requires Valid() && exp > 0 && sums[0, 0] == 0
      modifies bins, sums, data
      ensures data[..] == Gathered(old(data[..]), exp, base, base) && sums[0, 0] == 0
      ensures S.StableSort(ByDigit(exp, base), old(data[..]), old(data[..]), data[..])
    {
      ghost var was := data[..];
      Distribute(exp);
      WholeGathered(Bins(), was, chunk, exp, base);
      GatheredStable(was, exp, base);
      PrefixSums();
      Collect();
    }

    /** `alg_arr_largest_num`. */
    method Largest() returns (m: nat)
      ensures forall x :: x in data[..] ==> x <= m
      ensures m == 0 || m in data[..]
    {
      m := 0;
      for i := 0 to data.Length
        invariant forall k :: 0 <= k < i ==> data[k] <= m
        invariant m == 0 || m in data[..]
      {
        if data[i] > m {
          m := data[i];
        }
      }
    }

    /** `omp_radix_sorter_exec`, in a base of at least 2 and while the place value stays an `int`. */
    method Exec()
      requires Valid() && base >= 2
      requires forall x :: x in data[..] ==> x <= INT_MAX && PlacesFit(x, 1, base)
      modifies bins, sums, data
      ensures forall i, j :: 0 <= i < j < data.Length ==> data[i] <= data[j]
      ensures multiset(data[..]) == multiset(old(data[..]))
    {
      hide SortedMod, PlacesFit, Gathered;
      ghost var was := data[..];
      var m := Largest();
      forall i, j | 0 <= i < nThreads && 0 <= j < base {
        sums[i, j] := 0;
      }
      assert data[..] == was;
      var exp := 1;
      Begin(was, m, base);
      while m / exp > 0
        invariant exp > 0 && sums[0, 0] == 0 && PlacesFit(m, exp, base)
        invariant SortedMod(data[..], exp) && multiset(data[..]) == multiset(was)
        decreases m / exp
      {
        NextFits(m, exp, base);
        NextPlace(exp);
        exp := exp * base;
      }
      End(was, data[..], m, exp);
    }

    /** One turn of the loop over the places. */
    method NextPlace(exp: nat)
      requires Valid() && exp > 0 && sums[0, 0] == 0 && SortedMod(data[..], exp)
      modifies bins, sums, data
      ensures exp * base > 0 && SortedMod(data[..], exp * base) && multiset(data[..]) == multiset(old(data[..]))
      ensures sums[0, 0] == 0
    {
      GatheredSortedMod(data[..], exp, base, base);
      GatheredSame(data[..], exp, base);
      Step(exp);
    }
  }

  /** Every place value up to the first above `m` is an `int`. */
  ghost predicate PlacesFit(m: nat, exp: nat, base: nat)
    requires exp > 0 && base >= 2
    decreases m / exp
  {
    FewerPlaces(m, exp, base);
    exp <= INT_MAX && (m / exp > 0 ==> PlacesFit(m, exp * base, base))
  }

  lemma FewerPlaces(m: nat, exp: nat, base: nat)
    requires exp > 0 && base >= 2
    ensures exp * base > 0 && (m / exp > 0 ==> m / (exp * base) < m / exp)
  {
    NextQuotient(m, exp, base);
    SmallerQuotient(m / exp, base);
  }

  lemma NextQuotient(m: nat, exp: nat, base: nat)
    requires exp > 0 && base > 0
    ensures exp * base > 0 && m / (exp * base) == m / exp / base
  {
    var q, r := m / exp, m % exp;
    Places(m, exp, base, q, r, q / base, q % base);
    DivModUnique(m, exp * base, q / base, (q % base) * exp + r);
  }

  lemma SmallerQuotient(q: nat, base: nat)
    requires base >= 2
    ensures q > 0 ==> q / base < q
  {
  }

  lemma NextFits(m: nat, exp: nat, base: nat)
    requires exp > 0 && base >= 2 && PlacesFit(m, exp, base) && m / exp > 0
    ensures exp * base > 0 && PlacesFit(m, exp * base, base) && exp * base <= INT_MAX && m / (exp * base) < m / exp
  {
    FewerPlaces(m, exp, base);
  }

  lemma Begin(s: seq<nat>, m: nat, base: nat)
    requires base >= 2 && (m == 0 || m in s) && forall x :: x in s ==> PlacesFit(x, 1, base)
    ensures SortedMod(s, 1) && PlacesFit(m, 1, base)
  {
    assert 0 / 1 == 0;
  }

  lemma End(was: seq<nat>, s: seq<nat>, m: nat, exp: nat)
    requires exp > 0 && m / exp == 0 && SortedMod(s, exp) && multiset(s) == multiset(was)
      && forall x :: x in was ==> x <= m
    ensures forall i, j :: 0 <= i < j < |s| ==> s[i] <= s[j]
  {
    S.SameMembers(s, was);
    assert m < exp;
    ModAll(s, exp);
  }

  lemma Divides(n: nat, threads: nat)
    requires 0 < threads <= n && n % threads == 0
    ensures n / threads > 0 && n == RadixBins.Start(threads, n / threads)
  {
  }

  lemma PartFits(t: nat, threads: nat, chunk: nat)
    requires t < threads
    ensures RadixBins.Start(t, chunk) + chunk <= RadixBins.Start(threads, chunk)
  {
    ChunkFits(t, threads, chunk);
  }

  /** The row of an element is the thread whose part it is in. */
  lemma OwnRow(t: nat, p: nat, chunk: nat)
    requires p < chunk
    ensures (t * chunk + p) / chunk == t && t * chunk + p == RadixBins.Start(t, chunk) + p
  {
    DivModUnique(t * chunk + p, chunk, t, p);
  }

  // ----- What has been copied -----

  /** Everything thread `t` has taken from its bins is where it belongs. */
  ghost predicate RowData(b: seq<seq<seq<nat>>>, base: nat, d: seq<nat>, t: nat, sym: nat, cnt: nat)
    requires t < |b| && Rect(b, base)
  {
    && |d| == |Whole(b, base)|
    && forall j, m :: 0 <= j < base && 0 <= m < |b[t][j]| && (j < sym || (j == sym && m < cnt)) ==>
      Placed(b, base, d, t, j, m)
  }

  predicate Placed(b: seq<seq<seq<nat>>>, base: nat, d: seq<nat>, t: nat, j: nat, m: nat)
    requires t < |b| && Rect(b, base) && j < base && m < |b[t][j]|
  {
    var p := |Upto(b, base, t, j)| + m;
    p < |d| && p < |Whole(b, base)| && d[p] == Whole(b, base)[p]
  }

  /** What was right stays right. */
  predicate MoreRight(w: seq<nat>, d: seq<nat>, d': seq<nat>) {
    |d| == |d'| == |w| && forall p :: 0 <= p < |w| && d[p] == w[p] ==> d'[p] == w[p]
  }

  lemma RowKept(b: seq<seq<seq<nat>>>, base: nat, d: seq<nat>, d': seq<nat>, t: nat, sym: nat, cnt: nat)
    requires t < |b| && Rect(b, base) && RowData(b, base, d, t, sym, cnt) && MoreRight(Whole(b, base), d, d')
    ensures RowData(b, base, d', t, sym, cnt)
  {
    forall j, m | 0 <= j < base && 0 <= m < |b[t][j]| && (j < sym || (j == sym && m < cnt))
      ensures Placed(b, base, d', t, j, m)
    {
      assert Placed(b, base, d, t, j, m);
    }
  }

  lemma NextBin(b: seq<seq<seq<nat>>>, base: nat, d: seq<nat>, t: nat, sym: nat, cnt: nat)
    requires t < |b| && Rect(b, base) && sym < base && RowData(b, base, d, t, sym, cnt) && |b[t][sym]| <= cnt
    ensures RowData(b, base, d, t, sym + 1, 0)
  {
  }

  lemma RowGrown(b: seq<seq<seq<nat>>>, base: nat, d: seq<nat>, t: nat, sym: nat, cnt: nat)
    requires t < |b| && Rect(b, base) && sym < base && RowData(b, base, d, t, sym, cnt) && cnt < |b[t][sym]|
    requires Placed(b, base, d, t, sym, cnt)
    ensures RowData(b, base, d, t, sym, cnt + 1)
  {
    hide Placed, Upto, Whole, Rect;
  }

  lemma OneMore(b: seq<seq<seq<nat>>>, base: nat, d: seq<nat>, t: nat, sym: nat, cnt: nat)
    requires t < |b| && Rect(b, base) && sym < base && RowData(b, base, d, t, sym, cnt) && cnt < |b[t][sym]|
    requires |Upto(b, base, t, sym)| + cnt < |d|
    ensures var d' := d[|Upto(b, base, t, sym)| + cnt := b[t][sym][cnt]];
      RowData(b, base, d', t, sym, cnt + 1) && MoreRight(Whole(b, base), d, d')
  {
    hide Upto, Whole, RowData, Rect;
    BinAt(b, base, t, sym, cnt);
    RowLength(b, base, d, t, sym, cnt);
    var d' := d[|Upto(b, base, t, sym)| + cnt := b[t][sym][cnt]];
    RowKept(b, base, d, d', t, sym, cnt);
    RowGrown(b, base, d', t, sym, cnt);
  }

  lemma RowLength(b: seq<seq<seq<nat>>>, base: nat, d: seq<nat>, t: nat, sym: nat, cnt: nat)
    requires t < |b| && Rect(b, base) && RowData(b, base, d, t, sym, cnt)
    ensures |d| == |Whole(b, base)| && (sym < base ==> |b[t]| == base)
  {
  }

  /** Once every thread is done, all data is in place, because the ranges cover everything. */
  lemma AllPlaced(b: seq<seq<seq<nat>>>, base: nat, d: seq<nat>)
    requires |b| > 0 && Rect(b, base) && |d| == |Whole(b, base)|
    requires forall t, j, m :: 0 <= t < |b| && 0 <= j < base && 0 <= m < |b[t][j]| ==> Placed(b, base, d, t, j, m)
    ensures d == Whole(b, base)
  {
    forall p | 0 <= p < |d| ensures d[p] == Whole(b, base)[p] {
      var t, j, m := RangesCover(b, base, 0, base, p);
      assert Placed(b, base, d, t, j, m);
    }
  }
}
