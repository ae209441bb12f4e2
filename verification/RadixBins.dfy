/** The bins of the radix sorter of `src/multithread/omp_radix_sort.c`, one for each thread and
    symbol, and the ranges their contents are written to. */
module RadixBins {
  import opened RadixOrder
  import S = Stable

  /** Bin `j` of thread `i` is `b[i][j]`; what the bins before it hold, symbol by symbol and, for
      one symbol, thread by thread. */
  function Upto(b: seq<seq<seq<nat>>>, base: nat, i: nat, j: nat): seq<nat>
    requires i < |b| && Rect(b, base) && j <= base && (j == base ==> i == 0)
    decreases j, i
  {
    if i > 0 then Upto(b, base, i - 1, j) + b[i - 1][j]
    else if j > 0 then Upto(b, base, |b| - 1, j - 1) + b[|b| - 1][j - 1]
    else []
  }

  predicate Rect(b: seq<seq<seq<nat>>>, base: nat) {
    forall i :: 0 <= i < |b| ==> |b[i]| == base
  }

  function Whole(b: seq<seq<seq<nat>>>, base: nat): seq<nat>
    requires |b| > 0 && Rect(b, base)
  {
    Upto(b, base, 0, base)
  }

  /** Each bin has its own range in the whole. */
  lemma {:induction false} BinRange(b: seq<seq<seq<nat>>>, base: nat, i: nat, j: nat)
    requires i < |b| && Rect(b, base) && j < base
    ensures Upto(b, base, i, j) + b[i][j] <= Whole(b, base)
    decreases base - j, |b| - i
  {
    if i + 1 < |b| {
      BinRange(b, base, i + 1, j);
      assert Upto(b, base, i + 1, j) <= Whole(b, base);
    } else if j + 1 < base {
      BinRange(b, base, 0, j + 1);
      assert Upto(b, base, 0, j + 1) <= Whole(b, base);
    }
  }

  lemma BinAt(b: seq<seq<seq<nat>>>, base: nat, i: nat, j: nat, m: nat)
    requires i < |b| && Rect(b, base) && j < base && m < |b[i][j]|
    ensures |Upto(b, base, i, j)| + m < |Whole(b, base)|
    ensures Whole(b, base)[|Upto(b, base, i, j)| + m] == b[i][j][m]
  {
    BinRange(b, base, i, j);
    assert (Upto(b, base, i, j) + b[i][j])[|Upto(b, base, i, j)| + m] == b[i][j][m];
  }

  predicate Earlier(i: nat, j: nat, i': nat, j': nat) { j < j' || (j == j' && i < i') }

  /** The ranges of different bins are disjoint... */
  lemma {:induction false} RangesDisjoint(b: seq<seq<seq<nat>>>, base: nat, i: nat, j: nat, i': nat, j': nat)
    requires i < |b| && i' < |b| && Rect(b, base) && j < base && j' <= base && (j' == base ==> i' == 0)
    requires Earlier(i, j, i', j')
    ensures |Upto(b, base, i, j)| + |b[i][j]| <= |Upto(b, base, i', j')|
    decreases j', i'
  {
    if i' > 0 {
      if !(j == j' && i == i' - 1) { RangesDisjoint(b, base, i, j, i' - 1, j'); }
    } else {
      if !(i == |b| - 1 && j == j' - 1) { RangesDisjoint(b, base, i, j, |b| - 1, j' - 1); }
    }
  }

  /** ...and together they cover the whole. */
  lemma {:induction false} RangesCover(b: seq<seq<seq<nat>>>, base: nat, i: nat, j: nat, p: nat)
    returns (i': nat, j': nat, m: nat)
    requires i < |b| && Rect(b, base) && j <= base && (j == base ==> i == 0) && p < |Upto(b, base, i, j)|
    ensures i' < |b| && j' < base && m < |b[i'][j']| && p == |Upto(b, base, i', j')| + m
    decreases j, i
  {
    var i0, j0 := if i > 0 then i - 1 else |b| - 1, if i > 0 then j else j - 1;
    var before := |Upto(b, base, i0, j0)|;
    if p < before {
      i', j', m := RangesCover(b, base, i0, j0, p);
    } else {
      i', j', m := i0, j0, p - before;
    }
  }

  /** Where the part of thread `i` begins. */
  function Start(i: nat, chunk: nat): nat { i * chunk }

  /** The part of the data that belongs to thread `i`. */
  function Chunk(s: seq<nat>, chunk: nat, i: nat): seq<nat>
    requires Start(i, chunk) + chunk <= |s|
  {
    s[Start(i, chunk)..Start(i, chunk) + chunk]
  }

  /** What the bins hold once every thread has gone through its part. */
  ghost predicate Filled(b: seq<seq<seq<nat>>>, s: seq<nat>, chunk: nat, exp: nat, base: nat)
    requires exp > 0 && base > 0
  {
    && Rect(b, base) && |s| == Start(|b|, chunk)
    && forall i, j :: 0 <= i < |b| && 0 <= j < base ==>
      (ChunkFits(i, |b|, chunk); b[i][j] == Select(Chunk(s, chunk, i), exp, base, j))
  }

  lemma ChunkFits(i: nat, n: nat, chunk: nat)
    requires i < n
    ensures Start(i, chunk) + chunk <= Start(n, chunk)
  {
    MulOrder(i + 1, n, chunk);
    assert (i + 1) * chunk == i * chunk + chunk;
  }

  /** One thread's part more. */
  lemma SelectChunk(s: seq<nat>, chunk: nat, exp: nat, base: nat, i: nat, j: nat)
    requires exp > 0 && base > 0 && Start(i, chunk) + chunk <= |s|
    ensures Start(i + 1, chunk) == Start(i, chunk) + chunk
    ensures Select(s[..Start(i + 1, chunk)], exp, base, j) == Select(s[..Start(i, chunk)], exp, base, j)
      + Select(Chunk(s, chunk, i), exp, base, j)
  {
    var k := Start(i, chunk);
    assert Start(i + 1, chunk) == k + chunk;
    assert s[..k + chunk] == s[..k] + Chunk(s, chunk, i);
    SelectConcat(s[..k], Chunk(s, chunk, i), exp, base, j);
  }

  function Part(s: seq<nat>, chunk: nat, exp: nat, base: nat, i: nat, j: nat): seq<nat>
    requires exp > 0 && base > 0 && Start(i, chunk) <= |s|
  {
    if j < base then Select(s[..Start(i, chunk)], exp, base, j) else []
  }

  lemma BinPart(b: seq<seq<seq<nat>>>, s: seq<nat>, chunk: nat, exp: nat, base: nat, i: nat, n: nat, j: nat)
    requires exp > 0 && base > 0 && Filled(b, s, chunk, exp, base) && i < |b| && n == i + 1 && j < base
    ensures Start(i, chunk) <= |s| && Start(n, chunk) <= |s| && (n == |b| ==> Start(n, chunk) == |s|) && Rect(b, base)
    ensures Part(s, chunk, exp, base, i, j) + b[i][j] == Part(s, chunk, exp, base, n, j)
  {
    ChunkFits(i, |b|, chunk);
    SelectChunk(s, chunk, exp, base, i, j);
  }

  lemma PartsFit(b: seq<seq<seq<nat>>>, s: seq<nat>, chunk: nat, exp: nat, base: nat, i: nat)
    requires exp > 0 && base > 0 && Filled(b, s, chunk, exp, base) && i <= |b|
    ensures Start(i, chunk) <= |s| && Rect(b, base)
  {
    MulOrder(i, |b|, chunk);
  }

  lemma Reassoc(u: seq<nat>, g: seq<nat>, p: seq<nat>, x: seq<nat>, q: seq<nat>)
    requires u == g + p && p + x == q
    ensures u + x == g + q
  {
  }

  lemma Unfolded(b: seq<seq<seq<nat>>>, s: seq<nat>, exp: nat, base: nat, t: nat, l: nat)
    requires exp > 0 && base > 0 && Rect(b, base) && t + 1 == |b| && l < base
    ensures Upto(b, base, 0, l + 1) == Upto(b, base, t, l) + b[t][l]
    ensures Gathered(s, exp, base, l + 1) == Gathered(s, exp, base, l) + Select(s, exp, base, l)
  {
  }

  lemma UptoNext(b: seq<seq<seq<nat>>>, base: nat, t: nat, i: nat, j: nat)
    requires i == t + 1 < |b| && Rect(b, base) && j < base
    ensures Upto(b, base, i, j) == Upto(b, base, t, j) + b[t][j]
  {
  }

  lemma NothingBefore(b: seq<seq<seq<nat>>>, s: seq<nat>, exp: nat, base: nat)
    requires exp > 0 && base > 0 && Rect(b, base) && |b| > 0
    ensures Upto(b, base, 0, 0) == Gathered(s, exp, base, 0) == []
  {
  }

  lemma NoMore(g: seq<nat>)
    ensures g + [] == g
  {
  }

  lemma NextThread(b: seq<seq<seq<nat>>>, s: seq<nat>, chunk: nat, exp: nat, base: nat, t: nat, i: nat, j: nat)
    requires exp > 0 && base > 0 && Filled(b, s, chunk, exp, base) && i == t + 1 < |b| && j < base
    requires Start(t, chunk) <= |s|
    requires Upto(b, base, t, j) == Gathered(s, exp, base, j) + Part(s, chunk, exp, base, t, j)
    ensures Start(i, chunk) <= |s| && Upto(b, base, i, j) == Gathered(s, exp, base, j) + Part(s, chunk, exp, base, i, j)
  {
    hide Start, Part, Gathered, Filled, Select, Upto, Rect, Digit;
    BinPart(b, s, chunk, exp, base, t, i, j);
    PartsFit(b, s, chunk, exp, base, t);
    UptoNext(b, base, t, i, j);
    Reassoc(Upto(b, base, t, j), Gathered(s, exp, base, j), Part(s, chunk, exp, base, t, j), b[t][j],
      Part(s, chunk, exp, base, i, j));
  }

  lemma NextSymbol(b: seq<seq<seq<nat>>>, s: seq<nat>, chunk: nat, exp: nat, base: nat, t: nat, l: nat, j: nat)
    requires exp > 0 && base > 0 && Filled(b, s, chunk, exp, base) && t + 1 == |b| && j == l + 1 <= base
    requires Start(t, chunk) <= |s|
    requires Upto(b, base, t, l) == Gathered(s, exp, base, l) + Part(s, chunk, exp, base, t, l)
    ensures Upto(b, base, 0, j) == Gathered(s, exp, base, j)
  {
    hide Start, Part, Select, Upto, Gathered, Filled, Rect, Digit;
    BinPart(b, s, chunk, exp, base, t, |b|, l);
    PartsFit(b, s, chunk, exp, base, t);
    AllParts(s, chunk, exp, base, |b|, l);
    Unfolded(b, s, exp, base, t, l);
    Reassoc(Upto(b, base, t, l), Gathered(s, exp, base, l), Part(s, chunk, exp, base, t, l), b[t][l],
      Select(s, exp, base, l));
  }

  /** The threads' parts of one symbol, put one after the other, are all the elements with it. */
  lemma {:induction false} UptoGathered(b: seq<seq<seq<nat>>>, s: seq<nat>, chunk: nat, exp: nat, base: nat, i: nat,
                                        j: nat)
    requires exp > 0 && base > 0 && Filled(b, s, chunk, exp, base) && i < |b| && j <= base && (j == base ==> i == 0)
    ensures Start(i, chunk) <= |s|
    ensures Upto(b, base, i, j) == Gathered(s, exp, base, j) + Part(s, chunk, exp, base, i, j)
    decreases j, i
  {
    hide Start, Filled, Select, Part, Upto, Gathered, Rect, Digit;
    PartsFit(b, s, chunk, exp, base, i);
    NoPart(s, chunk, exp, base, j);
    NothingBefore(b, s, exp, base);
    NoMore(Gathered(s, exp, base, j));
    if i > 0 {
      UptoGathered(b, s, chunk, exp, base, i - 1, j);
      NextThread(b, s, chunk, exp, base, i - 1, i, j);
    } else if j > 0 {
      UptoGathered(b, s, chunk, exp, base, |b| - 1, j - 1);
      NextSymbol(b, s, chunk, exp, base, |b| - 1, j - 1, j);
    }
  }

  lemma NoPart(s: seq<nat>, chunk: nat, exp: nat, base: nat, j: nat)
    requires exp > 0 && base > 0
    ensures Start(0, chunk) == 0 && Part(s, chunk, exp, base, 0, j) == []
  {
  }

  lemma AllParts(s: seq<nat>, chunk: nat, exp: nat, base: nat, n: nat, j: nat)
    requires exp > 0 && base > 0 && Start(n, chunk) == |s| && j < base
    ensures Part(s, chunk, exp, base, n, j) == Select(s, exp, base, j)
  {
    assert s[..|s|] == s;
  }

  /** With every part of the data in its bin, the whole is the stable sort by the symbol. */
  lemma WholeGathered(b: seq<seq<seq<nat>>>, s: seq<nat>, chunk: nat, exp: nat, base: nat)
    requires exp > 0 && base > 0 && |b| > 0 && Filled(b, s, chunk, exp, base)
    ensures Whole(b, base) == Gathered(s, exp, base, base) && |Whole(b, base)| == |s|
  {
    UptoGathered(b, s, chunk, exp, base, 0, base);
    GatheredSame(s, exp, base);
    S.SameMembers(Gathered(s, exp, base, base), s);
  }

  /** Every element has a bin exactly when the number of threads divides the number of elements. */
  lemma BinsSuffice(n: nat, threads: nat)
    requires 0 < threads <= n
    ensures n / threads > 0
    ensures (forall i :: 0 <= i < n ==> i / (n / threads) < threads) <==> n % threads == 0
  {
    var chunk, r := n / threads, n % threads;
    assert n == chunk * threads + r;
    assert chunk == 0 ==> n < threads;
    if r == 0 {
      forall i | 0 <= i < n ensures i / chunk < threads {
        var q := i / chunk;
        if q >= threads { MulOrder(threads, q, chunk); }
      }
    } else {
      var i := chunk * threads;
      DivModUnique(i, chunk, threads, 0);
      assert i < n && i / chunk >= threads;
    }
  }
}
