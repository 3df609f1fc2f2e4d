/** Summary statistics of a session, reduced from its history: totals, the
    average true count, the largest bet, and a per-count histogram keyed by
    the floor of each hand's true count. */
module Statistics {
  import opened Results
  import opened History
  import opened Arith

  /** Hands and wins seen in one true-count bucket. */
  datatype Bucket = Bucket(wins: nat, total: nat)

  /** The summary of a history. The average true count and the largest bet
      are absent for an empty history, where the source computes 0 / 0 (NaN)
      and the maximum of no values (-Infinity). */
  datatype Stats = Stats(
    totalHands: nat,
    winningHands: nat,
    totalProfit: real,
    avgTrueCount: Option<real>,
    maxBet: Option<real>,
    winRateByCount: map<int, real>,
    handsByCount: map<int, nat>)

  /** The bucket a hand falls in: the whole number at or just below its true count. */
  function CountRange(rec: HandRecord): (k: int)
    ensures k as real <= rec.trueCount < k as real + 1.0
  {
    rec.trueCount.Floor
  }

  /** Reference count: how many hands fall in bucket `k`. */
  function HandsIn(h: seq<HandRecord>, k: int): nat
  {
    if |h| == 0 then 0
    else HandsIn(h[..|h| - 1], k) + (if CountRange(h[|h| - 1]) == k then 1 else 0)
  }

  /** Reference count: how many hands in bucket `k` were won. */
  function WinsIn(h: seq<HandRecord>, k: int): (n: nat)
    ensures n <= HandsIn(h, k)
  {
    if |h| == 0 then 0
    else WinsIn(h[..|h| - 1], k) + (if CountRange(h[|h| - 1]) == k && h[|h| - 1].win then 1 else 0)
  }

  /** Records one more hand in its bucket, opening the bucket if needed. */
  function AddHand(m: map<int, Bucket>, rec: HandRecord): map<int, Bucket>
  {
    var k := CountRange(rec);
    var b := if k in m then m[k] else Bucket(0, 0);
    m[k := Bucket(b.wins + (if rec.win then 1 else 0), b.total + 1)]
  }

  /** The per-count histogram, folded over the history in play order. Exactly
      the buckets some hand falls in are present, each holding that bucket's
      hand and win counts. */
  function Buckets(h: seq<HandRecord>): (m: map<int, Bucket>)
    ensures forall k :: k in m ==> m[k] == Bucket(WinsIn(h, k), HandsIn(h, k))
    ensures forall k :: k in m ==> 0 < m[k].total && m[k].wins <= m[k].total
    ensures forall k :: k !in m ==> HandsIn(h, k) == 0
  {
    if |h| == 0 then map[] else AddHand(Buckets(h[..|h| - 1]), h[|h| - 1])
  }

  /** Hand count per bucket. */
  function HandsByCount(h: seq<HandRecord>): (m: map<int, nat>)
    ensures forall k :: k in m ==> m[k] == HandsIn(h, k) > 0
    ensures forall k :: k !in m ==> HandsIn(h, k) == 0
  {
    var b := Buckets(h);
    map k | k in b :: b[k].total
  }

  /** Win percentage per bucket: the bucket's wins over its hands, times 100. */
  function WinRateByCount(h: seq<HandRecord>): (m: map<int, real>)
    ensures m.Keys == HandsByCount(h).Keys
    ensures forall k :: k in m ==> m[k] == WinsIn(h, k) as real / HandsIn(h, k) as real * 100.0
    ensures forall k :: k in m ==> 0.0 <= m[k] <= 100.0
  {
    var b := Buckets(h);
    map k | k in b :: Percent(b[k].wins, b[k].total)
  }

  /** `wins` out of `total` as a percentage. */
  function Percent(wins: nat, total: nat): (p: real)
    requires 0 < total && wins <= total
    ensures 0.0 <= p <= 100.0
  {
    var f := wins as real / total as real;
    assert f <= 1.0 by {
      assert f * total as real == wins as real;
      if f > 1.0 {
        assert f * total as real > 1.0 * total as real;
      }
    }
    f * 100.0
  }

  /** Largest bet of a non-empty history. */
  function MaxBet(h: seq<HandRecord>): (m: real)
    requires |h| > 0
    ensures forall i :: 0 <= i < |h| ==> h[i].bet <= m
    ensures exists i :: 0 <= i < |h| && h[i].bet == m
  {
    if |h| == 1 then h[0].bet
    else
      var m' := MaxBet(h[..|h| - 1]);
      var last := h[|h| - 1].bet;
      if m' >= last then m' else last
  }

  /** Sum of the recorded true counts (SumTrueCountBounds says what it bounds). */
  function SumTrueCount(h: seq<HandRecord>): real
  {
    if |h| == 0 then 0.0 else SumTrueCount(h[..|h| - 1]) + h[|h| - 1].trueCount
  }

  /** The statistics of a history. */
  function GetStatistics(h: seq<HandRecord>): (s: Stats)
    ensures s.totalHands == |h|
    ensures s.winningHands <= s.totalHands
    ensures s.avgTrueCount.None? <==> |h| == 0
    ensures s.maxBet.None? <==> |h| == 0
    ensures s.maxBet.Some? ==> forall i :: 0 <= i < |h| ==> h[i].bet <= s.maxBet.value
    ensures s.maxBet.Some? ==> exists i :: 0 <= i < |h| && h[i].bet == s.maxBet.value
    ensures s.winRateByCount.Keys == s.handsByCount.Keys
    ensures forall k :: k in s.handsByCount ==> s.handsByCount[k] == HandsIn(h, k) > 0
    ensures forall k :: k !in s.handsByCount ==> HandsIn(h, k) == 0
    ensures forall k :: k in s.winRateByCount ==>
      s.winRateByCount[k] == WinsIn(h, k) as real / HandsIn(h, k) as real * 100.0
    ensures forall k :: k in s.winRateByCount ==> 0.0 <= s.winRateByCount[k] <= 100.0
  {
    Stats(
      |h|,
      WinningHands(h),
      TotalProfit(h),
      if |h| == 0 then None else Some(SumTrueCount(h) / |h| as real),
      if |h| == 0 then None else Some(MaxBet(h)),
      WinRateByCount(h),
      HandsByCount(h))
  }

  // ---------------------------------------------------------------------------
  // Histogram total

  /** Sum of the values a map holds for the keys `lo` up to (not including) `hi`. */
  function SumRange(m: map<int, nat>, lo: int, hi: int): nat
    decreases hi - lo
  {
    if lo >= hi then 0 else (if lo in m then m[lo] else 0) + SumRange(m, lo + 1, hi)
  }

  /** Raising one value in range by one raises the sum by one. */
  lemma {:induction false} SumRangeIncrement(m: map<int, nat>, k: int, m': map<int, nat>, lo: int, hi: int)
    requires lo <= k < hi
    requires m' == m[k := (if k in m then m[k] else 0) + 1]
    ensures SumRange(m', lo, hi) == SumRange(m, lo, hi) + 1
    decreases hi - lo
  {
    if lo < k {
      SumRangeIncrement(m, k, m', lo + 1, hi);
    } else {
      SumRangeUnchanged(m, k, m', lo + 1, hi);
    }
  }

  lemma {:induction false} SumRangeUnchanged(m: map<int, nat>, k: int, m': map<int, nat>, lo: int, hi: int)
    requires k < lo
    requires m' == m[k := (if k in m then m[k] else 0) + 1]
    ensures SumRange(m', lo, hi) == SumRange(m, lo, hi)
    decreases hi - lo
  {
    if lo < hi {
      SumRangeUnchanged(m, k, m', lo + 1, hi);
    }
  }

  /** The histogram accounts for every hand exactly once: over any key range
      that holds every hand's bucket, the per-bucket counts sum to the number of hands. */
  lemma HistogramTotal(h: seq<HandRecord>, lo: int, hi: int)
    requires forall i :: 0 <= i < |h| ==> lo <= CountRange(h[i]) < hi
    ensures SumRange(GetStatistics(h).handsByCount, lo, hi) == GetStatistics(h).totalHands
  {
    HandsByCountTotal(h, lo, hi);
  }

  lemma {:induction false} HandsByCountTotal(h: seq<HandRecord>, lo: int, hi: int)
    requires forall i :: 0 <= i < |h| ==> lo <= CountRange(h[i]) < hi
    ensures SumRange(HandsByCount(h), lo, hi) == |h|
  {
    if |h| == 0 {
      assert HandsByCount(h) == map[];
      SumRangeEmpty(lo, hi);
    } else {
      var h' := h[..|h| - 1];
      var k := CountRange(h[|h| - 1]);
      var m := HandsByCount(h');
      HandsByCountTotal(h', lo, hi);
      assert HandsByCount(h) == m[k := (if k in m then m[k] else 0) + 1];
      SumRangeIncrement(m, k, HandsByCount(h), lo, hi);
    }
  }

  lemma {:induction false} SumRangeEmpty(lo: int, hi: int)
    ensures SumRange(map[], lo, hi) == 0
    decreases hi - lo
  {
    if lo < hi {
      SumRangeEmpty(lo + 1, hi);
    }
  }

  // ---------------------------------------------------------------------------
  // Average true count

  /** Counts that all lie within [lo, hi] sum to between `lo` and `hi` per hand. */
  lemma {:induction false} SumTrueCountBounds(h: seq<HandRecord>, lo: real, hi: real)
    requires forall i :: 0 <= i < |h| ==> lo <= h[i].trueCount <= hi
    ensures lo * |h| as real <= SumTrueCount(h) <= hi * |h| as real
  {
    if |h| > 0 {
      SumTrueCountBounds(h[..|h| - 1], lo, hi);
    }
  }

  /** The average true count lies between the smallest and the largest recorded one. */
  lemma AverageWithinRange(h: seq<HandRecord>, lo: real, hi: real)
    requires |h| > 0
    requires forall i :: 0 <= i < |h| ==> lo <= h[i].trueCount <= hi
    ensures lo <= GetStatistics(h).avgTrueCount.value <= hi
  {
    SumTrueCountBounds(h, lo, hi);
    DivideBetween(SumTrueCount(h), |h| as real, lo, hi);
  }

  lemma DivideBetween(sum: real, n: real, lo: real, hi: real)
    requires n > 0.0 && lo * n <= sum <= hi * n
    ensures lo <= sum / n <= hi
  {
    var avg := sum / n;
    assert avg * n == sum;
    if avg < lo {
      MulStrict(avg, lo, n);
    }
    if avg > hi {
      MulStrict(hi, avg, n);
    }
  }
}
