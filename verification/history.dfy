/** The session history: one record per simulated hand, appended in play
    order and never changed afterwards. */
module History {
  import opened Cards

  /** What one hand leaves behind. `trueCount` is the count the hand was dealt
      at, rounded to two decimals (see RoundCents); `bankroll` is the bankroll when the hand
      was dealt, before its amount is settled; `remainingCards` is the shoe
      size after the deal and before any reshuffle. */
  datatype HandRecord = HandRecord(
    trueCount: real,
    bet: real,
    win: bool,
    amount: real,
    remainingCards: int,
    bankroll: real,
    dealerUpcard: Rank,
    playerCards: seq<Rank>)
  {
    /** A won hand pays the bet, a lost one costs it. */
    predicate Settled()
    {
      amount == if win then bet else -bet
    }
  }

  /** A number as a hand record keeps it: rounded to two decimals, halves away
      from zero, as JavaScript's `toFixed(2)` read back with `parseFloat`. */
  function RoundCents(x: real): (y: real)
    ensures (y * 100.0).Floor as real == y * 100.0
    ensures x >= 0.0 ==> 0.0 <= y && x - 0.005 < y <= x + 0.005
    ensures x < 0.0 ==> y <= 0.0 && x - 0.005 <= y < x + 0.005
  {
    if x >= 0.0 then
      var k := (x * 100.0 + 0.5).Floor;
      assert k as real <= x * 100.0 + 0.5 < k as real + 1.0;
      assert k >= 0;
      var y := k as real / 100.0;
      assert y * 100.0 == k as real;
      assert (k as real).Floor == k;
      y
    else
      var k := (-x * 100.0 + 0.5).Floor;
      assert k as real <= -x * 100.0 + 0.5 < k as real + 1.0;
      assert k >= 0;
      var y := -(k as real / 100.0);
      assert y * 100.0 == (-k) as real;
      assert ((-k) as real).Floor == -k;
      y
  }

  /** Rounding an already rounded number changes nothing. */
  lemma RoundCentsIdempotent(x: real)
    ensures RoundCents(RoundCents(x)) == RoundCents(x)
  {
    var y := RoundCents(x);
    var k := (y * 100.0).Floor;
    if y >= 0.0 {
      assert (y * 100.0 + 0.5).Floor == k;
    } else {
      assert (-y * 100.0 + 0.5).Floor == -k;
    }
  }

  /** Rounding keeps a number within whole bounds it already lies within. */
  lemma RoundCentsBounded(x: real, lo: int, hi: int)
    requires lo as real <= x <= hi as real
    ensures lo as real <= RoundCents(x) <= hi as real
  {
    var y := RoundCents(x);
    var k := (y * 100.0).Floor;
    assert k as real == y * 100.0;
    assert x * 100.0 - 0.5 <= k as real <= x * 100.0 + 0.5;
    assert (lo * 100) as real - 0.5 <= k as real <= (hi * 100) as real + 0.5;
    assert lo * 100 <= k <= hi * 100;
  }

  /** Net result of the hands: the sum of their signed amounts, in play order.
      Hands that never lose money never add up to a loss, and the other way round. */
  function TotalProfit(h: seq<HandRecord>): (p: real)
    ensures (forall i :: 0 <= i < |h| ==> h[i].amount >= 0.0) ==> p >= 0.0
    ensures (forall i :: 0 <= i < |h| ==> h[i].amount <= 0.0) ==> p <= 0.0
  {
    if |h| == 0 then 0.0 else TotalProfit(h[..|h| - 1]) + h[|h| - 1].amount
  }

  /** Number of hands won. */
  function WinningHands(h: seq<HandRecord>): (n: nat)
    ensures n <= |h|
  {
    if |h| == 0 then 0 else WinningHands(h[..|h| - 1]) + (if h[|h| - 1].win then 1 else 0)
  }

  /** The bankroll chain of a session that started with `start` and now holds
      `final`: each hand was dealt at the bankroll the previous hand left. */
  predicate Ledger(h: seq<HandRecord>, start: real, final: real)
  {
    if |h| == 0 then final == start
    else
      && h[0].bankroll == start
      && (forall i :: 0 <= i < |h| - 1 ==> h[i + 1].bankroll == h[i].bankroll + h[i].amount)
      && final == h[|h| - 1].bankroll + h[|h| - 1].amount
  }

  /** Settling one more hand dealt at the current bankroll extends the chain. */
  lemma LedgerAppend(h: seq<HandRecord>, start: real, final: real, rec: HandRecord)
    requires Ledger(h, start, final)
    requires rec.bankroll == final
    ensures Ledger(h + [rec], start, final + rec.amount)
  {
  }

  /** Whatever the chain, the bankroll has moved by exactly the total profit. */
  lemma {:induction false} LedgerProfit(h: seq<HandRecord>, start: real, final: real)
    requires Ledger(h, start, final)
    ensures final == start + TotalProfit(h)
  {
    if |h| > 0 {
      var h' := h[..|h| - 1];
      var last := h[|h| - 1];
      assert Ledger(h', start, last.bankroll) by {
        if |h'| > 0 {
          assert h'[|h'| - 1] == h[|h| - 2];
        }
      }
      LedgerProfit(h', start, last.bankroll);
    }
  }
}
