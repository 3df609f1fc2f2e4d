/** A session: a run of simulated hands followed by the statistics of the
    whole history, and what holds of every session a valid game plays. */
module Session {
  import opened Results
  import opened History
  import opened Statistics
  import opened Deck
  import opened Engine

  /** Plays `numHands` hands, one per element of `ds`, then reports the
      statistics of the game's whole history (earlier hands included). */
  method SimulateSession(g: Game, numHands: nat, ds: seq<HandDraws>) returns (g': Game, stats: Stats)
    requires Valid(g) && |ds| == numHands && AllDrawsFit(ds, g.deck.numDecks)
    ensures g' == Run(g, ds)
    ensures stats == GetStatistics(g'.history)
    ensures stats.totalHands == |g.history| + numHands
    ensures g'.history[..|g.history|] == g.history
  {
    g' := g;
    var i := 0;
    while i < numHands
      invariant 0 <= i <= numHands
      invariant g' == Run(g, ds[..i])
    {
      RunStep(g, ds, i);
      g' := SimulateHand(g', ds[i]).value.0;
      i := i + 1;
    }
    assert ds[..numHands] == ds;
    stats := GetStatistics(g'.history);
  }

  /** Every hand of a session started from a fresh game was dealt at the
      bankroll the previous hand left, and the final bankroll is the starting
      bankroll plus the reported total profit. */
  lemma SessionAccounting(cfg: Config, js: seq<int>, ds: seq<HandDraws>)
    requires Accepted(cfg) && ValidChoices(js, ShoeSize(cfg.numDecks))
    requires AllDrawsFit(ds, cfg.numDecks)
    ensures NewGame(cfg, js).Ok?
    ensures Ledger(Run(NewGame(cfg, js).value, ds).history, cfg.bankroll, Run(NewGame(cfg, js).value, ds).bankroll)
    ensures Run(NewGame(cfg, js).value, ds).bankroll ==
            cfg.bankroll + GetStatistics(Run(NewGame(cfg, js).value, ds).history).totalProfit
  {
    var g := NewGame(cfg, js).value;
    RunKeepsLedger(g, ds, cfg.bankroll);
    var g' := Run(g, ds);
    LedgerProfit(g'.history, cfg.bankroll, g'.bankroll);
  }

  /** In any valid game the count histogram accounts for every hand once:
      the buckets from -52 to 52 hold all the hands between them. */
  lemma HistogramCoversHistory(g: Game)
    requires Valid(g)
    ensures SumRange(GetStatistics(g.history).handsByCount, -52, 53) == |g.history|
    ensures forall k :: k in GetStatistics(g.history).handsByCount ==> -52 <= k <= 52
  {
    var h := g.history;
    forall i | 0 <= i < |h|
      ensures -52 <= CountRange(h[i]) < 53
    {
      assert -52.0 <= h[i].trueCount <= 52.0;
    }
    HistogramTotal(h, -52, 53);
    forall k | k in GetStatistics(h).handsByCount
      ensures -52 <= k <= 52
    {
      if k < -52 || k > 52 {
        HandsInOutside(h, k);
      }
    }
  }

  /** A bucket outside every hand's range holds no hands. */
  lemma {:induction false} HandsInOutside(h: seq<HandRecord>, k: int)
    requires forall i :: 0 <= i < |h| ==> CountRange(h[i]) != k
    ensures HandsIn(h, k) == 0
  {
    if |h| > 0 {
      HandsInOutside(h[..|h| - 1], k);
    }
  }

  /** In any valid game with at least one hand, the reported average true
      count lies between -52 and 52. */
  lemma AverageCountBounded(g: Game)
    requires Valid(g) && |g.history| > 0
    ensures -52.0 <= GetStatistics(g.history).avgTrueCount.value <= 52.0
  {
    AverageWithinRange(g.history, -52.0, 52.0);
  }
}
