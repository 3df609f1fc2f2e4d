/** The simulation engine: a validated configuration, count-driven bet
    sizing, and the one-hand state transition (deal three cards, settle the
    bet, record the hand, reshuffle at the penetration threshold). The
    uniform random numbers the source draws are parameters. */
module Engine {
  import opened Cards
  import opened Results
  import opened Deck
  import opened WinModel
  import opened History
  import opened Arith

  /** The options a session is created with. */
  datatype Config = Config(
    numDecks: int,
    bankroll: real,
    baseUnit: real,
    maxBetPercent: real,
    penetration: real)

  /** The values used for options the caller leaves out. */
  const DefaultConfig: Config := Config(6, 10000.0, 100.0, 5.0, 75.0)

  /** The options object as the caller passes it: any field may be left out. */
  datatype Options = Options(
    numDecks: Option<int>,
    bankroll: Option<real>,
    baseUnit: Option<real>,
    maxBetPercent: Option<real>,
    penetration: Option<real>)

  function OrElse<T>(o: Option<T>, default: T): T
  {
    if o.Some? then o.value else default
  }

  /** The configuration an options object stands for: each field left out takes
      its default, each field given is used as is. */
  function ConfigOf(o: Options): (cfg: Config)
    ensures o.numDecks.Some? ==> cfg.numDecks == o.numDecks.value
    ensures o.bankroll.Some? ==> cfg.bankroll == o.bankroll.value
    ensures o.baseUnit.Some? ==> cfg.baseUnit == o.baseUnit.value
    ensures o.maxBetPercent.Some? ==> cfg.maxBetPercent == o.maxBetPercent.value
    ensures o.penetration.Some? ==> cfg.penetration == o.penetration.value
    ensures o.numDecks.None? ==> cfg.numDecks == DefaultConfig.numDecks
    ensures o.bankroll.None? ==> cfg.bankroll == DefaultConfig.bankroll
    ensures o.baseUnit.None? ==> cfg.baseUnit == DefaultConfig.baseUnit
    ensures o.maxBetPercent.None? ==> cfg.maxBetPercent == DefaultConfig.maxBetPercent
    ensures o.penetration.None? ==> cfg.penetration == DefaultConfig.penetration
  {
    Config(
      OrElse(o.numDecks, DefaultConfig.numDecks),
      OrElse(o.bankroll, DefaultConfig.bankroll),
      OrElse(o.baseUnit, DefaultConfig.baseUnit),
      OrElse(o.maxBetPercent, DefaultConfig.maxBetPercent),
      OrElse(o.penetration, DefaultConfig.penetration))
  }

  /** Leaving every option out gives a configuration that passes every check:
      six decks, a cap of 500 and a reshuffle below 78 cards. */
  lemma DefaultsAccepted()
    ensures ConfigOf(Options(None, None, None, None, None)) == DefaultConfig
    ensures Validate(DefaultConfig) == None
    ensures MaxBetFor(DefaultConfig) == 500.0 && ThresholdFor(DefaultConfig) == 78.0
  {
  }

  /** Why a configuration was refused, one constructor per check, in checking order. */
  datatype ConfigError =
    | DecksOutOfRange
    | BankrollTooSmall
    | BaseUnitTooSmall
    | MaxBetPercentOutOfRange
    | PenetrationOutOfRange

  predicate DecksOk(cfg: Config) { 1 <= cfg.numDecks <= 8 }
  predicate BankrollOk(cfg: Config) { cfg.bankroll >= 1000.0 }
  predicate BaseUnitOk(cfg: Config) { cfg.baseUnit >= 25.0 }
  predicate MaxBetPercentOk(cfg: Config) { 1.0 <= cfg.maxBetPercent <= 10.0 }
  predicate PenetrationOk(cfg: Config) { 50.0 <= cfg.penetration <= 95.0 }

  predicate Accepted(cfg: Config)
  {
    DecksOk(cfg) && BankrollOk(cfg) && BaseUnitOk(cfg) && MaxBetPercentOk(cfg) && PenetrationOk(cfg)
  }

  /** The first check the configuration fails, if any. */
  function Validate(cfg: Config): (r: Option<ConfigError>)
    ensures r.None? <==> Accepted(cfg)
    ensures r == Some(DecksOutOfRange) <==> !DecksOk(cfg)
    ensures r == Some(BankrollTooSmall) <==> DecksOk(cfg) && !BankrollOk(cfg)
    ensures r == Some(BaseUnitTooSmall) <==> DecksOk(cfg) && BankrollOk(cfg) && !BaseUnitOk(cfg)
    ensures r == Some(MaxBetPercentOutOfRange) <==>
      DecksOk(cfg) && BankrollOk(cfg) && BaseUnitOk(cfg) && !MaxBetPercentOk(cfg)
    ensures r == Some(PenetrationOutOfRange) <==>
      DecksOk(cfg) && BankrollOk(cfg) && BaseUnitOk(cfg) && MaxBetPercentOk(cfg) && !PenetrationOk(cfg)
  {
    if cfg.numDecks < 1 || cfg.numDecks > 8 then Some(DecksOutOfRange)
    else if cfg.bankroll < 1000.0 then Some(BankrollTooSmall)
    else if cfg.baseUnit < 25.0 then Some(BaseUnitTooSmall)
    else if cfg.maxBetPercent < 1.0 || cfg.maxBetPercent > 10.0 then Some(MaxBetPercentOutOfRange)
    else if cfg.penetration < 50.0 || cfg.penetration > 95.0 then Some(PenetrationOutOfRange)
    else None
  }

  /** The bet cap, fixed from the starting bankroll: between 1% and 10% of
      it when the percentage passes validation. */
  function MaxBetFor(cfg: Config): (m: real)
    ensures MaxBetPercentOk(cfg) && cfg.bankroll >= 0.0 ==>
      cfg.bankroll / 100.0 <= m <= cfg.bankroll / 10.0
  {
    var share := cfg.maxBetPercent / 100.0;
    if MaxBetPercentOk(cfg) && cfg.bankroll >= 0.0 then
      MulMono(0.01, share, cfg.bankroll);
      MulMono(share, 0.1, cfg.bankroll);
      cfg.bankroll * share
    else
      cfg.bankroll * share
  }

  /** The shoe size below which the shoe is rebuilt: the undealt share of a
      full shoe, between 5% and half of it when the penetration passes validation. */
  function ThresholdFor(cfg: Config): (t: real)
    ensures DecksOk(cfg) && PenetrationOk(cfg) ==>
      0.05 * ShoeSize(cfg.numDecks) as real <= t <= 0.5 * ShoeSize(cfg.numDecks) as real
  {
    var p := (100.0 - cfg.penetration) / 100.0;
    var n := cfg.numDecks as real;
    if DecksOk(cfg) && PenetrationOk(cfg) then
      ShareOfShoe(p, n, ShoeSize(cfg.numDecks) as real);
      p * n * 52.0
    else
      p * n * 52.0
  }

  /** A share `p` between 5% and 50% of a shoe of `n` decks (`size` cards) is
      between 5% and 50% of its cards. */
  lemma ShareOfShoe(p: real, n: real, size: real)
    requires 0.05 <= p <= 0.5 && 1.0 <= n && size == 52.0 * n
    ensures 0.05 * size <= p * n * 52.0 <= 0.5 * size
  {
    MulMono(0.05, p, n);
    MulMono(p, 0.5, n);
  }

  /** For an accepted configuration the threshold is at least 2.6 cards and at
      most half the shoe, and the bet cap is at least 10. */
  lemma AcceptedBounds(cfg: Config)
    requires Accepted(cfg)
    ensures 2.6 <= ThresholdFor(cfg) <= 26.0 * cfg.numDecks as real
    ensures MaxBetFor(cfg) >= 10.0
  {
    assert ShoeSize(cfg.numDecks) as real == 52.0 * cfg.numDecks as real;
  }

  /** A running session: the shoe, the hands so far, the current bankroll and
      the constants fixed at creation (the minimum bet is the base unit). */
  datatype Game = Game(
    deck: Shoe,
    history: seq<HandRecord>,
    bankroll: real,
    baseUnit: real,
    maxBet: real,
    threshold: real)

  /** What holds of every game the engine can reach. */
  predicate Valid(g: Game)
  {
    && 1 <= g.deck.numDecks <= 8
    && 2.6 <= g.threshold <= 26.0 * g.deck.numDecks as real
    && g.baseUnit >= 25.0
    && g.maxBet >= 10.0
    && |g.deck.cards| as real >= g.threshold
    && (forall i :: 0 <= i < |g.history| ==> g.history[i].Settled())
    && (forall i :: 0 <= i < |g.history| ==> -52.0 <= g.history[i].trueCount <= 52.0)
  }

  /** Every card left in the shoe comes from the full shoe of its decks. */
  predicate DrawnFromFullShoe(g: Game)
  {
    multiset(g.deck.cards) <= multiset(Unshuffled(g.deck.numDecks))
  }

  /** A valid game always holds the three cards a hand needs. */
  lemma ValidCanDeal(g: Game)
    requires Valid(g)
    ensures |g.deck.cards| >= 3
  {
  }

  /** Creates a session: validates the configuration before building anything,
      then builds and shuffles the shoe with the index choices `js`. */
  function NewGame(cfg: Config, js: seq<int>): (r: Result<Game, ConfigError>)
    requires DecksOk(cfg) ==> ValidChoices(js, ShoeSize(cfg.numDecks))
    ensures r.Err? <==> !Accepted(cfg)
    ensures r.Err? ==> Validate(cfg) == Some(r.error)
    ensures r.Ok? ==> Valid(r.value) && DrawnFromFullShoe(r.value)
    ensures r.Ok? ==> r.value.history == [] && r.value.bankroll == cfg.bankroll
    ensures r.Ok? ==> r.value.baseUnit == cfg.baseUnit
    ensures r.Ok? ==> r.value.maxBet == MaxBetFor(cfg) && r.value.threshold == ThresholdFor(cfg)
    ensures r.Ok? ==> r.value.deck.numDecks == cfg.numDecks
    ensures r.Ok? ==> |r.value.deck.cards| == ShoeSize(cfg.numDecks) && RunningCount(r.value.deck) == 0
  {
    match Validate(cfg)
    case Some(e) => Err(e)
    case None =>
      AcceptedBounds(cfg);
      var deck := Reset(cfg.numDecks, js);
      Ok(Game(deck, [], cfg.bankroll, cfg.baseUnit, MaxBetFor(cfg), ThresholdFor(cfg)))
  }

  /** The count-proportional bet before any cap: one base unit per whole point of true count. */
  function CountBet(baseUnit: real, trueCount: real): real
  {
    baseUnit * trueCount.Floor as real
  }

  /** With a non-negative base unit, the uncapped bet never falls as the count rises. */
  lemma CountBetMonotone(baseUnit: real, tc1: real, tc2: real)
    requires tc1 <= tc2 && baseUnit >= 0.0
    ensures CountBet(baseUnit, tc1) <= CountBet(baseUnit, tc2)
  {
    assert tc1.Floor <= tc2.Floor;
    MulMono(tc1.Floor as real, tc2.Floor as real, baseUnit);
    assert baseUnit * tc1.Floor as real <= baseUnit * tc2.Floor as real;
  }

  /** Above a count of 1 the uncapped bet is at least one base unit. */
  lemma CountBetAtLeastUnit(baseUnit: real, tc: real)
    requires tc > 1.0 && baseUnit >= 0.0
    ensures CountBet(baseUnit, tc) >= baseUnit
  {
    CountBetMonotone(baseUnit, 1.0, tc);
    assert 1.0.Floor == 1;
  }

  /** The bet for a hand dealt at `trueCount`: the base unit at a count of 1 or
      less (whatever the bankroll), otherwise the count-proportional bet cut
      down to the bet cap and to the current bankroll, i.e. the least of the three. */
  function CalculateBet(g: Game, trueCount: real): (bet: real)
    ensures trueCount <= 1.0 ==> bet == g.baseUnit
    ensures trueCount > 1.0 ==> bet <= CountBet(g.baseUnit, trueCount)
    ensures trueCount > 1.0 ==> bet <= g.maxBet && bet <= g.bankroll
    ensures trueCount > 1.0 ==>
      bet == CountBet(g.baseUnit, trueCount) || bet == g.maxBet || bet == g.bankroll
  {
    if trueCount <= 1.0 then g.baseUnit
    else Min(Min(CountBet(g.baseUnit, trueCount), g.maxBet), g.bankroll)
  }

  /** Above a count of 1, a higher count never lowers the bet. */
  lemma {:induction false} BetMonotoneAboveOne(g: Game, tc1: real, tc2: real)
    requires 1.0 < tc1 <= tc2 && g.baseUnit >= 0.0
    ensures CalculateBet(g, tc1) <= CalculateBet(g, tc2)
  {
    CountBetMonotone(g.baseUnit, tc1, tc2);
  }

  /** When the cap and the bankroll both allow the base unit, the bet never
      falls as the count rises. */
  lemma BetMonotone(g: Game, tc1: real, tc2: real)
    requires tc1 <= tc2
    requires g.baseUnit >= 0.0 && g.maxBet >= g.baseUnit && g.bankroll >= g.baseUnit
    ensures CalculateBet(g, tc1) <= CalculateBet(g, tc2)
  {
    if tc1 > 1.0 {
      BetMonotoneAboveOne(g, tc1, tc2);
    } else if tc2 > 1.0 {
      CountBetAtLeastUnit(g.baseUnit, tc2);
    }
  }

  /** When the bet cap is below the base unit, as an accepted configuration
      allows, a favourable count draws a smaller bet than a neutral one. */
  lemma SmallCapUndercutsBaseBet(g: Game, tc: real)
    requires g.maxBet < g.baseUnit && tc > 1.0
    ensures CalculateBet(g, tc) < CalculateBet(g, 0.0)
  {
  }

  /** An accepted configuration whose bet cap (10) is below its base unit (25). */
  lemma SmallCapIsAccepted()
    ensures Accepted(Config(1, 1000.0, 25.0, 1.0, 75.0))
    ensures MaxBetFor(Config(1, 1000.0, 25.0, 1.0, 75.0)) < 25.0
  {
  }

  /** At a count of 1 or less the bet is not limited by the bankroll. */
  lemma LowCountBetIgnoresBankroll(g: Game, tc: real)
    requires tc <= 1.0 && g.bankroll < g.baseUnit
    ensures CalculateBet(g, tc) > g.bankroll
  {
  }

  /** Nothing stops the bankroll from going negative (bets at a count of 1 or
      less ignore it); from then on, every bet above a count of 1 is the
      negative bankroll itself. */
  lemma NegativeBankrollBet(g: Game, tc: real)
    requires tc > 1.0 && g.bankroll < 0.0 && g.baseUnit >= 0.0 && g.maxBet >= 0.0
    ensures CalculateBet(g, tc) == g.bankroll < 0.0
  {
    CountBetAtLeastUnit(g.baseUnit, tc);
  }

  /** The random numbers one hand consumes: `u`, uniform in [0, 1), decides the
      outcome; `reshuffle` holds the index choices of the shuffle, used only
      when the hand leaves the shoe below the threshold. */
  datatype HandDraws = HandDraws(u: real, reshuffle: seq<int>)

  predicate DrawsFit(d: HandDraws, numDecks: nat)
  {
    0.0 <= d.u < 1.0 && ValidChoices(d.reshuffle, ShoeSize(numDecks))
  }

  /** Drawing from a shoe with too few cards for a hand. */
  datatype HandError = ExhaustedShoe

  /** What one hand does to a game, stated against the game before it. */
  predicate HandEffect(g: Game, d: HandDraws, g': Game, rec: HandRecord)
    requires DrawsFit(d, g.deck.numDecks)
  {
    var n := |g.deck.cards|;
    && n >= 3
    // the count and the bet are taken before the deal; the record keeps the count rounded
    && rec.trueCount == RoundCents(TrueCount(g.deck))
    && rec.bet == CalculateBet(g, TrueCount(g.deck))
    // the player gets the last two cards of the shoe, the dealer the one before
    && rec.playerCards == [g.deck.cards[n - 1].rank, g.deck.cards[n - 2].rank]
    && rec.dealerUpcard == g.deck.cards[n - 3].rank
    && (rec.win <==> d.u < WinRate(TrueCount(g.deck), Card(rec.dealerUpcard)))
    && rec.Settled()
    && rec.remainingCards == n - 3
    // the record holds the bankroll before settlement
    && rec.bankroll == g.bankroll
    && g'.bankroll == g.bankroll + rec.amount
    && g'.history == g.history + [rec]
    // the shoe loses the three cards, or is rebuilt when it fell below the threshold
    && g'.deck.numDecks == g.deck.numDecks
    && ((n - 3) as real < g.threshold ==> g'.deck == Reset(g.deck.numDecks, d.reshuffle))
    && ((n - 3) as real >= g.threshold ==> g'.deck.cards == g.deck.cards[..n - 3])
    && g'.baseUnit == g.baseUnit && g'.maxBet == g.maxBet && g'.threshold == g.threshold
  }

  /** One hand: read the true count, size the bet, deal two player cards and
      the dealer's upcard, decide the outcome, settle, record, and reshuffle
      if the shoe fell below the threshold. */
  function SimulateHand(g: Game, d: HandDraws): (r: Result<(Game, HandRecord), HandError>)
    requires DrawsFit(d, g.deck.numDecks)
    ensures r.Err? <==> |g.deck.cards| < 3
  {
    var trueCount := TrueCount(g.deck);
    var bet := CalculateBet(g, trueCount);
    match DealThree(g.deck)
    case None => Err(ExhaustedShoe)
    case Some((p1, p2, upcard, rest)) =>
      var win := d.u < WinRate(trueCount, upcard);
      var amount := if win then bet else -bet;
      var rec := HandRecord(RoundCents(trueCount), bet, win, amount, Remaining(rest), g.bankroll,
                            upcard.rank, [p1.rank, p2.rank]);
      var deck := if (Remaining(rest) as real) < g.threshold then Reset(rest.numDecks, d.reshuffle) else rest;
      Ok((g.(deck := deck, history := g.history + [rec], bankroll := g.bankroll + amount), rec))
  }

  /** A hand dealt from a shoe of at least three cards does what HandEffect says. */
  lemma SimulateHandEffect(g: Game, d: HandDraws)
    requires DrawsFit(d, g.deck.numDecks) && |g.deck.cards| >= 3
    ensures SimulateHand(g, d).Ok?
    ensures HandEffect(g, d, SimulateHand(g, d).value.0, SimulateHand(g, d).value.1)
  {
  }

  /** A hand played from a valid game succeeds, leaves a valid game with the
      same constants, and appends exactly its own record to the history. */
  lemma HandPreservesValid(g: Game, d: HandDraws)
    requires Valid(g) && DrawsFit(d, g.deck.numDecks)
    ensures SimulateHand(g, d).Ok?
    ensures Valid(SimulateHand(g, d).value.0)
    ensures SameConstants(g, SimulateHand(g, d).value.0)
    ensures SimulateHand(g, d).value.0.history == g.history + [SimulateHand(g, d).value.1]
  {
    SimulateHandEffect(g, d);
    var (g', rec) := SimulateHand(g, d).value;
    TrueCountBounded(g.deck);
    RoundCentsBounded(TrueCount(g.deck), -52, 52);
    HistoryStaysValid(g.history, rec);
  }

  /** A hand only removes cards from the shoe or rebuilds it, so the shoe stays
      drawn from the full shoe. */
  lemma HandKeepsShoeDrawn(g: Game, d: HandDraws)
    requires Valid(g) && DrawsFit(d, g.deck.numDecks) && DrawnFromFullShoe(g)
    ensures SimulateHand(g, d).Ok?
    ensures DrawnFromFullShoe(SimulateHand(g, d).value.0)
  {
    SimulateHandEffect(g, d);
    var n := |g.deck.cards|;
    if (n - 3) as real >= g.threshold {
      PrefixSubMultiset(g.deck.cards, n - 3);
    }
  }

  /** Appending a settled hand with a bounded true count keeps the history invariants. */
  lemma HistoryStaysValid(h: seq<HandRecord>, rec: HandRecord)
    requires forall i :: 0 <= i < |h| ==> h[i].Settled()
    requires forall i :: 0 <= i < |h| ==> -52.0 <= h[i].trueCount <= 52.0
    requires rec.Settled() && -52.0 <= rec.trueCount <= 52.0
    ensures forall i :: 0 <= i < |h + [rec]| ==> (h + [rec])[i].Settled()
    ensures forall i :: 0 <= i < |h + [rec]| ==> -52.0 <= (h + [rec])[i].trueCount <= 52.0
  {
  }

  /** Dropping cards from the top of a pile keeps it within the pile. */
  lemma PrefixSubMultiset(s: seq<Card>, k: nat)
    requires k <= |s|
    ensures multiset(s[..k]) <= multiset(s)
  {
    assert s == s[..k] + s[k..];
  }

  /** Every hand of `ds` fits a shoe of `numDecks` decks. */
  predicate AllDrawsFit(ds: seq<HandDraws>, numDecks: nat)
  {
    forall i :: 0 <= i < |ds| ==> DrawsFit(ds[i], numDecks)
  }

  /** The quantities fixed when the game is created. */
  predicate SameConstants(g: Game, g': Game)
  {
    g'.deck.numDecks == g.deck.numDecks && g'.baseUnit == g.baseUnit
    && g'.maxBet == g.maxBet && g'.threshold == g.threshold
  }

  /** The game after playing one hand per element of `ds`, in order. */
  function Run(g: Game, ds: seq<HandDraws>): (g': Game)
    requires Valid(g) && AllDrawsFit(ds, g.deck.numDecks)
    ensures Valid(g') && SameConstants(g, g')
    ensures |g'.history| == |g.history| + |ds|
    ensures g'.history[..|g.history|] == g.history
    decreases |ds|
  {
    if |ds| == 0 then g
    else
      var prev := Run(g, ds[..|ds| - 1]);
      HandPreservesValid(prev, ds[|ds| - 1]);
      var next := SimulateHand(prev, ds[|ds| - 1]).value.0;
      PrefixOfAppend(prev.history, SimulateHand(prev, ds[|ds| - 1]).value.1, |g.history|);
      next
  }

  /** The last element of `ds` is the last hand played. */
  lemma RunLast(g: Game, ds: seq<HandDraws>)
    requires Valid(g) && AllDrawsFit(ds, g.deck.numDecks) && |ds| > 0
    ensures SimulateHand(Run(g, ds[..|ds| - 1]), ds[|ds| - 1]).Ok?
    ensures Run(g, ds) == SimulateHand(Run(g, ds[..|ds| - 1]), ds[|ds| - 1]).value.0
  {
  }

  /** Playing one element more of `ds` is playing one hand more. */
  lemma RunStep(g: Game, ds: seq<HandDraws>, i: nat)
    requires Valid(g) && AllDrawsFit(ds, g.deck.numDecks) && i < |ds|
    ensures SimulateHand(Run(g, ds[..i]), ds[i]).Ok?
    ensures Run(g, ds[..i + 1]) == SimulateHand(Run(g, ds[..i]), ds[i]).value.0
  {
    var ds' := ds[..i + 1];
    assert ds'[..|ds'| - 1] == ds[..i] && ds'[|ds'| - 1] == ds[i];
    RunLast(g, ds');
  }

  lemma PrefixOfAppend(h: seq<HandRecord>, rec: HandRecord, k: nat)
    requires k <= |h|
    ensures (h + [rec])[..k] == h[..k]
  {
  }

  /** Playing hands keeps the bankroll chain: each hand was dealt at the
      bankroll the previous one left, and the last leaves the current bankroll. */
  lemma {:induction false} RunKeepsLedger(g: Game, ds: seq<HandDraws>, start: real)
    requires Valid(g) && AllDrawsFit(ds, g.deck.numDecks)
    requires Ledger(g.history, start, g.bankroll)
    ensures Ledger(Run(g, ds).history, start, Run(g, ds).bankroll)
    decreases |ds|
  {
    if |ds| > 0 {
      var prev := Run(g, ds[..|ds| - 1]);
      RunKeepsLedger(g, ds[..|ds| - 1], start);
      RunLast(g, ds);
      HandExtendsLedger(prev, ds[|ds| - 1], start);
    }
  }

  /** However many hands are played, the shoe stays drawn from the full shoe. */
  lemma {:induction false} RunKeepsShoeDrawn(g: Game, ds: seq<HandDraws>)
    requires Valid(g) && AllDrawsFit(ds, g.deck.numDecks) && DrawnFromFullShoe(g)
    ensures DrawnFromFullShoe(Run(g, ds))
    decreases |ds|
  {
    if |ds| > 0 {
      RunKeepsShoeDrawn(g, ds[..|ds| - 1]);
      RunLast(g, ds);
      HandKeepsShoeDrawn(Run(g, ds[..|ds| - 1]), ds[|ds| - 1]);
    }
  }

  /** One hand extends the bankroll chain by its own record. */
  lemma HandExtendsLedger(g: Game, d: HandDraws, start: real)
    requires Valid(g) && DrawsFit(d, g.deck.numDecks)
    requires Ledger(g.history, start, g.bankroll)
    ensures SimulateHand(g, d).Ok?
    ensures Ledger(SimulateHand(g, d).value.0.history, start, SimulateHand(g, d).value.0.bankroll)
  {
    SimulateHandEffect(g, d);
    var (g', rec) := SimulateHand(g, d).value;
    LedgerAppend(g.history, start, g.bankroll, rec);
  }
}
