# Blackjack card-counting simulator — a Dafny model

This project models the simulation engine of the blackjack-counter
repository (`src/components/game.js`) and proves properties of it. The
engine has three parts:

- **Cards and the shoe.** A Card has a blackjack point value and a Hi-Lo
  counting weight. The shoe holds `numDecks` 52-card decks. It is built in
  a fixed order and shuffled by Fisher–Yates. Cards are dealt from its end.
  It is counted with Hi-Lo: the running count is the sum of the weights of
  the cards still in it, and the true count is the running count divided
  by the decks remaining, never fewer than one.
- **The game.** A Game has:
  - a validated configuration;
  - a bet cap and a reshuffle threshold, fixed at creation;
  - a clamped linear model of the win probability;
  - floor-based bet sizing;
  - a one-hand transition. It deals three cards, decides the outcome,
    settles the bet and appends a record to the history. It rebuilds the
    shoe when fewer cards than the threshold remain.

  A session plays a given number of hands in a row.
- **Statistics.** These are reduced from the history:
  - totals;
  - the average true count;
  - the largest bet;
  - a histogram of hands and win rates, keyed by the floor of each hand's
    recorded true count.

Randomness is a parameter:
- The shuffle takes its index choices `js` (`0 <= js[i] <= i`). `Deck.Pick`
  and `Deck.Choices` show that the source's `Math.floor(Math.random() * (i + 1))`
  always produces such choices.
- Each hand takes a `HandDraws`. It holds the uniform number `u` that decides
  the outcome (`u < WinRate` is a win) and the index choices for a reshuffle.

Numbers are exact `real`s and deck counts are integers.

Files, one module each:
- `arith.dfy`: minimum, maximum and multiplication facts on reals.
- `results.dfy`: the `Option` and `Result` types.
- `cards.dfy`: ranks and cards.
- `deck.dfy`: the shoe, the shuffle and counting.
- `win_model.dfy`: the win probability.
- `history.dfy`: hand records, rounding, profit and the bankroll chain.
- `statistics.dfy`: the statistics reduction.
- `engine.dfy`: configuration, bets, one hand, a run of hands.
- `session.dfy`: the session loop and whole-session properties.

The central invariant is `Engine.Valid`. It says:
- the deck count and the constants are in range;
- the shoe holds at least `threshold` cards;
- every recorded hand is settled;
- every recorded true count is within ±52.

An accepted configuration puts the threshold at 2.6 cards or more. So every
hand of every session finds the three cards it needs, and the
empty-shoe error path (`HandError.ExhaustedShoe`) is never taken from a
reachable game.

Two behaviours of the code are easy to misread, and the model keeps both as written:
- A hand record's `bankroll` is the bankroll before the hand. `game.js:139`
  reads it before the update at `game.js:144` (`History.HandRecord`, `Engine.HandEffect`).
- At a true count of 1 or less, `game.js:117` returns the base unit with
  neither the bet cap nor the bankroll applied:
  - `Engine.LowCountBetIgnoresBankroll`: such a bet can exceed the bankroll;
  - `Engine.SmallCapUndercutsBaseBet` and `Engine.SmallCapIsAccepted`: an
    accepted configuration can have a cap below the base unit, so a
    favourable count then draws a smaller bet than a neutral one.

## Model

| member | source | states |
|---|---|---|
| Cards.Card.Value | src/components/game.js:9-13 | point value lies in 2..11 and is 11 exactly for an ace |
| Cards.Card.Count | src/components/game.js:15-19 | Hi-Lo weight is -1, 0 or +1 |
| Cards.CountFollowsValue | src/components/game.js:9-19 | the weight is determined by the point value: +1 iff value ≤ 6, 0 iff 7..9, -1 iff 10 or 11 |
| Deck.OneSuitTallies | src/components/game.js:15-19 | each suit has five +1 ranks, three 0 ranks and five -1 ranks |
| Deck.HiLoSumIsTallyDifference | src/components/game.js:58-60 | the running count equals the number of +1 cards minus the number of -1 cards |
| Deck.Unshuffled | src/components/game.js:33-39 | the build loop (decks, then suits, then ranks) yields 52·numDecks cards |
| Deck.UnshuffledBalanced | src/components/game.js:28-39 | a freshly built shoe of any number of decks has running count 0 |
| Deck.UnshuffledMultiplicity | src/components/game.js:33-39 | the built shoe holds every card (rank) exactly 4·numDecks times |
| Deck.HiLoSum | src/components/game.js:59 | the sum of a pile's Hi-Lo weights lies between −(pile size) and +(pile size) |
| Deck.HiLoSumPermutation | src/components/game.js:58-60 | the running count depends only on the multiset of cards, not their order |
| Deck.Pick | src/components/game.js:45 | `floor(r·(i+1))` for r in [0,1) is a valid swap index in [0, i] |
| Deck.Choices | src/components/game.js:44-45 | any sequence of uniform numbers yields a valid set of Fisher–Yates index choices |
| Deck.Swap | src/components/game.js:46 | the exchange swaps positions i and j and leaves every other position unchanged |
| Deck.SwapPermutes | src/components/game.js:46 | an exchange keeps the pile's multiset |
| Deck.Shuffle | src/components/game.js:43-48 | the Fisher–Yates passes from the last position down to 1 yield a permutation of the pile (same length, same multiset) for any valid index choices |
| Deck.ShuffleCards | src/components/game.js:43-48 | the in-place loop computes the shuffle and keeps the length and the multiset |
| Deck.Reset | src/components/game.js:28-41 | a reset shoe has exactly 52·numDecks cards, each card 4·numDecks times, and running count 0 |
| Deck.Draw | src/components/game.js:50-52 | a draw removes exactly the last card and returns it; the empty shoe is the only failure |
| Deck.DrawUpdatesCount | src/components/game.js:50-60 | drawing a card takes its weight out of the running count |
| Deck.RemainingGovernsDeals | src/components/game.js:54-56 | the remaining-card count is zero exactly when a draw fails, and at least 3 exactly when a hand can be dealt |
| Deck.RunningCount | src/components/game.js:58-60 | the running count is the number of +1 cards left minus the number of −1 cards left, so its magnitude is at most the cards left |
| Deck.DealThree | src/components/game.js:127-128 | dealing a hand takes the last three cards in order (player, player, upcard); fails iff fewer than 3 remain |
| Deck.TrueCount | src/components/game.js:62-65 | with ≤ 52 cards left the true count equals the running count; otherwise true count × decks remaining = running count; it has the running count's sign and never a larger magnitude |
| Deck.TrueCountBounded | src/components/game.js:62-65 | the true count lies in [-52, 52] |
| WinModel.CountEffect | src/components/game.js:96-112 | the slope for an upcard is between 0.008 and 0.025 |
| WinModel.DefaultEffectUnused | src/components/game.js:96-112 | every rank has a non-zero table entry, so the 0.02 fallback is never used |
| WinModel.LowUpcardsRespondMore | src/components/game.js:96-112 | against any low upcard (2-6) the count has a steeper effect than against any high one (10-A) |
| WinModel.WinRate | src/components/game.js:113 | the win probability lies in [0.35, 0.65] and equals the linear estimate unless that leaves the band, when it is the nearer bound |
| WinModel.NeutralCountWinRate | src/components/game.js:95-113 | at true count 0 the win probability is 0.485 for every upcard |
| WinModel.WinRateMonotone | src/components/game.js:94-114 | a higher true count never lowers the win probability for the same upcard |
| Engine.ConfigOf | src/components/game.js:69-76 | every option left out takes its default; every option given is used unchanged |
| Engine.DefaultsAccepted | src/components/game.js:69-91 | the default options pass validation, giving a bet cap of 500 and a threshold of 78 cards |
| Engine.Validate | src/components/game.js:79-83 | a configuration is refused iff some range check fails, and the reported error is the first failing check in source order |
| Engine.MaxBetFor | src/components/game.js:90 | with a valid percentage and a non-negative bankroll the cap lies between 1% and 10% of the starting bankroll |
| Engine.ThresholdFor | src/components/game.js:91 | with a valid deck count and penetration the reshuffle threshold lies between 5% and 50% of a full shoe |
| Engine.AcceptedBounds | src/components/game.js:79-91 | for an accepted configuration the threshold is in [2.6, 26·numDecks] and the bet cap is at least 10 |
| Engine.NewGame | src/components/game.js:79-91 | creation fails iff validation fails (with that error); on success the game is valid, has an empty history, the configured bankroll and base unit, cap = bankroll·pct/100, threshold = (100−p)/100·numDecks·52, and a full zero-count shoe |
| Engine.ValidCanDeal | src/components/game.js:122-150 | every valid game holds the three cards a hand needs |
| Engine.CountBetMonotone | src/components/game.js:118 | the uncapped count bet never falls as the count rises |
| Engine.CalculateBet | src/components/game.js:116-120 | at count ≤ 1 the bet is the base unit; above 1 it is the least of base·floor(tc), the cap and the bankroll |
| Engine.BetMonotone | src/components/game.js:116-120 | when cap and bankroll allow the base unit, a higher count never lowers the bet |
| Engine.BetMonotoneAboveOne | src/components/game.js:118-119 | above a count of 1 a higher count never lowers the bet |
| Engine.LowCountBetIgnoresBankroll | src/components/game.js:117 | at count ≤ 1 the bet exceeds a bankroll smaller than the base unit |
| Engine.SmallCapUndercutsBaseBet | src/components/game.js:117-119 | with a cap below the base unit, a favourable count bets less than a neutral one |
| Engine.SmallCapIsAccepted | src/components/game.js:79-90 | validation admits a configuration whose cap (10) is below its base unit (25) |
| Engine.NegativeBankrollBet | src/components/game.js:117-144 | once the bankroll is negative, every bet above a count of 1 is the negative bankroll |
| Engine.SimulateHand | src/components/game.js:122-153 | a hand fails iff the shoe holds fewer than 3 cards |
| Engine.SimulateHandEffect | src/components/game.js:122-153 | a hand reads the count before the deal, rounds the recorded count to cents, bets CalculateBet, deals the last three cards, wins iff u < WinRate, records the pre-hand bankroll, adds ±bet to the bankroll, appends one record, and either drops exactly three cards or rebuilds the shoe when below the threshold |
| Engine.HandPreservesValid | src/components/game.js:122-153 | a hand from a valid game succeeds, keeps the game valid with the same constants, and appends exactly its record |
| Engine.HandKeepsShoeDrawn | src/components/game.js:127-150 | after a hand the shoe's cards are still a sub-multiset of a full shoe |
| Engine.Run | src/components/game.js:155-158 | playing any number of hands keeps the game valid, keeps the constants, and extends the history by one record per hand without changing earlier ones |
| Engine.RunStep | src/components/game.js:156-158 | playing one more element of the draws is playing one more hand |
| Engine.RunKeepsLedger | src/components/game.js:139-144 | over any run each hand was dealt at the bankroll the previous one left |
| Engine.RunKeepsShoeDrawn | src/components/game.js:148-158 | over any run the shoe stays a sub-multiset of a full shoe |
| History.RoundCents | src/components/game.js:134 | the recorded count is a whole number of cents within half a cent of the exact count, with the same sign |
| History.RoundCentsIdempotent | src/components/game.js:134 | rounding a recorded count again changes nothing |
| History.RoundCentsBounded | src/components/game.js:134 | rounding keeps a count within whole bounds it already lies within |
| History.TotalProfit | src/components/game.js:166 | the summed amounts are non-negative when no hand lost money and non-positive when no hand won any |
| History.LedgerProfit | src/components/game.js:144 | along a bankroll chain the final bankroll is the start plus the sum of the amounts |
| History.WinningHands | src/components/game.js:165 | the number of won hands is at most the number of hands |
| Statistics.CountRange | src/components/game.js:174 | a hand's bucket is the whole number k with k ≤ recorded count < k + 1 |
| Statistics.Buckets | src/components/game.js:173-179 | exactly the buckets some hand falls in are present, each with that bucket's hand and win counts (0 < total, wins ≤ total) |
| Statistics.HandsByCount | src/components/game.js:181-184 | a bucket's hand count equals the number of hands whose floored count is that key |
| Statistics.WinRateByCount | src/components/game.js:181-183 | win rates have the same keys as the hand counts, and each is the bucket's wins over its hands times 100, hence in [0, 100] |
| Statistics.MaxBet | src/components/game.js:168 | the largest bet bounds every bet and is one of them |
| Statistics.GetStatistics | src/components/game.js:162-186 | totalHands = history length, wins ≤ total, the average and maximum are absent exactly for an empty history, the maximum bounds and attains a bet, the histogram matches the reference counts, and each bucket's win rate is its wins over its hands times 100 |
| Statistics.HistogramTotal | src/components/game.js:173-184 | over any key range that holds every hand's bucket, the bucket counts sum to totalHands |
| Statistics.SumTrueCountBounds | src/components/game.js:167 | the summed recorded counts lie between lo·n and hi·n when all n counts lie in [lo, hi] |
| Statistics.AverageWithinRange | src/components/game.js:167 | the average true count lies within any bounds all recorded counts lie within |
| Session.SimulateSession | src/components/game.js:155-160 | the loop plays exactly the given hands and returns the statistics of the whole history, whose total is the earlier hands plus numHands |
| Session.SessionAccounting | src/components/game.js:85-166 | a session from an accepted configuration always starts; every hand is dealt at the previous hand's resulting bankroll; the final bankroll is the starting one plus the reported total profit |
| Session.HistogramCoversHistory | src/components/game.js:173-184 | in any valid game the histogram's keys lie in [-52, 52] and its counts sum to the number of hands |
| Session.AverageCountBounded | src/components/game.js:167 | in any valid game with hands, the reported average true count lies in [-52, 52] |

## Left out

- The React UI files and tooltip text are not part of this model. They only call the engine and render its results.
- Card suits are not represented. They never affect a value, a weight or an outcome.
- `Math.random` (`game.js:45`, `game.js:131`) is replaced by parameters: the shuffle's index choices and the per-hand uniform number `u`. Whether the shuffle is uniformly distributed is not stated.
- IEEE-754 floating point is modelled as exact reals. `toFixed(2)` read back by `parseFloat` is modelled by `History.RoundCents` (decimal rounding, halves away from zero), not by binary rounding. The `Deck.Pick` index is exact.
- The `toFixed(1)` string in `winRateByCount` is kept as the unrounded percentage.
- The engine's JavaScript exceptions are values instead. A refused configuration is `Err(ConfigError)`. A hand dealt from fewer than three cards is `Err(HandError.ExhaustedShoe)`. In the source, `pop()` on the emptied shoe returns `undefined`, and the `TypeError` comes at `game.js:112`, when the upcard's `rank` is read.
- Engine.SimulateHand: on the error path the source has already popped every card left in the shoe before it throws; the model returns only the error and no changed game. `Engine.HandPreservesValid` shows that a valid game never takes this path.
- Statistics.GetStatistics: for an empty history the average and the maximum bet are `None`. JavaScript computes `0/0` (NaN) and `Math.max()` (−Infinity) there.
- `numDecks` is an integer. A fractional or non-numeric deck count passed to the constructor, and a negative or fractional `numHands`, are not modelled (`numHands` is a `nat`).
- `SessionAccounting` starts from a freshly created game. `SimulateSession` works on any valid game.
- That `getStatistics` does not mutate the history, so a second call returns the same result, holds by construction: it is a pure function here.
- Session.SimulateSession: the default of 100 hands for `simulateSession()` is not modelled; the caller always passes the count.
