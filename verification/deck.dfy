/** The shoe: a multi-deck pile of cards that is built in a fixed order,
    shuffled by Fisher-Yates, dealt from its end, and counted with Hi-Lo.
    The random numbers the shuffle consumes are parameters here. */
module Deck {
  import opened Cards
  import opened Results
  import opened Arith

  /** Cards in a full shoe of `numDecks` standard 52-card decks. */
  function ShoeSize(numDecks: nat): nat
  {
    52 * numDecks
  }

  /** A shoe of `numDecks` decks; `cards` is the draw pile, dealt from its last element. */
  datatype Shoe = Shoe(numDecks: nat, cards: seq<Card>)

  /** The Hi-Lo groups of one suit, in build order: 2 to 6, 7 to 9, 10 to ace. */
  const LowCards: seq<Card> := [Card(Two), Card(Three), Card(Four), Card(Five), Card(Six)]
  const NeutralCards: seq<Card> := [Card(Seven), Card(Eight), Card(Nine)]
  const HighCards: seq<Card> := [Card(Ten), Card(Jack), Card(Queen), Card(King), Card(Ace)]

  /** One suit in build order: the thirteen ranks from 2 to ace. */
  const OneSuit: seq<Card> := LowCards + NeutralCards + HighCards

  /** One deck in build order: the four suits one after another. */
  const OneDeck: seq<Card> := OneSuit + OneSuit + OneSuit + OneSuit

  /** `n` copies of the pile `d`, one after another. */
  function Repeat(d: seq<Card>, n: nat): (s: seq<Card>)
    ensures |s| == |d| * n
  {
    if n == 0 then [] else Repeat(d, n - 1) + d
  }

  /** The shoe before shuffling: `numDecks` decks one after another. */
  function Unshuffled(numDecks: nat): (s: seq<Card>)
    ensures |s| == ShoeSize(numDecks)
  {
    Repeat(OneDeck, numDecks)
  }

  // ---------------------------------------------------------------------------
  // Counting

  /** Sum of the Hi-Lo weights of a pile of cards. */
  function HiLoSum(s: seq<Card>): (n: int)
    ensures -|s| <= n <= |s|
  {
    if |s| == 0 then 0 else s[0].Count() + HiLoSum(s[1..])
  }

  /** Number of cards in `s` whose Hi-Lo weight is `w`. */
  function Tally(s: seq<Card>, w: int): int
  {
    if |s| == 0 then 0 else (if s[0].Count() == w then 1 else 0) + Tally(s[1..], w)
  }

  lemma {:induction false} HiLoSumAppend(a: seq<Card>, b: seq<Card>)
    ensures HiLoSum(a + b) == HiLoSum(a) + HiLoSum(b)
  {
    if |a| == 0 {
      assert a + b == b;
    } else {
      assert (a + b)[1..] == a[1..] + b;
      HiLoSumAppend(a[1..], b);
    }
  }

  lemma {:induction false} TallyAppend(a: seq<Card>, b: seq<Card>, w: int)
    ensures Tally(a + b, w) == Tally(a, w) + Tally(b, w)
  {
    if |a| == 0 {
      assert a + b == b;
    } else {
      assert (a + b)[1..] == a[1..] + b;
      TallyAppend(a[1..], b, w);
    }
  }

  /** The running count is the number of low cards minus the number of high cards. */
  lemma {:induction false} HiLoSumIsTallyDifference(s: seq<Card>)
    ensures HiLoSum(s) == Tally(s, 1) - Tally(s, -1)
  {
    if |s| > 0 {
      HiLoSumIsTallyDifference(s[1..]);
    }
  }

  lemma LowTallies()
    ensures Tally(LowCards, 1) == 5 && Tally(LowCards, 0) == 0 && Tally(LowCards, -1) == 0
  {
  }

  lemma NeutralTallies()
    ensures Tally(NeutralCards, 1) == 0 && Tally(NeutralCards, 0) == 3 && Tally(NeutralCards, -1) == 0
  {
  }

  lemma HighTallies()
    ensures Tally(HighCards, 1) == 0 && Tally(HighCards, 0) == 0 && Tally(HighCards, -1) == 5
  {
  }

  /** Each suit holds five +1 cards (2 to 6), three 0 cards (7 to 9) and five -1 cards (10 to ace). */
  lemma OneSuitTallies()
    ensures Tally(OneSuit, 1) == 5
    ensures Tally(OneSuit, 0) == 3
    ensures Tally(OneSuit, -1) == 5
  {
    LowTallies();
    NeutralTallies();
    HighTallies();
    forall w: int ensures Tally(OneSuit, w) == Tally(LowCards, w) + Tally(NeutralCards, w) + Tally(HighCards, w) {
      TallyAppend(LowCards, NeutralCards, w);
      TallyAppend(LowCards + NeutralCards, HighCards, w);
    }
  }

  /** The running count of any permutation of a pile equals that of the pile. */
  lemma {:induction false} HiLoSumPermutation(a: seq<Card>, b: seq<Card>)
    requires multiset(a) == multiset(b)
    ensures HiLoSum(a) == HiLoSum(b)
    decreases |a|
  {
    if |a| == 0 {
      assert |b| == |multiset(b)| == 0;
    } else {
      var x := a[0];
      assert x in multiset(b);
      var k :| 0 <= k < |b| && b[k] == x;
      var b' := b[..k] + b[k + 1..];
      RemoveOne(a, 0);
      assert a[..0] + a[1..] == a[1..];
      RemoveOne(b, k);
      var rest := multiset(a) - multiset{x};
      assert multiset(a[1..]) == rest;
      assert multiset(b') == rest;
      HiLoSumPermutation(a[1..], b');
      HiLoSumRemove(a, 0);
      HiLoSumRemove(b, k);
    }
  }

  /** Taking the card at `k` out of a pile takes one copy of it out of its contents. */
  lemma RemoveOne(s: seq<Card>, k: nat)
    requires k < |s|
    ensures multiset(s[..k] + s[k + 1..]) == multiset(s) - multiset{s[k]}
  {
    SplitAt(s, k);
  }

  lemma SplitAt(s: seq<Card>, k: nat)
    requires k < |s|
    ensures s == s[..k] + [s[k]] + s[k + 1..]
  {
  }

  /** Taking the card at `k` out of a pile takes its weight out of the running count. */
  lemma HiLoSumRemove(s: seq<Card>, k: nat)
    requires k < |s|
    ensures HiLoSum(s) == HiLoSum(s[..k] + s[k + 1..]) + s[k].Count()
  {
    SplitAt(s, k);
    HiLoSumAppend(s[..k] + [s[k]], s[k + 1..]);
    HiLoSumAppend(s[..k], [s[k]]);
    HiLoSumAppend(s[..k], s[k + 1..]);
    assert HiLoSum([s[k]]) == s[k].Count() by {
      assert [s[k]][1..] == [];
    }
  }

  /** One deck counts to zero: its four suits each count to zero. */
  lemma OneDeckBalanced()
    ensures HiLoSum(OneDeck) == 0
  {
    OneSuitTallies();
    HiLoSumIsTallyDifference(OneSuit);
    HiLoSumAppend(OneSuit, OneSuit);
    HiLoSumAppend(OneSuit + OneSuit, OneSuit);
    HiLoSumAppend(OneSuit + OneSuit + OneSuit, OneSuit);
  }

  /** Copies of a pile that counts to zero count to zero. */
  lemma {:induction false} RepeatBalanced(d: seq<Card>, n: nat)
    requires HiLoSum(d) == 0
    ensures HiLoSum(Repeat(d, n)) == 0
  {
    if n > 0 {
      RepeatBalanced(d, n - 1);
      HiLoSumAppend(Repeat(d, n - 1), d);
    }
  }

  /** A full shoe of any number of decks counts to zero. */
  lemma UnshuffledBalanced(numDecks: nat)
    ensures HiLoSum(Unshuffled(numDecks)) == 0
  {
    OneDeckBalanced();
    RepeatBalanced(OneDeck, numDecks);
  }

  /** Position of a rank within a suit. */
  function RankPosition(r: Rank): (k: nat)
    ensures k < |OneSuit| && OneSuit[k] == Card(r)
  {
    match r
    case Two => 0
    case Three => 1
    case Four => 2
    case Five => 3
    case Six => 4
    case Seven => 5
    case Eight => 6
    case Nine => 7
    case Ten => 8
    case Jack => 9
    case Queen => 10
    case King => 11
    case Ace => 12
  }

  lemma SuitPositionsDistinct(k: nat)
    requires k < |OneSuit|
    ensures RankPosition(OneSuit[k].rank) == k
  {
  }

  lemma {:induction false} AbsentFromPile(s: seq<Card>, c: Card)
    requires forall i :: 0 <= i < |s| ==> s[i] != c
    ensures multiset(s)[c] == 0
  {
    assert c !in s;
  }

  lemma {:induction false} OnceInPile(s: seq<Card>, c: Card, k: nat)
    requires k < |s| && s[k] == c
    requires forall i :: 0 <= i < |s| && s[i] == c ==> i == k
    ensures multiset(s)[c] == 1
  {
    assert s == [s[0]] + s[1..];
    if k == 0 {
      AbsentFromPile(s[1..], c);
    } else {
      OnceInPile(s[1..], c, k - 1);
    }
  }

  /** Every card appears exactly once in a suit. */
  lemma SuitMultiplicity(c: Card)
    ensures multiset(OneSuit)[c] == 1
  {
    forall i | 0 <= i < |OneSuit| && OneSuit[i] == c
      ensures i == RankPosition(c.rank)
    {
      SuitPositionsDistinct(i);
    }
    OnceInPile(OneSuit, c, RankPosition(c.rank));
  }

  /** Every card appears four times in a deck, once per suit. */
  lemma DeckMultiplicity(c: Card)
    ensures multiset(OneDeck)[c] == 4
  {
    SuitMultiplicity(c);
    var m := multiset(OneSuit);
    assert multiset(OneDeck) == m + m + m + m;
  }

  /** `n` copies of a pile hold `n` times each of its cards. */
  lemma {:induction false} RepeatMultiplicity(d: seq<Card>, n: nat, c: Card)
    ensures multiset(Repeat(d, n))[c] == multiset(d)[c] * n
  {
    if n > 0 {
      var m := multiset(d)[c];
      RepeatMultiplicity(d, n - 1, c);
      assert multiset(Repeat(d, n - 1) + d) == multiset(Repeat(d, n - 1)) + multiset(d);
      assert m * (n - 1) + m == m * n;
    }
  }

  /** Every card appears `4 * numDecks` times in a full shoe. */
  lemma UnshuffledMultiplicity(numDecks: nat, c: Card)
    ensures multiset(Unshuffled(numDecks))[c] == 4 * numDecks
  {
    DeckMultiplicity(c);
    RepeatMultiplicity(OneDeck, numDecks, c);
  }

  // ---------------------------------------------------------------------------
  // Fisher-Yates shuffle

  /** Index choices a Fisher-Yates shuffle of `n` cards may use: at position `i`
      the card swaps with one at a position `j` in `[0, i]`. Entry 0 is never read. */
  predicate ValidChoices(js: seq<int>, n: nat)
  {
    |js| == n && forall i :: 0 <= i < n ==> 0 <= js[i] <= i
  }

  /** The index the source derives from one uniform random number `r` in `[0, 1)`
      at position `i`: the floor of `r * (i + 1)`. */
  function Pick(r: real, i: nat): (j: int)
    requires 0.0 <= r < 1.0
    ensures 0 <= j <= i
  {
    var x := r * (i + 1) as real;
    MulStrict(r, 1.0, (i + 1) as real);
    x.Floor
  }

  /** The choices a sequence of uniform random numbers produces, one per position. */
  function Choices(rs: seq<real>): (js: seq<int>)
    requires forall k :: 0 <= k < |rs| ==> 0.0 <= rs[k] < 1.0
    ensures ValidChoices(js, |rs|)
  {
    if |rs| == 0 then [] else Choices(rs[..|rs| - 1]) + [Pick(rs[|rs| - 1], |rs| - 1)]
  }

  /** `s` with the cards at positions `i` and `j` exchanged. */
  function Swap(s: seq<Card>, i: nat, j: nat): (t: seq<Card>)
    requires i < |s| && j < |s|
    ensures |t| == |s|
    ensures t[i] == s[j] && t[j] == s[i]
    ensures forall k :: 0 <= k < |s| && k != i && k != j ==> t[k] == s[k]
  {
    s[i := s[j]][j := s[i]]
  }

  /** An exchange keeps the pile's contents. */
  lemma SwapPermutes(s: seq<Card>, i: nat, j: nat)
    requires i < |s| && j < |s|
    ensures multiset(Swap(s, i, j)) == multiset(s)
  {
  }

  /** The Fisher-Yates passes for positions `i` down to 1. */
  function ShuffleDown(s: seq<Card>, js: seq<int>, i: nat): (t: seq<Card>)
    requires ValidChoices(js, |s|) && i < |s|
    ensures |t| == |s|
    decreases i
  {
    if i == 0 then s else ShuffleDown(Swap(s, i, js[i]), js, i - 1)
  }

  /** The passes only exchange cards, so they keep the pile's contents. */
  lemma {:induction false} ShuffleDownPermutes(s: seq<Card>, js: seq<int>, i: nat)
    requires ValidChoices(js, |s|) && i < |s|
    ensures multiset(ShuffleDown(s, js, i)) == multiset(s)
    decreases i
  {
    if i > 0 {
      SwapPermutes(s, i, js[i]);
      ShuffleDownPermutes(Swap(s, i, js[i]), js, i - 1);
    }
  }

  /** The Fisher-Yates shuffle of `s` under the index choices `js`: a
      permutation of `s`, whatever the choices. */
  function Shuffle(s: seq<Card>, js: seq<int>): (t: seq<Card>)
    requires ValidChoices(js, |s|)
    ensures |t| == |s|
    ensures multiset(t) == multiset(s)
  {
    if |s| == 0 then s
    else
      ShuffleDownPermutes(s, js, |s| - 1);
      ShuffleDown(s, js, |s| - 1)
  }

  /** The shuffle loop as the source runs it: positions from the last down to
      1, each exchanged in place with the chosen earlier-or-equal position. */
  method ShuffleCards(s: seq<Card>, js: seq<int>) returns (t: seq<Card>)
    requires ValidChoices(js, |s|)
    ensures t == Shuffle(s, js)
    ensures |t| == |s| && multiset(t) == multiset(s)
  {
    t := s;
    if |s| == 0 {
      return;
    }
    var i: nat := |s| - 1;
    while i > 0
      invariant i < |t| == |s|
      invariant ShuffleDown(t, js, i) == Shuffle(s, js)
    {
      var j := js[i];
      t := t[i := t[j]][j := t[i]];
      i := i - 1;
    }
  }

  // ---------------------------------------------------------------------------
  // Shoe operations

  /** A freshly built shoe of `numDecks` full decks, shuffled with the index choices `js`. */
  function Reset(numDecks: nat, js: seq<int>): (r: Shoe)
    requires ValidChoices(js, ShoeSize(numDecks))
    ensures r.numDecks == numDecks
    ensures |r.cards| == ShoeSize(numDecks)
    ensures multiset(r.cards) == multiset(Unshuffled(numDecks))
    ensures forall c: Card :: multiset(r.cards)[c] == 4 * numDecks
    ensures RunningCount(r) == 0
  {
    var cards := Shuffle(Unshuffled(numDecks), js);
    forall c: Card ensures multiset(cards)[c] == 4 * numDecks {
      UnshuffledMultiplicity(numDecks, c);
    }
    UnshuffledBalanced(numDecks);
    HiLoSumPermutation(cards, Unshuffled(numDecks));
    Shoe(numDecks, cards)
  }

  /** Removes and returns the last card; nothing when the shoe is empty. */
  function Draw(shoe: Shoe): (r: Option<(Card, Shoe)>)
    ensures r.None? <==> |shoe.cards| == 0
    ensures r.Some? ==> r.value.1.numDecks == shoe.numDecks
    ensures r.Some? ==> r.value.1.cards + [r.value.0] == shoe.cards
  {
    if |shoe.cards| == 0 then None
    else Some((shoe.cards[|shoe.cards| - 1], Shoe(shoe.numDecks, shoe.cards[..|shoe.cards| - 1])))
  }

  /** Three draws in a row, as a hand is dealt: the two player cards first,
      then the dealer's upcard; nothing when any of the draws finds the shoe empty. */
  function DealThree(shoe: Shoe): (r: Option<(Card, Card, Card, Shoe)>)
    ensures r.None? <==> |shoe.cards| < 3
    ensures r.Some? ==> r.value.3.numDecks == shoe.numDecks
    ensures r.Some? ==> r.value.3.cards + [r.value.2, r.value.1, r.value.0] == shoe.cards
    ensures r.Some? ==> r.value.0 == shoe.cards[|shoe.cards| - 1] && r.value.1 == shoe.cards[|shoe.cards| - 2]
    ensures r.Some? ==> r.value.2 == shoe.cards[|shoe.cards| - 3] && r.value.3.cards == shoe.cards[..|shoe.cards| - 3]
  {
    match Draw(shoe)
    case None => None
    case Some((first, s1)) =>
      match Draw(s1)
      case None => None
      case Some((second, s2)) =>
        match Draw(s2)
        case None => None
        case Some((third, s3)) =>
          assert s3.cards + [third, second, first] == s3.cards + [third] + [second] + [first];
          Some((first, second, third, s3))
  }

  /** Drawing a card takes its weight out of the running count. */
  lemma DrawUpdatesCount(shoe: Shoe)
    requires |shoe.cards| > 0
    ensures RunningCount(Draw(shoe).value.1) == RunningCount(shoe) - Draw(shoe).value.0.Count()
  {
    var (c, rest) := Draw(shoe).value;
    HiLoSumAppend(rest.cards, [c]);
  }

  /** Cards left to deal. */
  function Remaining(shoe: Shoe): nat
  {
    |shoe.cards|
  }

  /** A draw succeeds exactly when a card is left, and a hand can be dealt
      exactly when three are. */
  lemma RemainingGovernsDeals(shoe: Shoe)
    ensures Remaining(shoe) == 0 <==> Draw(shoe).None?
    ensures Remaining(shoe) >= 3 <==> DealThree(shoe).Some?
  {
  }

  /** Hi-Lo running count of the cards still in the shoe: the low cards left
      minus the high cards left, so never more than the cards left either way. */
  function RunningCount(shoe: Shoe): (rc: int)
    ensures rc == Tally(shoe.cards, 1) - Tally(shoe.cards, -1)
    ensures -(Remaining(shoe) as int) <= rc <= Remaining(shoe)
  {
    HiLoSumIsTallyDifference(shoe.cards);
    HiLoSum(shoe.cards)
  }

  /** The running count divided by the decks remaining, where fewer than one
      deck's worth of cards still counts as one deck. */
  function TrueCount(shoe: Shoe): (tc: real)
    ensures Remaining(shoe) <= 52 ==> tc == RunningCount(shoe) as real
    ensures Remaining(shoe) > 52 ==> tc * (Remaining(shoe) as real / 52.0) == RunningCount(shoe) as real
    ensures RunningCount(shoe) >= 0 ==> 0.0 <= tc <= RunningCount(shoe) as real
    ensures RunningCount(shoe) < 0 ==> RunningCount(shoe) as real <= tc < 0.0
  {
    var decks := Max(Remaining(shoe) as real / 52.0, 1.0);
    var rc := RunningCount(shoe) as real;
    DivideByDecks(rc, decks);
    rc / decks
  }

  lemma DivideByDecks(rc: real, decks: real)
    requires decks >= 1.0
    ensures rc / decks * decks == rc
    ensures rc >= 0.0 ==> 0.0 <= rc / decks <= rc
    ensures rc < 0.0 ==> rc <= rc / decks < 0.0
  {
    var tc := rc / decks;
    if rc >= 0.0 {
      if tc < 0.0 {
        MulStrict(tc, 0.0, decks);
      }
      MulMono(1.0, decks, tc);
    } else {
      if tc >= 0.0 {
        MulMono(0.0, tc, decks);
      }
      MulMono(1.0, decks, -tc);
    }
  }

  /** The true count never exceeds one per card-of-a-deck: its magnitude is at most 52. */
  lemma TrueCountBounded(shoe: Shoe)
    ensures -(52.0) <= TrueCount(shoe) <= 52.0
  {
    if Remaining(shoe) > 52 {
      var n := Remaining(shoe) as real;
      var rc := RunningCount(shoe) as real;
      assert -n <= rc <= n;
      ScaledBound(TrueCount(shoe), rc, n / 52.0);
    }
  }

  /** A quotient by `decks` of a value within `52 * decks` of zero lies within 52 of zero. */
  lemma ScaledBound(tc: real, rc: real, decks: real)
    requires decks > 0.0 && tc * decks == rc
    requires -(52.0 * decks) <= rc <= 52.0 * decks
    ensures -(52.0) <= tc <= 52.0
  {
    if tc > 52.0 {
      MulStrict(52.0, tc, decks);
    } else if tc < -(52.0) {
      MulStrict(tc, -(52.0), decks);
    }
  }
}
