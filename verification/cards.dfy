/** A playing card as the simulator sees it: its rank, its blackjack point
    value and its Hi-Lo counting weight. The suit has no effect on play and
    is not represented. */
module Cards {

  datatype Rank = Two | Three | Four | Five | Six | Seven | Eight | Nine | Ten | Jack | Queen | King | Ace

  datatype Card = Card(rank: Rank) {

    /** Blackjack point value: an ace is 11, a court card 10, a numeral card its face value. */
    function Value(): (v: int)
      ensures 2 <= v <= 11
      ensures v == 11 <==> rank == Ace
    {
      match rank
      case Ace => 11
      case King | Queen | Jack => 10
      case Two => 2
      case Three => 3
      case Four => 4
      case Five => 5
      case Six => 6
      case Seven => 7
      case Eight => 8
      case Nine => 9
      case Ten => 10
    }

    /** Hi-Lo weight: +1 for the low ranks 2 to 6, -1 for 10, J, Q, K and A, 0 otherwise. */
    function Count(): (w: int)
      ensures -1 <= w <= 1
    {
      match rank
      case Two | Three | Four | Five | Six => 1
      case Seven | Eight | Nine => 0
      case Ten | Jack | Queen | King | Ace => -1
    }
  }

  /** The Hi-Lo weight is a function of the point value alone: cards worth
      2 to 6 count +1, cards worth 7 to 9 count 0, cards worth 10 or 11 count -1. */
  lemma CountFollowsValue(c: Card)
    ensures c.Count() == 1 <==> c.Value() <= 6
    ensures c.Count() == 0 <==> 7 <= c.Value() <= 9
    ensures c.Count() == -1 <==> c.Value() >= 10
  {
    match c.rank
    case Two => case Three => case Four => case Five => case Six =>
    case Seven => case Eight => case Nine =>
    case Ten => case Jack => case Queen => case King => case Ace =>
  }
}
