/** A playing card: an immutable (rank, suit) pair and its text form "[<rank><suit>]". */
module Cards {

  datatype Option<T> = None | Some(value: T)

  /** The four suits. */
  datatype Suit = Hearts | Diamonds | Clubs | Spades

  /** Ranks run from Two (2) to Ace (14). */
  const Two: int := 2
  const Ten: int := 10
  const Jack: int := 11
  const Queen: int := 12
  const King: int := 13
  const Ace: int := 14

  /** A card holds exactly the rank and suit it was built with; both are read-only. */
  datatype Card = Card(rank: int, suit: Suit)

  predicate ValidRank(r: int) {
    Two <= r <= Ace
  }

  predicate ValidCard(c: Card) {
    ValidRank(c.rank)
  }

  /** Suit symbols; every suit has its own symbol. */
  function SuitSymbol(s: Suit): (r: char)
  {
    match s
    case Hearts => '\U{2665}'
    case Diamonds => '\U{2666}'
    case Clubs => '\U{2663}'
    case Spades => '\U{2660}'
  }

  /** Rank symbols: digits for Two to Nine, then T, J, Q, K, A; anything else is '?'. */
  function RankSymbol(rank: int): (r: char)
  {
    if 2 <= rank <= 9 then '0' + (rank as char)
    else if rank == Ten then 'T'
    else if rank == Jack then 'J'
    else if rank == Queen then 'Q'
    else if rank == King then 'K'
    else if rank == Ace then 'A'
    else '?'
  }

  /** The text form of a card: an opening bracket, the rank symbol, the suit symbol, a closing bracket. */
  function ToString(c: Card): (s: string)
    ensures |s| == 4 && s[0] == '[' && s[3] == ']'
    ensures s[1] == RankSymbol(c.rank) && s[2] == SuitSymbol(c.suit)
  {
    ['['] + [RankSymbol(c.rank)] + [SuitSymbol(c.suit)] + [']']
  }

  /** Reads a rank symbol back; the partner of RankSymbol. */
  function RankOfSymbol(ch: char): Option<int>
  {
    if '2' <= ch <= '9' then Some((ch - '0') as int)
    else if ch == 'T' then Some(Ten)
    else if ch == 'J' then Some(Jack)
    else if ch == 'Q' then Some(Queen)
    else if ch == 'K' then Some(King)
    else if ch == 'A' then Some(Ace)
    else None
  }

  /** Reads a suit symbol back; the partner of SuitSymbol. */
  function SuitOfSymbol(ch: char): Option<Suit>
  {
    if ch == '\U{2665}' then Some(Hearts)
    else if ch == '\U{2666}' then Some(Diamonds)
    else if ch == '\U{2663}' then Some(Clubs)
    else if ch == '\U{2660}' then Some(Spades)
    else None
  }

  /** Reads the text form of a card back; the partner of ToString. */
  function Parse(s: string): Option<Card>
  {
    if |s| != 4 || s[0] != '[' || s[3] != ']' then None
    else match (RankOfSymbol(s[1]), SuitOfSymbol(s[2]))
      case (Some(r), Some(u)) => Some(Card(r, u))
      case _ => None
  }

  /** Only ranks outside Two..Ace are shown as '?'. */
  lemma RankSymbolUnknown(rank: int)
    ensures RankSymbol(rank) == '?' <==> !ValidRank(rank)
  {
  }

  /** Each valid rank has its own symbol, and reading it back gives the rank. */
  lemma RankSymbolRoundTrip(rank: int)
    requires ValidRank(rank)
    ensures RankOfSymbol(RankSymbol(rank)) == Some(rank)
  {
  }

  /** Reading a suit symbol back gives the suit. */
  lemma SuitSymbolRoundTrip(s: Suit)
    ensures SuitOfSymbol(SuitSymbol(s)) == Some(s)
  {
  }

  /** Reading the text form of a valid card back gives the card. */
  lemma ParseToString(c: Card)
    requires ValidCard(c)
    ensures Parse(ToString(c)) == Some(c)
  {
    RankSymbolRoundTrip(c.rank);
    SuitSymbolRoundTrip(c.suit);
  }

  /** Distinct valid cards are shown as distinct strings. */
  lemma ToStringInjective(c1: Card, c2: Card)
    requires ValidCard(c1) && ValidCard(c2)
    ensures ToString(c1) == ToString(c2) ==> c1 == c2
  {
    ParseToString(c1);
    ParseToString(c2);
  }
}
