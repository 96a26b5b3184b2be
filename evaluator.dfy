/**
 * The hand evaluator: a player's hand and the board become one pool, the pool is sorted
 * by descending rank and grouped by rank and by suit, and a cascade of checks from the
 * strongest category down returns the first that matches.
 */
module Evaluator {
  import opened Cards
  import opened Pool
  import opened Straights

  /** The categories, weakest first; RoyalFlush exists as a value but is never produced. */
  datatype HandRank =
    | HighCard | OnePair | TwoPair | ThreeOfAKind | Straight
    | Flush | FullHouse | FourOfAKind | StraightFlush | RoyalFlush
  {
    /** The enum's integer value, which a HandEvaluation stores. */
    function Value(): int {
      match this
      case HighCard => 0
      case OnePair => 1
      case TwoPair => 2
      case ThreeOfAKind => 3
      case Straight => 4
      case Flush => 5
      case FullHouse => 6
      case FourOfAKind => 7
      case StraightFlush => 8
      case RoyalFlush => 9
    }
  }

  /** The outcome of evaluating one pool; the kicker is empty unless set. */
  datatype HandEvaluation = HandEvaluation(rank: int, primary: int, secondary: int, kicker: seq<int>)

  /** A player is known to the evaluator only by an identity and the cards in hand. */
  datatype Player = Player(name: string, hand: seq<Card>)

  datatype PlayerResult = PlayerResult(player: Player, evaluation: HandEvaluation)

  /** What a successful category check hands back through its out-parameters. */
  datatype Made = Made(primary: int, secondary: int, kicker: seq<int>)

  /** A pool the evaluator can handle: valid ranks, and at least the two cards HighCard reads. */
  predicate Evaluable(pool: seq<Card>) {
    AllValid(pool) && |pool| >= 2
  }

  // ----- the category checks -----

  /** IsFourOfAKind: the first group of four; every card of the other-sized groups, in group order, is the kicker. */
  function IsFourOfAKind(rankGroups: seq<Group>): Option<Made>
  {
    match FirstWithCount(rankGroups, 4)
    case None => None
    case Some(quad) => Some(Made(quad, 0, Expand(WithoutCount(rankGroups, 4))))
  }

  /** IsFullHouse: the first group of three and the first group of two must both exist. */
  function IsFullHouse(rankGroups: seq<Group>): Option<Made>
  {
    var tripRank := FirstWithCount(rankGroups, 3);
    var pairRank := FirstWithCount(rankGroups, 2);
    var used := (if tripRank.Some? then {tripRank.value} else {}) + (if pairRank.Some? then {pairRank.value} else {});
    var kicker := Expand(WithoutRanks(rankGroups, used));
    if tripRank.Some? && pairRank.Some? then Some(Made(tripRank.value, pairRank.value, kicker))
    else None
  }

  /** The first of the largest suit groups (a stable sort by size, then the first). */
  function LargestGroup(suitGroups: seq<seq<Card>>): (g: seq<Card>)
    requires |suitGroups| > 0
    ensures g in suitGroups
    ensures forall h :: h in suitGroups ==> |h| <= |g|
  {
    if |suitGroups| == 1 then suitGroups[0]
    else
      var rest := LargestGroup(suitGroups[1..]);
      assert forall h :: h in suitGroups ==> h == suitGroups[0] || h in suitGroups[1..];
      if |suitGroups[0]| >= |rest| then suitGroups[0] else rest
  }

  /** IsFlush: the largest suit group has five cards or more; its top rank is the primary. */
  function IsFlush(suitGroups: seq<seq<Card>>): Option<int>
    requires |suitGroups| > 0
  {
    var largest := LargestGroup(suitGroups);
    if |largest| >= 5 then Some(MaxOf(Ranks(largest))) else None
  }

  /**
   * IsThreeOfAKind: the first group of three; the other ranks in descending order give the
   * secondary (the first of them) and the kicker (the rest).
   */
  function IsThreeOfAKind(cards: seq<Card>): Option<Made>
    requires SortedByRankDesc(cards)
  {
    match FirstWithCount(RankGroups(cards), 3)
    case None => None
    case Some(tripRank) =>
      var remaining := SortDesc(RanksExcept(cards, {tripRank}));
      var secondary := if |remaining| >= 1 then remaining[0] else 0;
      var kicker := if |remaining| >= 2 then remaining[1..] else [];
      Some(Made(tripRank, secondary, kicker))
  }

  /**
   * IsTwoPair: the ranks of all groups of two, descending; with two or more, the top two
   * are the pairs and the ranks outside them, in card order, the kicker (or [0] if none).
   */
  function IsTwoPair(cards: seq<Card>): Option<Made>
    requires SortedByRankDesc(cards)
  {
    var pairs := SortDesc(RanksWithCount(RankGroups(cards), 2));
    if |pairs| >= 2 then
      var rest := RanksExcept(cards, {pairs[0], pairs[1]});
      Some(Made(pairs[0], pairs[1], if rest == [] then [0] else rest))
    else None
  }

  /** IsOnePair: the first group of two; every card of the other-sized groups is the kicker. */
  function IsOnePair(rankGroups: seq<Group>): Option<Made>
  {
    match FirstWithCount(rankGroups, 2)
    case None => None
    case Some(pairRank) => Some(Made(pairRank, 0, Expand(WithoutCount(rankGroups, 2))))
  }

  /** HighCard: the first two cards' ranks, and the ranks of the rest, in card order. */
  function HighCardOf(cards: seq<Card>): Made
    requires |cards| >= 2
  {
    Made(cards[0].rank, cards[1].rank, Ranks(cards[2..]))
  }

  // ----- the cascade -----

  lemma SortedPoolValid(pool: seq<Card>)
    requires AllValid(pool)
    ensures AllValid(SortByRankDesc(pool))
  {
    var cards := SortByRankDesc(pool);
    SortByRankDescMultiset(pool);
    forall i | 0 <= i < |cards| ensures ValidCard(cards[i]) {
      assert cards[i] in multiset(pool);
    }
  }

  lemma SuitGroupsNonEmpty(cards: seq<Card>)
    requires |cards| > 0
    ensures |SuitGroups(cards)| > 0
  {
    SuitGroupsSpec(cards);
    assert cards[0] in OfSuit(cards, cards[0].suit);
  }

  /**
   * The cascade itself, over the sorted cards and their rank and suit groups: the first
   * category whose check succeeds, from StraightFlush down to HighCard.
   */
  function Classify(cards: seq<Card>, rankGroups: seq<Group>, suitGroups: seq<seq<Card>>): (e: HandEvaluation)
    requires SortedByRankDesc(cards) && |cards| >= 2 && |suitGroups| > 0
    ensures HighCard.Value() <= e.rank <= StraightFlush.Value()
    ensures e.kicker != [] ==> e.rank == FourOfAKind.Value() || e.rank == HighCard.Value()
  {
    var sf := FirstSuitStraight(suitGroups);
    if sf.Some? then HandEvaluation(StraightFlush.Value(), sf.value, 0, [])
    else
    var four := IsFourOfAKind(rankGroups);
    if four.Some? then HandEvaluation(FourOfAKind.Value(), four.value.primary, 0, four.value.kicker)
    else
    var fullHouse := IsFullHouse(rankGroups);
    if fullHouse.Some? then HandEvaluation(FullHouse.Value(), fullHouse.value.primary, fullHouse.value.secondary, [])
    else
    var flush := IsFlush(suitGroups);
    if flush.Some? then HandEvaluation(Flush.Value(), flush.value, 0, [])
    else
    var straight := StraightHigh(RankSet(cards));
    if straight.Some? then HandEvaluation(Straight.Value(), straight.value, 0, [])
    else
    var three := IsThreeOfAKind(cards);
    if three.Some? then HandEvaluation(ThreeOfAKind.Value(), three.value.primary, three.value.secondary, [])
    else
    var twoPair := IsTwoPair(cards);
    if twoPair.Some? then HandEvaluation(TwoPair.Value(), twoPair.value.primary, twoPair.value.secondary, [])
    else
    var onePair := IsOnePair(rankGroups);
    if onePair.Some? then HandEvaluation(OnePair.Value(), onePair.value.primary, 0, [])
    else
    var high := HighCardOf(cards);
    HandEvaluation(HighCard.Value(), high.primary, high.secondary, high.kicker)
  }

  /** What EvaluatePlayer returns for a pool: the pool sorted by descending rank, grouped, and classified. */
  function Evaluate(pool: seq<Card>): (e: HandEvaluation)
    requires Evaluable(pool)
  {
    var cards := SortByRankDesc(pool);
    SortedPoolValid(pool);
    SuitGroupsNonEmpty(cards);
    Classify(cards, RankGroups(cards), SuitGroups(cards))
  }

  /** EvaluatePlayer: evaluates the player's hand together with the board. */
  method EvaluatePlayer(p: Player, board: seq<Card>) returns (e: HandEvaluation)
    requires Evaluable(p.hand + board)
    ensures e == Evaluate(p.hand + board)
  {
    var pool := p.hand + board;
    var cards := SortByRankDesc(pool);
    SortedPoolValid(pool);
    var rankGroups := RankGroups(cards);
    var suitGroups := SuitGroups(cards);
    SuitGroupsValid(cards);
    SuitGroupsNonEmpty(cards);

    var isStraightFlush, sfHigh := IsStraightFlush(suitGroups);
    if isStraightFlush {
      return HandEvaluation(StraightFlush.Value(), sfHigh, 0, []);
    }
    var four := IsFourOfAKind(rankGroups);
    if four.Some? {
      return HandEvaluation(FourOfAKind.Value(), four.value.primary, 0, four.value.kicker);
    }
    var fullHouse := IsFullHouse(rankGroups);
    if fullHouse.Some? {
      return HandEvaluation(FullHouse.Value(), fullHouse.value.primary, fullHouse.value.secondary, []);
    }
    var flush := IsFlush(suitGroups);
    if flush.Some? {
      return HandEvaluation(Flush.Value(), flush.value, 0, []);
    }
    var isStraight, straightHigh := IsStraight(cards);
    if isStraight {
      return HandEvaluation(Straight.Value(), straightHigh, 0, []);
    }
    var three := IsThreeOfAKind(cards);
    if three.Some? {
      return HandEvaluation(ThreeOfAKind.Value(), three.value.primary, three.value.secondary, []);
    }
    var twoPair := IsTwoPair(cards);
    if twoPair.Some? {
      return HandEvaluation(TwoPair.Value(), twoPair.value.primary, twoPair.value.secondary, []);
    }
    var onePair := IsOnePair(rankGroups);
    if onePair.Some? {
      return HandEvaluation(OnePair.Value(), onePair.value.primary, 0, []);
    }
    var high := HighCardOf(cards);
    e := HandEvaluation(HighCard.Value(), high.primary, high.secondary, high.kicker);
  }

  /** Every player's hand makes an evaluable pool with the board. */
  predicate AllEvaluable(players: seq<Player>, board: seq<Card>) {
    forall i :: 0 <= i < |players| ==> Evaluable(players[i].hand + board)
  }

  /** The results EvaluateBoard collects: one per player, in player order. */
  function EvaluateAll(players: seq<Player>, board: seq<Card>): seq<PlayerResult>
    requires AllEvaluable(players, board)
  {
    if players == [] then []
    else
      var n := |players| - 1;
      EvaluateAll(players[..n], board) + [PlayerResult(players[n], Evaluate(players[n].hand + board))]
  }

  lemma {:induction false} EvaluateAllLength(players: seq<Player>, board: seq<Card>)
    requires AllEvaluable(players, board)
    ensures |EvaluateAll(players, board)| == |players|
  {
    hide Evaluate;  // only the shape of the list matters here
    if players != [] {
      EvaluateAllLength(players[..|players| - 1], board);
    }
  }

  /** The i-th collected result pairs the i-th player with the evaluation of their hand and the board. */
  lemma {:induction false} EvaluateAllAt(players: seq<Player>, board: seq<Card>, i: int)
    requires AllEvaluable(players, board) && 0 <= i < |players|
    ensures |EvaluateAll(players, board)| == |players|
    ensures EvaluateAll(players, board)[i] == PlayerResult(players[i], Evaluate(players[i].hand + board))
  {
    hide Evaluate;  // the evaluations are carried along, never looked into
    var n := |players| - 1;
    EvaluateAllLength(players, board);
    EvaluateAllLength(players[..n], board);
    if i < n {
      EvaluateAllAt(players[..n], board, i);
      assert players[..n][i] == players[i];
    }
  }

  /** EvaluateBoard: evaluates every player against the board, in player order. */
  method EvaluateBoard(players: seq<Player>, board: seq<Card>) returns (results: seq<PlayerResult>)
    requires AllEvaluable(players, board)
    ensures results == EvaluateAll(players, board)
  {
    hide Evaluate;  // each evaluation comes from EvaluatePlayer's contract
    results := [];
    for i := 0 to |players|
      invariant results == EvaluateAll(players[..i], board)
    {
      var evaluation := EvaluatePlayer(players[i], board);
      assert players[..i + 1][..i] == players[..i];
      results := results + [PlayerResult(players[i], evaluation)];
    }
    assert players[..|players|] == players;
  }
}
