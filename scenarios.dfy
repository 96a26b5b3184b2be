/**
 * The evaluator's unit-test hands (Tests/Logic/EvaluatorTest.cs), each placed in the
 * category the test expects, and concrete hands showing the cascade's quirks. Each hand's
 * rank counts, suit sizes and rank set are worked out once; the category follows from them.
 */
module Scenarios {
  import opened Cards
  import opened Pool
  import opened Straights
  import opened Evaluator
  import opened Classification
  import opened Values

  /** The number of cards of suit s. */
  function SuitCount(cards: seq<Card>, s: Suit): nat {
    if cards == [] then 0 else (if cards[0].suit == s then 1 else 0) + SuitCount(cards[1..], s)
  }

  lemma {:induction false} SuitCountIsOfSuit(cards: seq<Card>, s: Suit)
    ensures |OfSuit(cards, s)| == SuitCount(cards, s)
  {
    if cards != [] {
      SuitCountIsOfSuit(cards[1..], s);
    }
  }

  /** With fewer than five cards in every suit there is neither a flush nor a straight flush. */
  lemma NoFlush(pool: seq<Card>)
    requires AllValid(pool) && forall s: Suit :: SuitCount(pool, s) < 5
    ensures !HasFlush(pool) && !HasSuitedStraight(pool)
  {
    forall s: Suit ensures |OfSuit(pool, s)| < 5 {
      SuitCountIsOfSuit(pool, s);
    }
    SuitedStraightIsFlush(pool);
  }

  /** Five cards of one suit in a row make a straight within that suit. */
  lemma SuitedRun(pool: seq<Card>, s: Suit, v: int)
    requires AllValid(pool) && 2 <= v <= 10
    requires Card(v, s) in pool && Card(v + 1, s) in pool && Card(v + 2, s) in pool
    requires Card(v + 3, s) in pool && Card(v + 4, s) in pool
    ensures HasSuitedStraight(pool)
  {
    var g := OfSuit(pool, s);
    forall r | r in RankSet(g) ensures ValidRank(r) {
      var c :| c in g && c.rank == r;
      var i :| 0 <= i < |pool| && pool[i] == c;
    }
    assert Card(v, s) in g && Card(v + 1, s) in g && Card(v + 2, s) in g;
    assert Card(v + 3, s) in g && Card(v + 4, s) in g;
    assert RunFrom(AceLow(RankSet(g)), v);
    StraightHighSpec(RankSet(g));
  }

  /** A suit's ranks are among the pool's, so a pool without a straight has no straight flush. */
  lemma NoStraightNoSuitedStraight(pool: seq<Card>)
    requires AllValid(pool) && StraightHigh(RankSet(pool)).None?
    ensures !HasSuitedStraight(pool)
  {
    forall s: Suit ensures StraightHigh(RankSet(OfSuit(pool, s))).None? {
      var g := OfSuit(pool, s);
      forall r | r in RankSet(g) ensures ValidRank(r) && r in RankSet(pool) {
        var c :| c in g && c.rank == r;
        var i :| 0 <= i < |pool| && pool[i] == c;
      }
      forall r | r in RankSet(pool) ensures ValidRank(r) {
        var c :| c in pool && c.rank == r;
        var i :| 0 <= i < |pool| && pool[i] == c;
      }
      StraightHighSpec(RankSet(pool));
      StraightHighSpec(RankSet(g));
      assert forall v :: RunFrom(AceLow(RankSet(g)), v) ==> RunFrom(AceLow(RankSet(pool)), v);
    }
  }

  /** A pool whose set of ranks holds no run of five (an Ace also counting as 1) has no straight. */
  lemma NoRunNoStraight(pool: seq<Card>, ranks: set<int>)
    requires AllValid(pool) && RankSet(pool) == ranks
    requires forall v :: !RunFrom(AceLow(ranks), v)
    ensures StraightHigh(RankSet(pool)).None?
  {
    forall r | r in ranks ensures ValidRank(r) {
      var c :| c in pool && c.rank == r;
      var i :| 0 <= i < |pool| && pool[i] == c;
    }
    StraightHighSpec(ranks);
  }

  /** A run of five ranks in the pool is a straight. */
  lemma RunStraight(pool: seq<Card>, ranks: set<int>, v: int)
    requires AllValid(pool) && RankSet(pool) == ranks && RunFrom(AceLow(ranks), v)
    ensures StraightHigh(RankSet(pool)).Some?
  {
    forall r | r in ranks ensures ValidRank(r) {
      var c :| c in pool && c.rank == r;
      var i :| 0 <= i < |pool| && pool[i] == c;
    }
    StraightHighSpec(ranks);
  }

  /** Five cards of one suit make a flush. */
  lemma FiveOfSuit(pool: seq<Card>, s: Suit)
    requires SuitCount(pool, s) >= 5
    ensures HasFlush(pool)
  {
    SuitCountIsOfSuit(pool, s);
  }

  /** No rank repeats: no pair, three or four of a kind. */
  lemma NoRepeatedRank(pool: seq<Card>)
    requires forall r :: RankCounts(pool)[r] <= 1
    ensures !HasCount(pool, 4) && !HasCount(pool, 3) && !HasCount(pool, 2) && !HasTwoPairs(pool)
  {
  }

  /** Exactly one rank repeats, and only twice: a single pair. */
  lemma SinglePair(pool: seq<Card>, p: int)
    requires RankCounts(pool)[p] == 2 && forall r :: r != p ==> RankCounts(pool)[r] <= 1
    ensures !HasCount(pool, 4) && !HasCount(pool, 3) && HasCount(pool, 2) && !HasTwoPairs(pool)
  {
  }

  // ----- the cascade, one category at a time -----

  lemma StraightFlushCategory(pool: seq<Card>)
    requires Evaluable(pool) && HasSuitedStraight(pool)
    ensures Evaluate(pool).rank == StraightFlush.Value()
  {
    EvaluateCategory(pool);
  }

  lemma FourOfAKindCategory(pool: seq<Card>)
    requires Evaluable(pool) && !HasSuitedStraight(pool) && HasCount(pool, 4)
    ensures Evaluate(pool).rank == FourOfAKind.Value()
  {
    EvaluateCategory(pool);
  }

  lemma FullHouseCategory(pool: seq<Card>)
    requires Evaluable(pool) && !HasSuitedStraight(pool) && !HasCount(pool, 4)
    requires HasCount(pool, 3) && HasCount(pool, 2)
    ensures Evaluate(pool).rank == FullHouse.Value()
  {
    EvaluateCategory(pool);
  }

  lemma FlushCategory(pool: seq<Card>)
    requires Evaluable(pool) && !HasSuitedStraight(pool) && !HasCount(pool, 4)
    requires !(HasCount(pool, 3) && HasCount(pool, 2)) && HasFlush(pool)
    ensures Evaluate(pool).rank == Flush.Value()
  {
    EvaluateCategory(pool);
  }

  lemma StraightCategory(pool: seq<Card>)
    requires Evaluable(pool) && !HasSuitedStraight(pool) && !HasCount(pool, 4)
    requires !(HasCount(pool, 3) && HasCount(pool, 2)) && !HasFlush(pool)
    requires StraightHigh(RankSet(pool)).Some?
    ensures Evaluate(pool).rank == Straight.Value()
  {
    EvaluateCategory(pool);
  }

  lemma ThreeOfAKindCategory(pool: seq<Card>)
    requires Evaluable(pool) && !HasSuitedStraight(pool) && !HasCount(pool, 4)
    requires !(HasCount(pool, 3) && HasCount(pool, 2)) && !HasFlush(pool)
    requires StraightHigh(RankSet(pool)).None? && HasCount(pool, 3)
    ensures Evaluate(pool).rank == ThreeOfAKind.Value()
  {
    EvaluateCategory(pool);
  }

  lemma TwoPairCategory(pool: seq<Card>)
    requires Evaluable(pool) && !HasSuitedStraight(pool) && !HasCount(pool, 4)
    requires !HasCount(pool, 3) && !HasFlush(pool) && StraightHigh(RankSet(pool)).None?
    requires HasTwoPairs(pool)
    ensures Evaluate(pool).rank == TwoPair.Value()
  {
    EvaluateCategory(pool);
  }

  lemma OnePairCategory(pool: seq<Card>)
    requires Evaluable(pool) && !HasSuitedStraight(pool) && !HasCount(pool, 4)
    requires !HasCount(pool, 3) && !HasFlush(pool) && StraightHigh(RankSet(pool)).None?
    requires !HasTwoPairs(pool) && HasCount(pool, 2)
    ensures Evaluate(pool).rank == OnePair.Value()
  {
    EvaluateCategory(pool);
  }

  lemma HighCardCategory(pool: seq<Card>)
    requires Evaluable(pool) && !HasSuitedStraight(pool) && !HasCount(pool, 4)
    requires !HasCount(pool, 3) && !HasFlush(pool) && StraightHigh(RankSet(pool)).None?
    requires !HasTwoPairs(pool) && !HasCount(pool, 2)
    ensures Evaluate(pool).rank == HighCard.Value()
  {
    EvaluateCategory(pool);
  }

  /** A four-of-a-kind result read off the rank groups: the kicker keeps the groups' order. */
  lemma FourOfAKindGroups(pool: seq<Card>)
    requires Evaluable(pool) && !HasSuitedStraight(pool) && HasCount(pool, 4)
    ensures var m := IsFourOfAKind(RankGroups(SortByRankDesc(pool)));
      m.Some? && Evaluate(pool) == HandEvaluation(FourOfAKind.Value(), m.value.primary, 0, m.value.kicker)
  {
    var cards := SortByRankDesc(pool);
    var rankGroups, suitGroups := RankGroups(cards), SuitGroups(cards);
    EvaluateIsClassify(pool);
    hide Evaluate;
    ChecksAreTests(pool);
    ClassifyFourOfAKind(cards, rankGroups, suitGroups);
  }

  // ----- straight flush: 2-3-4-5-6 of hearts, 7 of diamonds, 8 of clubs -----

  function StraightFlushHand(): seq<Card> {
    [Card(2, Hearts), Card(3, Hearts), Card(4, Hearts), Card(5, Hearts), Card(6, Hearts),
     Card(7, Diamonds), Card(8, Clubs)]
  }

  lemma StraightFlushHandFacts()
    ensures Evaluable(StraightFlushHand()) && HasSuitedStraight(StraightFlushHand())
  {
    var pool := StraightFlushHand();
    assert Evaluable(pool);
    SuitedRun(pool, Hearts, 2);
  }

  lemma StraightFlushScenario()
    ensures Evaluate(StraightFlushHand()).rank == StraightFlush.Value()
  {
    hide *;
    StraightFlushHandFacts();
    StraightFlushCategory(StraightFlushHand());
  }

  // ----- four of a kind: the four twos, 6 of hearts, 7 of diamonds, 8 of clubs -----

  function FourOfAKindHand(): seq<Card> {
    [Card(2, Hearts), Card(2, Diamonds), Card(2, Clubs), Card(2, Spades), Card(6, Hearts),
     Card(7, Diamonds), Card(8, Clubs)]
  }

  lemma FourOfAKindHandValid()
    ensures Evaluable(FourOfAKindHand())
  {
  }

  lemma FourOfAKindHandRanks()
    ensures RankSet(FourOfAKindHand()) == {2, 6, 7, 8}
  {
  }

  lemma FourOfAKindHandCounts()
    ensures RankCounts(FourOfAKindHand()) == multiset{2, 2, 2, 2, 6, 7, 8}
  {
  }

  lemma FourOfAKindScenario()
    ensures Evaluate(FourOfAKindHand()).rank == FourOfAKind.Value()
  {
    FourOfAKindHandValid();
    FourOfAKindHandRanks();
    FourOfAKindHandCounts();
    var pool := FourOfAKindHand();
    hide FourOfAKindHand, RankCounts, RankSet, Evaluate;
    NoRunNoStraight(pool, {2, 6, 7, 8});
    NoStraightNoSuitedStraight(pool);
    assert RankCounts(pool)[2] == 4;
    FourOfAKindCategory(pool);
  }

  // ----- full house: three twos, two threes, 7 of diamonds, 8 of clubs -----

  function FullHouseHand(): seq<Card> {
    [Card(2, Hearts), Card(2, Diamonds), Card(2, Clubs), Card(3, Spades), Card(3, Hearts),
     Card(7, Diamonds), Card(8, Clubs)]
  }

  lemma FullHouseHandValid()
    ensures Evaluable(FullHouseHand())
  {
  }

  lemma FullHouseHandRanks()
    ensures RankSet(FullHouseHand()) == {2, 3, 7, 8}
  {
  }

  lemma FullHouseHandCounts()
    ensures RankCounts(FullHouseHand()) == multiset{2, 2, 2, 3, 3, 7, 8}
  {
  }

  lemma FullHouseScenario()
    ensures Evaluate(FullHouseHand()).rank == FullHouse.Value()
  {
    FullHouseHandValid();
    FullHouseHandRanks();
    FullHouseHandCounts();
    var pool := FullHouseHand();
    hide FullHouseHand, RankCounts, RankSet, Evaluate;
    NoRunNoStraight(pool, {2, 3, 7, 8});
    NoStraightNoSuitedStraight(pool);
    assert RankCounts(pool)[2] == 3 && RankCounts(pool)[3] == 2;
    FullHouseCategory(pool);
  }

  // ----- flush: 2-5-7-9-King of hearts, 3 of diamonds, Jack of clubs -----

  function FlushHand(): seq<Card> {
    [Card(2, Hearts), Card(5, Hearts), Card(7, Hearts), Card(9, Hearts), Card(13, Hearts),
     Card(3, Diamonds), Card(11, Clubs)]
  }

  lemma FlushHandValid()
    ensures Evaluable(FlushHand())
  {
  }

  lemma FlushHandRanks()
    ensures RankSet(FlushHand()) == {2, 3, 5, 7, 9, 11, 13}
  {
  }

  lemma FlushHandHearts()
    ensures SuitCount(FlushHand(), Hearts) == 5
  {
  }

  lemma FlushHandNoRun()
    ensures forall v :: !RunFrom(AceLow({2, 3, 5, 7, 9, 11, 13}), v)
  {
  }

  lemma FlushHandCounts()
    ensures RankCounts(FlushHand()) == multiset{2, 3, 5, 7, 9, 11, 13}
  {
  }

  lemma FlushHandSingles()
    ensures forall r :: multiset{2, 3, 5, 7, 9, 11, 13}[r] <= 1
  {
  }

  lemma FlushScenario()
    ensures Evaluate(FlushHand()).rank == Flush.Value()
  {
    FlushHandValid();
    FlushHandRanks();
    FlushHandCounts();
    FlushHandHearts();
    FlushHandSingles();
    var pool := FlushHand();
    hide FlushHand, RankCounts, RankSet, SuitCount, Evaluate;
    FlushHandNoRun();
    NoRunNoStraight(pool, {2, 3, 5, 7, 9, 11, 13});
    NoStraightNoSuitedStraight(pool);
    FiveOfSuit(pool, Hearts);
    NoRepeatedRank(pool);
    FlushCategory(pool);
  }

  // ----- straight: 2 of diamonds, 3-4-5-6 of hearts, 7 of diamonds, 8 of clubs -----

  function StraightHand(): seq<Card> {
    [Card(2, Diamonds), Card(3, Hearts), Card(4, Hearts), Card(5, Hearts), Card(6, Hearts),
     Card(7, Diamonds), Card(8, Clubs)]
  }

  lemma StraightHandValid()
    ensures Evaluable(StraightHand())
  {
  }

  lemma StraightHandRanks()
    ensures RankSet(StraightHand()) == {2, 3, 4, 5, 6, 7, 8}
  {
  }

  lemma StraightHandCounts()
    ensures RankCounts(StraightHand()) == multiset{2, 3, 4, 5, 6, 7, 8}
  {
  }

  lemma StraightHandSingles()
    ensures forall r :: multiset{2, 3, 4, 5, 6, 7, 8}[r] <= 1
  {
  }

  lemma StraightHandSuits()
    ensures forall s: Suit :: SuitCount(StraightHand(), s) < 5
  {
  }

  lemma StraightScenario()
    ensures Evaluate(StraightHand()).rank == Straight.Value()
  {
    StraightHandValid();
    StraightHandRanks();
    StraightHandCounts();
    StraightHandSuits();
    StraightHandSingles();
    var pool := StraightHand();
    hide StraightHand, RankCounts, RankSet, SuitCount, Evaluate;
    NoFlush(pool);
    RunStraight(pool, {2, 3, 4, 5, 6, 7, 8}, 2);
    NoRepeatedRank(pool);
    StraightCategory(pool);
  }

  // ----- three of a kind: three twos, 4-5-6 of hearts, 7 of diamonds -----

  function ThreeOfAKindHand(): seq<Card> {
    [Card(2, Diamonds), Card(2, Hearts), Card(2, Clubs), Card(4, Hearts), Card(5, Hearts),
     Card(6, Hearts), Card(7, Diamonds)]
  }

  lemma ThreeOfAKindHandValid()
    ensures Evaluable(ThreeOfAKindHand())
  {
  }

  lemma ThreeOfAKindHandRanks()
    ensures RankSet(ThreeOfAKindHand()) == {2, 4, 5, 6, 7}
  {
  }

  lemma ThreeOfAKindHandCounts()
    ensures RankCounts(ThreeOfAKindHand()) == multiset{2, 2, 2, 4, 5, 6, 7}
  {
  }

  lemma ThreeOfAKindHandSuits()
    ensures forall s: Suit :: SuitCount(ThreeOfAKindHand(), s) < 5
  {
  }

  lemma ThreeOfAKindScenario()
    ensures Evaluate(ThreeOfAKindHand()).rank == ThreeOfAKind.Value()
  {
    ThreeOfAKindHandValid();
    ThreeOfAKindHandRanks();
    ThreeOfAKindHandCounts();
    ThreeOfAKindHandSuits();
    var pool := ThreeOfAKindHand();
    hide ThreeOfAKindHand, RankCounts, RankSet, SuitCount, Evaluate;
    NoFlush(pool);
    NoRunNoStraight(pool, {2, 4, 5, 6, 7});
    assert RankCounts(pool)[2] == 3;
    ThreeOfAKindCategory(pool);
  }

  // ----- two pair: twos and fours, 3 of clubs, 6 of hearts, 7 of diamonds -----

  function TwoPairHand(): seq<Card> {
    [Card(2, Diamonds), Card(2, Hearts), Card(3, Clubs), Card(4, Hearts), Card(4, Spades),
     Card(6, Hearts), Card(7, Diamonds)]
  }

  lemma TwoPairHandValid()
    ensures Evaluable(TwoPairHand())
  {
  }

  lemma TwoPairHandRanks()
    ensures RankSet(TwoPairHand()) == {2, 3, 4, 6, 7}
  {
  }

  lemma TwoPairHandCounts()
    ensures RankCounts(TwoPairHand()) == multiset{2, 2, 3, 4, 4, 6, 7}
  {
  }

  lemma TwoPairHandSuits()
    ensures forall s: Suit :: SuitCount(TwoPairHand(), s) < 5
  {
  }

  lemma TwoPairScenario()
    ensures Evaluate(TwoPairHand()).rank == TwoPair.Value()
  {
    TwoPairHandValid();
    TwoPairHandRanks();
    TwoPairHandCounts();
    TwoPairHandSuits();
    var pool := TwoPairHand();
    hide TwoPairHand, RankCounts, RankSet, SuitCount, Evaluate;
    NoFlush(pool);
    NoRunNoStraight(pool, {2, 3, 4, 6, 7});
    assert RankCounts(pool)[2] == 2 && RankCounts(pool)[4] == 2;
    TwoPairCategory(pool);
  }

  // ----- one pair: two twos, 3, 4, 5, 7 and 8 of mixed suits -----

  function OnePairHand(): seq<Card> {
    [Card(2, Diamonds), Card(2, Hearts), Card(3, Clubs), Card(4, Hearts), Card(5, Spades),
     Card(7, Hearts), Card(8, Diamonds)]
  }

  lemma OnePairHandValid()
    ensures Evaluable(OnePairHand())
  {
  }

  lemma OnePairHandRanks()
    ensures RankSet(OnePairHand()) == {2, 3, 4, 5, 7, 8}
  {
  }

  lemma OnePairHandNoRun()
    ensures forall v :: !RunFrom(AceLow({2, 3, 4, 5, 7, 8}), v)
  {
  }

  lemma OnePairHandCounts()
    ensures RankCounts(OnePairHand()) == multiset{2, 2, 3, 4, 5, 7, 8}
  {
  }

  lemma OnePairHandSingles()
    ensures multiset{2, 2, 3, 4, 5, 7, 8}[2] == 2 && forall r :: r != 2 ==> multiset{2, 2, 3, 4, 5, 7, 8}[r] <= 1
  {
  }

  lemma OnePairHandSuits()
    ensures forall s: Suit :: SuitCount(OnePairHand(), s) < 5
  {
  }

  lemma OnePairScenario()
    ensures Evaluate(OnePairHand()).rank == OnePair.Value()
  {
    OnePairHandValid();
    OnePairHandRanks();
    OnePairHandCounts();
    OnePairHandSuits();
    OnePairHandSingles();
    var pool := OnePairHand();
    hide OnePairHand, RankCounts, RankSet, SuitCount, Evaluate;
    NoFlush(pool);
    OnePairHandNoRun();
    NoRunNoStraight(pool, {2, 3, 4, 5, 7, 8});
    SinglePair(pool, 2);
    OnePairCategory(pool);
  }

  // ----- high card: Ace of diamonds, King of hearts, 3, 4, 5, 7 and 8 of mixed suits -----

  function HighCardHand(): seq<Card> {
    [Card(14, Diamonds), Card(13, Hearts), Card(3, Clubs), Card(4, Hearts), Card(5, Spades),
     Card(7, Hearts), Card(8, Diamonds)]
  }

  lemma HighCardHandValid()
    ensures Evaluable(HighCardHand())
  {
  }

  lemma HighCardHandRanks()
    ensures RankSet(HighCardHand()) == {3, 4, 5, 7, 8, 13, 14}
  {
  }

  lemma HighCardHandNoRun()
    ensures forall v :: !RunFrom(AceLow({3, 4, 5, 7, 8, 13, 14}), v)
  {
  }

  lemma HighCardHandCounts()
    ensures RankCounts(HighCardHand()) == multiset{14, 13, 3, 4, 5, 7, 8}
  {
  }

  lemma HighCardHandSingles()
    ensures forall r :: multiset{14, 13, 3, 4, 5, 7, 8}[r] <= 1
  {
  }

  lemma HighCardHandSuits()
    ensures forall s: Suit :: SuitCount(HighCardHand(), s) < 5
  {
  }

  lemma HighCardScenario()
    ensures Evaluate(HighCardHand()).rank == HighCard.Value()
  {
    HighCardHandValid();
    HighCardHandRanks();
    HighCardHandCounts();
    HighCardHandSuits();
    HighCardHandSingles();
    var pool := HighCardHand();
    hide HighCardHand, RankCounts, RankSet, SuitCount, Evaluate;
    NoFlush(pool);
    HighCardHandNoRun();
    NoRunNoStraight(pool, {3, 4, 5, 7, 8, 13, 14});
    NoRepeatedRank(pool);
    HighCardCategory(pool);
  }

  // ----- the quirks of the cascade, on concrete hands -----

  /** Four twos, two threes and a nine. */
  function FourWithPairHand(): seq<Card> {
    [Card(2, Hearts), Card(2, Diamonds), Card(2, Clubs), Card(2, Spades), Card(3, Hearts),
     Card(3, Diamonds), Card(9, Clubs)]
  }

  lemma FourWithPairHandValid()
    ensures Evaluable(FourWithPairHand())
  {
  }

  lemma FourWithPairHandRanks()
    ensures RankSet(FourWithPairHand()) == {2, 3, 9}
  {
  }

  lemma FourWithPairHandCounts()
    ensures RankCounts(FourWithPairHand()) == multiset{2, 2, 2, 2, 3, 3, 9}
  {
  }

  /** The rank groups of four twos, two threes and a nine, larger groups first. */
  lemma FourWithPairGroups()
    ensures forall g :: g in [Group(2, 4), Group(3, 2), Group(9, 1)] <==>
      g.count == multiset{2, 2, 2, 2, 3, 3, 9}[g.rank] > 0
    ensures SortedGroups([Group(2, 4), Group(3, 2), Group(9, 1)])
  {
  }

  /** Over those groups the four-of-a-kind check lists the pair before the nine. */
  lemma FourWithPairCheck()
    ensures IsFourOfAKind([Group(2, 4), Group(3, 2), Group(9, 1)]) == Some(Made(2, 0, [3, 3, 9]))
  {
    var rest := [Group(3, 2), Group(9, 1)];
    assert WithoutCount([Group(2, 4), Group(3, 2), Group(9, 1)], 4) == rest;
    assert Expand(rest) == Repeat(3, 2) + Repeat(9, 1) + Expand([]);
    assert Repeat(3, 2) == [3, 3] && Repeat(9, 1) == [9];
    assert Expand(rest) == [3, 3, 9];
    assert FirstWithCount([Group(2, 4), Group(3, 2), Group(9, 1)], 4) == Some(2);
  }

  /**
   * The four-of-a-kind kicker follows the rank groups, larger groups first: the pair of
   * threes comes before the nine, so the kicker is [3, 3, 9] and not the best cards [9, 3, 3].
   */
  lemma FourKickerFollowsGroups()
    ensures Evaluate(FourWithPairHand()) == HandEvaluation(FourOfAKind.Value(), 2, 0, [3, 3, 9])
  {
    FourWithPairHandValid();
    FourWithPairHandRanks();
    FourWithPairHandCounts();
    FourWithPairGroups();
    FourWithPairCheck();
    var pool := FourWithPairHand();
    var cards := SortByRankDesc(pool);
    SortedCounts(pool);
    hide FourWithPairHand, RankCounts, RankSet, Evaluate, IsFourOfAKind;
    NoRunNoStraight(pool, {2, 3, 9});
    NoStraightNoSuitedStraight(pool);
    assert RankCounts(pool)[2] == 4;
    RankGroupsUnique(cards, [Group(2, 4), Group(3, 2), Group(9, 1)]);
    FourOfAKindGroups(pool);
  }

  /** Three Kings, three sevens and a two. */
  function TwoTripsHand(): seq<Card> {
    [Card(13, Spades), Card(13, Hearts), Card(13, Diamonds), Card(7, Spades), Card(7, Hearts),
     Card(7, Diamonds), Card(2, Clubs)]
  }

  lemma TwoTripsHandValid()
    ensures Evaluable(TwoTripsHand())
  {
  }

  lemma TwoTripsHandRanks()
    ensures RankSet(TwoTripsHand()) == {2, 7, 13}
  {
  }

  lemma TwoTripsHandCounts()
    ensures RankCounts(TwoTripsHand()) == multiset{13, 13, 13, 7, 7, 7, 2}
  {
  }

  lemma TwoTripsHandSuits()
    ensures forall s: Suit :: SuitCount(TwoTripsHand(), s) < 5
  {
  }

  /**
   * Two sets of three are no full house: the full-house check wants a group of exactly two,
   * so the hand falls through to three of a kind, Kings with a seven beside them.
   */
  lemma TwoTripsAreThreeOfAKind()
    ensures Evaluate(TwoTripsHand()).rank == ThreeOfAKind.Value()
    ensures Evaluate(TwoTripsHand()).primary == 13 && Evaluate(TwoTripsHand()).secondary == 7
  {
    TwoTripsHandValid();
    TwoTripsHandRanks();
    TwoTripsHandCounts();
    TwoTripsHandSuits();
    var pool := TwoTripsHand();
    hide TwoTripsHand, RankCounts, RankSet, SuitCount, Evaluate;
    NoFlush(pool);
    NoRunNoStraight(pool, {2, 7, 13});
    assert RankCounts(pool)[13] == 3 && forall r :: RankCounts(pool)[r] != 2 && RankCounts(pool)[r] != 4;
    ThreeOfAKindCategory(pool);
    EvaluateCategory(pool);
    ThreeOfAKindValues(pool);
    assert RankCounts(pool)[7] > 0;
  }
}
