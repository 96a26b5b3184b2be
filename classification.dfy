/**
 * What the evaluator's cascade computes, stated on the pool itself: which category a pool
 * falls in (counts of each rank, cards of each suit, straights), and what the primary,
 * secondary and kicker values of each category are. The quirks of the cascade are kept:
 * a full house needs a rank held exactly three times and one held exactly twice, and only
 * the four-of-a-kind and high-card results carry a kicker.
 */
module Classification {
  import opened Cards
  import opened Pool
  import opened Straights
  import opened Evaluator

  // ----- the cascade over the outcomes of the checks -----

  /** The strongest category whose check succeeded, tried from StraightFlush down. */
  function FirstCategory(sf: bool, four: bool, fullHouse: bool, flush: bool, straight: bool,
                         three: bool, twoPair: bool, onePair: bool): HandRank
  {
    if sf then StraightFlush
    else if four then FourOfAKind
    else if fullHouse then FullHouse
    else if flush then Flush
    else if straight then Straight
    else if three then ThreeOfAKind
    else if twoPair then TwoPair
    else if onePair then OnePair
    else HighCard
  }

  /** Classify returns the category of the first check that succeeds, in cascade order. */
  lemma ClassifyIsFirstMatch(cards: seq<Card>, rankGroups: seq<Group>, suitGroups: seq<seq<Card>>)
    requires SortedByRankDesc(cards) && |cards| >= 2 && |suitGroups| > 0
    ensures Classify(cards, rankGroups, suitGroups).rank ==
      FirstCategory(FirstSuitStraight(suitGroups).Some?, IsFourOfAKind(rankGroups).Some?,
                    IsFullHouse(rankGroups).Some?, IsFlush(suitGroups).Some?,
                    StraightHigh(RankSet(cards)).Some?, IsThreeOfAKind(cards).Some?,
                    IsTwoPair(cards).Some?, IsOnePair(rankGroups).Some?).Value()
  {
  }

  // ----- the category tests, stated on rank counts and suits -----

  ghost predicate HasCount(pool: seq<Card>, k: nat) {
    exists r :: RankCounts(pool)[r] == k
  }

  ghost predicate HasTwoPairs(pool: seq<Card>) {
    exists r1, r2 :: r1 != r2 && RankCounts(pool)[r1] == 2 && RankCounts(pool)[r2] == 2
  }

  ghost predicate HasSuitedStraight(pool: seq<Card>) {
    exists s: Suit :: StraightHigh(RankSet(OfSuit(pool, s))).Some?
  }

  ghost predicate HasFlush(pool: seq<Card>) {
    exists s: Suit :: |OfSuit(pool, s)| >= 5
  }

  /** The category of a pool, by the same cascade, from facts about the pool alone. */
  ghost function Category(pool: seq<Card>): HandRank {
    FirstCategory(HasSuitedStraight(pool), HasCount(pool, 4), HasCount(pool, 3) && HasCount(pool, 2),
                  HasFlush(pool), StraightHigh(RankSet(pool)).Some?, HasCount(pool, 3),
                  HasTwoPairs(pool), HasCount(pool, 2))
  }

  // ----- the sorted pool holds the same cards -----

  lemma SortedCounts(pool: seq<Card>)
    ensures RankCounts(SortByRankDesc(pool)) == RankCounts(pool)
  {
    SortByRankDescMultiset(pool);
    RankCountsOfPermutation(SortByRankDesc(pool), pool);
  }

  lemma SortedRankSet(pool: seq<Card>)
    ensures RankSet(SortByRankDesc(pool)) == RankSet(pool)
  {
    var cards := SortByRankDesc(pool);
    SortByRankDescMultiset(pool);
    forall r | r in RankSet(cards) ensures r in RankSet(pool) {
      var c :| c in cards && c.rank == r;
      assert c in multiset(pool);
    }
    forall r | r in RankSet(pool) ensures r in RankSet(cards) {
      var c :| c in pool && c.rank == r;
      assert c in multiset(cards);
    }
  }

  // ----- each check against its test on the pool -----

  lemma FourTest(pool: seq<Card>)
    ensures IsFourOfAKind(RankGroups(SortByRankDesc(pool))).Some? <==> HasCount(pool, 4)
  {
    FirstWithCountIsTop(SortByRankDesc(pool), 4);
    SortedCounts(pool);
  }

  lemma FullHouseTest(pool: seq<Card>)
    ensures IsFullHouse(RankGroups(SortByRankDesc(pool))).Some? <==> HasCount(pool, 3) && HasCount(pool, 2)
  {
    FirstWithCountIsTop(SortByRankDesc(pool), 3);
    FirstWithCountIsTop(SortByRankDesc(pool), 2);
    SortedCounts(pool);
  }

  lemma ThreeTest(pool: seq<Card>)
    ensures IsThreeOfAKind(SortByRankDesc(pool)).Some? <==> HasCount(pool, 3)
  {
    FirstWithCountIsTop(SortByRankDesc(pool), 3);
    SortedCounts(pool);
  }

  lemma OnePairTest(pool: seq<Card>)
    ensures IsOnePair(RankGroups(SortByRankDesc(pool))).Some? <==> HasCount(pool, 2)
  {
    FirstWithCountIsTop(SortByRankDesc(pool), 2);
    SortedCounts(pool);
  }

  /** With distinct group ranks, a rank is listed at most once among the groups of k cards. */
  lemma {:induction false} RanksWithCountOnce(gs: seq<Group>, k: nat, r: int)
    requires DistinctRanks(gs)
    ensures multiset(RanksWithCount(gs, k))[r] <= 1
  {
    if gs != [] {
      RanksWithCountOnce(gs[1..], k, r);
    }
  }

  /** The pair ranks IsTwoPair sorts: one entry per rank held exactly twice. */
  function PairRanks(cards: seq<Card>): seq<int>
    requires SortedByRankDesc(cards)
  {
    SortDesc(RanksWithCount(RankGroups(cards), 2))
  }

  lemma PairRanksMembers(cards: seq<Card>)
    requires SortedByRankDesc(cards)
    ensures forall r :: r in PairRanks(cards) <==> RankCounts(cards)[r] == 2
  {
    var gs := RankGroups(cards);
    var rs := RanksWithCount(gs, 2);
    SortDescMultiset(rs);
    forall r ensures r in PairRanks(cards) <==> RankCounts(cards)[r] == 2 {
      if r in PairRanks(cards) {
        assert r in multiset(rs);
        assert Group(r, 2) in gs;
      }
      if RankCounts(cards)[r] == 2 {
        RankGroupsComplete(cards);
        assert r in rs;
        assert r in multiset(PairRanks(cards));
      }
    }
  }

  lemma PairRanksDistinct(cards: seq<Card>)
    requires SortedByRankDesc(cards)
    ensures |PairRanks(cards)| >= 2 ==> PairRanks(cards)[0] != PairRanks(cards)[1]
  {
    var gs := RankGroups(cards);
    var rs := RanksWithCount(gs, 2);
    var pairs := PairRanks(cards);
    if |pairs| >= 2 && pairs[0] == pairs[1] {
      assert pairs == [pairs[0], pairs[1]] + pairs[2..];
      assert multiset(pairs)[pairs[0]] >= 2;
      SortDescMultiset(rs);
      SortedGroupsDistinct(cards);
      RanksWithCountOnce(gs, 2, pairs[0]);
    }
  }

  /** Two or more pair ranks exactly when two different ranks are each held exactly twice. */
  lemma PairRanksTwo(cards: seq<Card>)
    requires SortedByRankDesc(cards)
    ensures |PairRanks(cards)| >= 2 <==>
      exists r1, r2 :: r1 != r2 && RankCounts(cards)[r1] == 2 && RankCounts(cards)[r2] == 2
  {
    var pairs := PairRanks(cards);
    PairRanksMembers(cards);
    if |pairs| >= 2 {
      PairRanksDistinct(cards);
      assert pairs[0] in pairs && pairs[1] in pairs;
    }
    if exists r1, r2 :: r1 != r2 && RankCounts(cards)[r1] == 2 && RankCounts(cards)[r2] == 2 {
      var r1, r2 :| r1 != r2 && RankCounts(cards)[r1] == 2 && RankCounts(cards)[r2] == 2;
      assert r1 in pairs && r2 in pairs;
    }
  }

  lemma TwoPairTest(pool: seq<Card>)
    ensures IsTwoPair(SortByRankDesc(pool)).Some? <==> HasTwoPairs(pool)
  {
    var cards := SortByRankDesc(pool);
    assert IsTwoPair(cards).Some? <==> |PairRanks(cards)| >= 2;
    PairRanksTwo(cards);
    SortedCounts(pool);
  }

  /** No ranks, no straight. */
  lemma NoRanksNoStraight()
    ensures StraightHigh({}).None?
  {
    StraightHighSpec({});
  }

  lemma SuitedStraightInSorted(cards: seq<Card>)
    ensures FirstSuitStraight(SuitGroups(cards)).Some? <==>
      exists s: Suit :: StraightHigh(RankSet(OfSuit(cards, s))).Some?
  {
    var sg := SuitGroups(cards);
    FirstSuitStraightSpec(sg);
    SuitGroupsSpec(cards);
    if FirstSuitStraight(sg).Some? {
      var i :| 0 <= i < |sg| && StraightHigh(RankSet(sg[i])) == FirstSuitStraight(sg);
      assert StraightHigh(RankSet(OfSuit(cards, sg[i][0].suit))).Some?;
    }
    if exists s: Suit :: StraightHigh(RankSet(OfSuit(cards, s))).Some? {
      var s: Suit :| StraightHigh(RankSet(OfSuit(cards, s))).Some?;
      if |OfSuit(cards, s)| == 0 {
        assert RankSet(OfSuit(cards, s)) == {};
        NoRanksNoStraight();
      }
      var i :| 0 <= i < |sg| && sg[i] == OfSuit(cards, s);
    }
  }

  lemma SuitedStraightTest(pool: seq<Card>)
    ensures FirstSuitStraight(SuitGroups(SortByRankDesc(pool))).Some? <==> HasSuitedStraight(pool)
  {
    var cards := SortByRankDesc(pool);
    SuitedStraightInSorted(cards);
    SortByRankDescMultiset(pool);
    if HasSuitedStraight(pool) {
      var s: Suit :| StraightHigh(RankSet(OfSuit(pool, s))).Some?;
      OfSuitOfPermutation(cards, pool, s);
      assert StraightHigh(RankSet(OfSuit(cards, s))).Some?;
    }
    if FirstSuitStraight(SuitGroups(cards)).Some? {
      var s: Suit :| StraightHigh(RankSet(OfSuit(cards, s))).Some?;
      OfSuitOfPermutation(cards, pool, s);
      assert StraightHigh(RankSet(OfSuit(pool, s))).Some?;
    }
  }

  lemma FlushInSorted(cards: seq<Card>)
    requires |cards| > 0
    ensures |SuitGroups(cards)| > 0
    ensures IsFlush(SuitGroups(cards)).Some? <==> exists s: Suit :: |OfSuit(cards, s)| >= 5
  {
    var sg := SuitGroups(cards);
    SuitGroupsNonEmpty(cards);
    SuitGroupsSpec(cards);
    var largest := LargestGroup(sg);
    if |largest| >= 5 {
      var i :| 0 <= i < |sg| && sg[i] == largest;
      assert |OfSuit(cards, sg[i][0].suit)| >= 5;
    }
    if exists s: Suit :: |OfSuit(cards, s)| >= 5 {
      var s: Suit :| |OfSuit(cards, s)| >= 5;
      assert OfSuit(cards, s) in sg;
    }
  }

  lemma FlushTest(pool: seq<Card>)
    requires |pool| > 0
    ensures |SuitGroups(SortByRankDesc(pool))| > 0
    ensures IsFlush(SuitGroups(SortByRankDesc(pool))).Some? <==> HasFlush(pool)
  {
    var cards := SortByRankDesc(pool);
    FlushInSorted(cards);
    SortByRankDescMultiset(pool);
    if HasFlush(pool) {
      var s: Suit :| |OfSuit(pool, s)| >= 5;
      OfSuitOfPermutation(cards, pool, s);
      assert |OfSuit(cards, s)| >= 5;
    }
    if IsFlush(SuitGroups(cards)).Some? {
      var s: Suit :| |OfSuit(cards, s)| >= 5;
      OfSuitOfPermutation(cards, pool, s);
      assert |OfSuit(pool, s)| >= 5;
    }
  }

  lemma StraightTest(pool: seq<Card>)
    ensures StraightHigh(RankSet(SortByRankDesc(pool))) == StraightHigh(RankSet(pool))
  {
    SortedRankSet(pool);
  }

  /** A straight within one suit needs five cards of that suit. */
  lemma SuitStraightNeedsFive(pool: seq<Card>, s: Suit)
    requires AllValid(pool)
    ensures StraightHigh(RankSet(OfSuit(pool, s))).Some? ==> |OfSuit(pool, s)| >= 5
  {
    var g := OfSuit(pool, s);
    if StraightHigh(RankSet(g)).Some? {
      forall r | r in RankSet(g) ensures ValidRank(r) {
        var c :| c in g && c.rank == r;
        var i :| 0 <= i < |pool| && pool[i] == c;
      }
      StraightNeedsFiveRanks(RankSet(g));
      RankSetSize(g);
    }
  }

  /** Every straight flush is also a flush. */
  lemma SuitedStraightIsFlush(pool: seq<Card>)
    requires AllValid(pool)
    ensures HasSuitedStraight(pool) ==> HasFlush(pool)
  {
    if HasSuitedStraight(pool) {
      var s: Suit :| StraightHigh(RankSet(OfSuit(pool, s))).Some?;
      SuitStraightNeedsFive(pool, s);
    }
  }

  // ----- the category of a pool -----

  /** The evaluator places every pool in the category the cascade of tests on the pool gives. */
  lemma EvaluateCategory(pool: seq<Card>)
    requires Evaluable(pool)
    ensures Evaluate(pool).rank == Category(pool).Value()
  {
    var cards := SortByRankDesc(pool);
    SortedPoolValid(pool);
    SuitGroupsNonEmpty(cards);
    var rankGroups, suitGroups := RankGroups(cards), SuitGroups(cards);
    assert Evaluate(pool).rank ==
      FirstCategory(FirstSuitStraight(suitGroups).Some?, IsFourOfAKind(rankGroups).Some?,
                    IsFullHouse(rankGroups).Some?, IsFlush(suitGroups).Some?,
                    StraightHigh(RankSet(cards)).Some?, IsThreeOfAKind(cards).Some?,
                    IsTwoPair(cards).Some?, IsOnePair(rankGroups).Some?).Value() by {
      ClassifyIsFirstMatch(cards, rankGroups, suitGroups);
    }
    hide Evaluate;
    SuitedStraightTest(pool);
    FourTest(pool);
    FullHouseTest(pool);
    FlushTest(pool);
    StraightTest(pool);
    ThreeTest(pool);
    TwoPairTest(pool);
    OnePairTest(pool);
  }

  // ----- the values each category reports -----

  /* Classify reports the values of the first check that succeeds; one lemma per category. */
  lemma ClassifyStraightFlush(cards: seq<Card>, rankGroups: seq<Group>, suitGroups: seq<seq<Card>>)
    requires SortedByRankDesc(cards) && |cards| >= 2 && |suitGroups| > 0
    requires FirstSuitStraight(suitGroups).Some?
    ensures Classify(cards, rankGroups, suitGroups) ==
      HandEvaluation(StraightFlush.Value(), FirstSuitStraight(suitGroups).value, 0, [])
  {
  }

  lemma ClassifyFourOfAKind(cards: seq<Card>, rankGroups: seq<Group>, suitGroups: seq<seq<Card>>)
    requires SortedByRankDesc(cards) && |cards| >= 2 && |suitGroups| > 0
    requires FirstSuitStraight(suitGroups).None?
    requires IsFourOfAKind(rankGroups).Some?
    ensures Classify(cards, rankGroups, suitGroups) ==
      HandEvaluation(FourOfAKind.Value(), IsFourOfAKind(rankGroups).value.primary, 0, IsFourOfAKind(rankGroups).value.kicker)
  {
  }

  lemma ClassifyFullHouse(cards: seq<Card>, rankGroups: seq<Group>, suitGroups: seq<seq<Card>>)
    requires SortedByRankDesc(cards) && |cards| >= 2 && |suitGroups| > 0
    requires FirstSuitStraight(suitGroups).None?
    requires IsFourOfAKind(rankGroups).None?
    requires IsFullHouse(rankGroups).Some?
    ensures Classify(cards, rankGroups, suitGroups) ==
      HandEvaluation(FullHouse.Value(), IsFullHouse(rankGroups).value.primary, IsFullHouse(rankGroups).value.secondary, [])
  {
  }

  lemma ClassifyFlush(cards: seq<Card>, rankGroups: seq<Group>, suitGroups: seq<seq<Card>>)
    requires SortedByRankDesc(cards) && |cards| >= 2 && |suitGroups| > 0
    requires FirstSuitStraight(suitGroups).None?
    requires IsFourOfAKind(rankGroups).None?
    requires IsFullHouse(rankGroups).None?
    requires IsFlush(suitGroups).Some?
    ensures Classify(cards, rankGroups, suitGroups) ==
      HandEvaluation(Flush.Value(), IsFlush(suitGroups).value, 0, [])
  {
  }

  lemma ClassifyStraight(cards: seq<Card>, rankGroups: seq<Group>, suitGroups: seq<seq<Card>>)
    requires SortedByRankDesc(cards) && |cards| >= 2 && |suitGroups| > 0
    requires FirstSuitStraight(suitGroups).None?
    requires IsFourOfAKind(rankGroups).None?
    requires IsFullHouse(rankGroups).None?
    requires IsFlush(suitGroups).None?
    requires StraightHigh(RankSet(cards)).Some?
    ensures Classify(cards, rankGroups, suitGroups) ==
      HandEvaluation(Straight.Value(), StraightHigh(RankSet(cards)).value, 0, [])
  {
  }

  lemma ClassifyThreeOfAKind(cards: seq<Card>, rankGroups: seq<Group>, suitGroups: seq<seq<Card>>)
    requires SortedByRankDesc(cards) && |cards| >= 2 && |suitGroups| > 0
    requires FirstSuitStraight(suitGroups).None?
    requires IsFourOfAKind(rankGroups).None?
    requires IsFullHouse(rankGroups).None?
    requires IsFlush(suitGroups).None?
    requires StraightHigh(RankSet(cards)).None?
    requires IsThreeOfAKind(cards).Some?
    ensures Classify(cards, rankGroups, suitGroups) ==
      HandEvaluation(ThreeOfAKind.Value(), IsThreeOfAKind(cards).value.primary, IsThreeOfAKind(cards).value.secondary, [])
  {
  }

  lemma ClassifyTwoPair(cards: seq<Card>, rankGroups: seq<Group>, suitGroups: seq<seq<Card>>)
    requires SortedByRankDesc(cards) && |cards| >= 2 && |suitGroups| > 0
    requires FirstSuitStraight(suitGroups).None?
    requires IsFourOfAKind(rankGroups).None?
    requires IsFullHouse(rankGroups).None?
    requires IsFlush(suitGroups).None?
    requires StraightHigh(RankSet(cards)).None?
    requires IsThreeOfAKind(cards).None?
    requires IsTwoPair(cards).Some?
    ensures Classify(cards, rankGroups, suitGroups) ==
      HandEvaluation(TwoPair.Value(), IsTwoPair(cards).value.primary, IsTwoPair(cards).value.secondary, [])
  {
  }

  lemma ClassifyOnePair(cards: seq<Card>, rankGroups: seq<Group>, suitGroups: seq<seq<Card>>)
    requires SortedByRankDesc(cards) && |cards| >= 2 && |suitGroups| > 0
    requires FirstSuitStraight(suitGroups).None?
    requires IsFourOfAKind(rankGroups).None?
    requires IsFullHouse(rankGroups).None?
    requires IsFlush(suitGroups).None?
    requires StraightHigh(RankSet(cards)).None?
    requires IsThreeOfAKind(cards).None?
    requires IsTwoPair(cards).None?
    requires IsOnePair(rankGroups).Some?
    ensures Classify(cards, rankGroups, suitGroups) ==
      HandEvaluation(OnePair.Value(), IsOnePair(rankGroups).value.primary, 0, [])
  {
  }

  lemma ClassifyHighCardResult(cards: seq<Card>, rankGroups: seq<Group>, suitGroups: seq<seq<Card>>)
    requires SortedByRankDesc(cards) && |cards| >= 2 && |suitGroups| > 0
    requires FirstSuitStraight(suitGroups).None?
    requires IsFourOfAKind(rankGroups).None?
    requires IsFullHouse(rankGroups).None?
    requires IsFlush(suitGroups).None?
    requires StraightHigh(RankSet(cards)).None?
    requires IsThreeOfAKind(cards).None?
    requires IsTwoPair(cards).None?
    requires IsOnePair(rankGroups).None?
    ensures Classify(cards, rankGroups, suitGroups) ==
      HandEvaluation(HighCard.Value(), HighCardOf(cards).primary, HighCardOf(cards).secondary, HighCardOf(cards).kicker)
  {
  }
}
