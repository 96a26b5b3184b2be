/**
 * The primary, secondary and kicker values the evaluator reports in each category, stated
 * on the pool: rank counts, the cards of each suit, the straights the ranks contain.
 */
module Values {
  import opened Cards
  import opened Pool
  import opened Straights
  import opened Evaluator
  import opened Classification

  // ----- from the pool to the cascade -----

  /** Evaluate is the cascade run on the sorted pool and its two groupings. */
  lemma EvaluateIsClassify(pool: seq<Card>)
    requires Evaluable(pool)
    ensures AllValid(SortByRankDesc(pool)) && |SortByRankDesc(pool)| >= 2
    ensures |SuitGroups(SortByRankDesc(pool))| > 0
    ensures Evaluate(pool) ==
      Classify(SortByRankDesc(pool), RankGroups(SortByRankDesc(pool)), SuitGroups(SortByRankDesc(pool)))
  {
    SortedPoolValid(pool);
    SuitGroupsNonEmpty(SortByRankDesc(pool));
  }

  /** Each check on the sorted pool succeeds exactly when its test on the pool holds. */
  lemma ChecksAreTests(pool: seq<Card>)
    requires |pool| > 0
    ensures |SuitGroups(SortByRankDesc(pool))| > 0
    ensures var cards := SortByRankDesc(pool);
      var rankGroups, suitGroups := RankGroups(cards), SuitGroups(cards);
      (FirstSuitStraight(suitGroups).Some? <==> HasSuitedStraight(pool)) &&
      (IsFourOfAKind(rankGroups).Some? <==> HasCount(pool, 4)) &&
      (IsFullHouse(rankGroups).Some? <==> HasCount(pool, 3) && HasCount(pool, 2)) &&
      (IsFlush(suitGroups).Some? <==> HasFlush(pool)) &&
      (StraightHigh(RankSet(cards)) == StraightHigh(RankSet(pool))) &&
      (IsThreeOfAKind(cards).Some? <==> HasCount(pool, 3)) &&
      (IsTwoPair(cards).Some? <==> HasTwoPairs(pool)) &&
      (IsOnePair(rankGroups).Some? <==> HasCount(pool, 2))
  {
    SuitedStraightTest(pool);
    FourTest(pool);
    FullHouseTest(pool);
    FlushTest(pool);
    StraightTest(pool);
    ThreeTest(pool);
    TwoPairTest(pool);
    OnePairTest(pool);
  }

  // ----- four of a kind -----

  /**
   * The four-of-a-kind kicker holds every card outside the groups of four, so each rank
   * appears in it as often as in the pool, unless that rank is held four times.
   */
  lemma FourKicker(cards: seq<Card>)
    requires SortedByRankDesc(cards) && IsFourOfAKind(RankGroups(cards)).Some?
    ensures forall x :: multiset(IsFourOfAKind(RankGroups(cards)).value.kicker)[x] ==
                        (if RankCounts(cards)[x] == 4 then 0 else RankCounts(cards)[x])
  {
    var gs := RankGroups(cards);
    var w := WithoutCount(gs, 4);
    SortedGroupsDistinct(cards);
    DistinctRanksSublist(gs, 4, {});
    RankGroupsComplete(cards);
    forall x ensures multiset(Expand(w))[x] == if RankCounts(cards)[x] == 4 then 0 else RankCounts(cards)[x] {
      ExpandCount(w, x);
      var n := RankCounts(cards)[x];
      if n > 0 && n != 4 {
        assert Group(x, n) in w;
      }
    }
  }

  /**
   * A four-of-a-kind result: the highest rank held four times, no secondary, and as kicker
   * the ranks of all the other cards.
   */
  lemma FourOfAKindValues(pool: seq<Card>)
    requires Evaluable(pool) && Category(pool) == FourOfAKind
    ensures var e := Evaluate(pool);
      e.rank == FourOfAKind.Value() && TopRankWithCount(RankCounts(pool), 4, e.primary) && e.secondary == 0 &&
      forall x :: multiset(e.kicker)[x] == if RankCounts(pool)[x] == 4 then 0 else RankCounts(pool)[x]
  {
    var cards := SortByRankDesc(pool);
    var rankGroups, suitGroups := RankGroups(cards), SuitGroups(cards);
    EvaluateIsClassify(pool);
    hide Evaluate;
    ChecksAreTests(pool);
    ClassifyFourOfAKind(cards, rankGroups, suitGroups);
    hide Classify;
    FourKicker(cards);
    FirstWithCountIsTop(cards, 4);
    SortedCounts(pool);
  }

  // ----- straight flush -----

  /** A straight-flush result: the high card of a straight within one suit, and nothing else. */
  lemma StraightFlushValues(pool: seq<Card>)
    requires Evaluable(pool) && Category(pool) == StraightFlush
    ensures var e := Evaluate(pool);
      e.rank == StraightFlush.Value() && e.secondary == 0 && e.kicker == [] &&
      exists s: Suit :: StraightHigh(RankSet(OfSuit(pool, s))) == Some(e.primary)
  {
    var cards := SortByRankDesc(pool);
    var rankGroups, suitGroups := RankGroups(cards), SuitGroups(cards);
    EvaluateIsClassify(pool);
    hide Evaluate;
    ChecksAreTests(pool);
    ClassifyStraightFlush(cards, rankGroups, suitGroups);
    hide Classify;
    FirstSuitStraightSpec(suitGroups);
    SuitGroupsSpec(cards);
    var i :| 0 <= i < |suitGroups| && StraightHigh(RankSet(suitGroups[i])) == FirstSuitStraight(suitGroups);
    var s := suitGroups[i][0].suit;
    SortByRankDescMultiset(pool);
    OfSuitOfPermutation(cards, pool, s);
    assert StraightHigh(RankSet(OfSuit(pool, s))) == Some(Evaluate(pool).primary);
  }

  // ----- full house -----

  /** A full-house result: the highest rank held three times over the highest held twice. */
  lemma FullHouseValues(pool: seq<Card>)
    requires Evaluable(pool) && Category(pool) == FullHouse
    ensures var e := Evaluate(pool);
      e.rank == FullHouse.Value() && e.kicker == [] &&
      TopRankWithCount(RankCounts(pool), 3, e.primary) && TopRankWithCount(RankCounts(pool), 2, e.secondary)
  {
    var cards := SortByRankDesc(pool);
    var rankGroups, suitGroups := RankGroups(cards), SuitGroups(cards);
    EvaluateIsClassify(pool);
    hide Evaluate;
    ChecksAreTests(pool);
    ClassifyFullHouse(cards, rankGroups, suitGroups);
    hide Classify;
    FirstWithCountIsTop(cards, 3);
    FirstWithCountIsTop(cards, 2);
    SortedCounts(pool);
  }

  // ----- flush -----

  /** s is a suit with five cards or more, no fewer than any other suit, and high is its top rank. */
  ghost predicate LargestSuitTop(pool: seq<Card>, s: Suit, high: int) {
    |OfSuit(pool, s)| >= 5 && (forall t: Suit :: |OfSuit(pool, t)| <= |OfSuit(pool, s)|) &&
    high in RankSet(OfSuit(pool, s)) && (forall r :: r in RankSet(OfSuit(pool, s)) ==> r <= high)
  }

  lemma LargestSuitTopOfPermutation(a: seq<Card>, b: seq<Card>, s: Suit, high: int)
    requires multiset(a) == multiset(b) && LargestSuitTop(a, s, high)
    ensures LargestSuitTop(b, s, high)
  {
    OfSuitOfPermutation(a, b, s);
    forall t: Suit ensures |OfSuit(b, t)| <= |OfSuit(b, s)| {
      OfSuitOfPermutation(a, b, t);
    }
  }

  /** The flush check reports the top rank of the first largest suit group. */
  lemma FlushInCards(cards: seq<Card>)
    requires |SuitGroups(cards)| > 0 && IsFlush(SuitGroups(cards)).Some?
    ensures exists s: Suit :: LargestSuitTop(cards, s, IsFlush(SuitGroups(cards)).value)
  {
    var suitGroups := SuitGroups(cards);
    SuitGroupsSpec(cards);
    var largest := LargestGroup(suitGroups);
    var i :| 0 <= i < |suitGroups| && suitGroups[i] == largest;
    var s := largest[0].suit;
    assert largest == OfSuit(cards, s);
    RanksAreRankSet(largest);
    forall t: Suit ensures |OfSuit(cards, t)| <= |OfSuit(cards, s)| {
      if |OfSuit(cards, t)| > 0 {
        assert OfSuit(cards, t) in suitGroups;
      }
    }
    assert LargestSuitTop(cards, s, IsFlush(suitGroups).value);
  }

  /**
   * A flush result: the top rank of a suit that has five cards or more and no fewer cards
   * than any other suit.
   */
  lemma FlushValues(pool: seq<Card>)
    requires Evaluable(pool) && Category(pool) == Flush
    ensures var e := Evaluate(pool);
      e.rank == Flush.Value() && e.secondary == 0 && e.kicker == [] &&
      exists s: Suit :: LargestSuitTop(pool, s, e.primary)
  {
    var cards := SortByRankDesc(pool);
    var rankGroups, suitGroups := RankGroups(cards), SuitGroups(cards);
    EvaluateIsClassify(pool);
    hide Evaluate;
    ChecksAreTests(pool);
    ClassifyFlush(cards, rankGroups, suitGroups);
    hide Classify;
    FlushInCards(cards);
    var s: Suit :| LargestSuitTop(cards, s, IsFlush(suitGroups).value);
    SortByRankDescMultiset(pool);
    LargestSuitTopOfPermutation(cards, pool, s, IsFlush(suitGroups).value);
  }

  // ----- straight -----

  /** A straight result: the high card StraightHigh gives for the ranks of the pool. */
  lemma StraightValues(pool: seq<Card>)
    requires Evaluable(pool) && Category(pool) == Straight
    ensures var e := Evaluate(pool);
      StraightHigh(RankSet(pool)).Some? &&
      e == HandEvaluation(Straight.Value(), StraightHigh(RankSet(pool)).value, 0, [])
  {
    var cards := SortByRankDesc(pool);
    var rankGroups, suitGroups := RankGroups(cards), SuitGroups(cards);
    EvaluateIsClassify(pool);
    hide Evaluate;
    ChecksAreTests(pool);
    ClassifyStraight(cards, rankGroups, suitGroups);
  }

  // ----- three of a kind -----

  /**
   * The three-of-a-kind secondary: the highest rank other than the trips, or 0 when every
   * card is of the trips' rank.
   */
  lemma ThreeSecondary(cards: seq<Card>)
    requires SortedByRankDesc(cards) && IsThreeOfAKind(cards).Some?
    ensures var t, sec := IsThreeOfAKind(cards).value.primary, IsThreeOfAKind(cards).value.secondary;
      if exists r :: RankCounts(cards)[r] > 0 && r != t then
        RankCounts(cards)[sec] > 0 && sec != t && forall r :: RankCounts(cards)[r] > 0 && r != t ==> r <= sec
      else sec == 0
  {
    var t := IsThreeOfAKind(cards).value.primary;
    var remaining := SortDesc(RanksExcept(cards, {t}));
    RemainingRanks(cards, t);
    if remaining != [] {
      DescendingHeadIsMax(remaining);
      assert remaining[0] in remaining;
    }
  }

  lemma DescendingHeadIsMax(rs: seq<int>)
    requires Descending(rs) && |rs| > 0
    ensures forall x :: x in rs ==> x <= rs[0]
  {
    forall x | x in rs ensures x <= rs[0] {
      var j :| 0 <= j < |rs| && rs[j] == x;
    }
  }

  /** The ranks left once the trips are set aside: every other rank the cards hold. */
  lemma RemainingRanks(cards: seq<Card>, t: int)
    ensures forall x :: x in SortDesc(RanksExcept(cards, {t})) <==> RankCounts(cards)[x] > 0 && x != t
  {
    var rest := RanksExcept(cards, {t});
    SortDescMultiset(rest);
    forall x ensures x in SortDesc(rest) <==> RankCounts(cards)[x] > 0 && x != t {
      RanksExceptCount(cards, {t}, x);
      assert x in SortDesc(rest) <==> x in multiset(SortDesc(rest));
    }
  }

  /**
   * A three-of-a-kind result: the highest rank held three times, and the highest other
   * rank as secondary (0 if there is none); the remaining ranks are dropped.
   */
  lemma ThreeOfAKindValues(pool: seq<Card>)
    requires Evaluable(pool) && Category(pool) == ThreeOfAKind
    ensures var e := Evaluate(pool);
      e.rank == ThreeOfAKind.Value() && e.kicker == [] && TopRankWithCount(RankCounts(pool), 3, e.primary) &&
      if exists r :: RankCounts(pool)[r] > 0 && r != e.primary then
        RankCounts(pool)[e.secondary] > 0 && e.secondary != e.primary &&
        forall r :: RankCounts(pool)[r] > 0 && r != e.primary ==> r <= e.secondary
      else e.secondary == 0
  {
    var cards := SortByRankDesc(pool);
    var rankGroups, suitGroups := RankGroups(cards), SuitGroups(cards);
    EvaluateIsClassify(pool);
    hide Evaluate;
    ChecksAreTests(pool);
    ClassifyThreeOfAKind(cards, rankGroups, suitGroups);
    hide Classify;
    ThreeSecondary(cards);
    FirstWithCountIsTop(cards, 3);
    SortedCounts(pool);
  }

  // ----- two pair -----

  /** The two pair ranks: the highest two ranks held exactly twice, the higher first. */
  lemma TwoPairRanks(cards: seq<Card>)
    requires SortedByRankDesc(cards) && IsTwoPair(cards).Some?
    ensures var high, low := IsTwoPair(cards).value.primary, IsTwoPair(cards).value.secondary;
      RankCounts(cards)[high] == 2 && RankCounts(cards)[low] == 2 && high > low &&
      forall r :: RankCounts(cards)[r] == 2 ==> r == high || r <= low
  {
    var pairs := PairRanks(cards);
    PairRanksMembers(cards);
    PairRanksDistinct(cards);
    assert pairs[0] in pairs && pairs[1] in pairs;
    forall r | RankCounts(cards)[r] == 2 ensures r == pairs[0] || r <= pairs[1] {
      var j :| 0 <= j < |pairs| && pairs[j] == r;
      if j > 1 {
        assert pairs[1] >= pairs[j];
      }
    }
  }

  /** A two-pair result: the two highest ranks held exactly twice; the kicker is dropped. */
  lemma TwoPairValues(pool: seq<Card>)
    requires Evaluable(pool) && Category(pool) == TwoPair
    ensures var e := Evaluate(pool);
      e.rank == TwoPair.Value() && e.kicker == [] &&
      RankCounts(pool)[e.primary] == 2 && RankCounts(pool)[e.secondary] == 2 && e.primary > e.secondary &&
      forall r :: RankCounts(pool)[r] == 2 ==> r == e.primary || r <= e.secondary
  {
    var cards := SortByRankDesc(pool);
    var rankGroups, suitGroups := RankGroups(cards), SuitGroups(cards);
    EvaluateIsClassify(pool);
    hide Evaluate;
    ChecksAreTests(pool);
    ClassifyTwoPair(cards, rankGroups, suitGroups);
    hide Classify;
    TwoPairRanks(cards);
    SortedCounts(pool);
  }

  // ----- one pair -----

  /** A one-pair result: the highest rank held exactly twice, and nothing else. */
  lemma OnePairValues(pool: seq<Card>)
    requires Evaluable(pool) && Category(pool) == OnePair
    ensures var e := Evaluate(pool);
      e.rank == OnePair.Value() && e.secondary == 0 && e.kicker == [] &&
      TopRankWithCount(RankCounts(pool), 2, e.primary)
  {
    var cards := SortByRankDesc(pool);
    var rankGroups, suitGroups := RankGroups(cards), SuitGroups(cards);
    EvaluateIsClassify(pool);
    hide Evaluate;
    ChecksAreTests(pool);
    ClassifyOnePair(cards, rankGroups, suitGroups);
    hide Classify;
    FirstWithCountIsTop(cards, 2);
    SortedCounts(pool);
  }

  /**
   * One-pair hands are compared on the pair alone: two one-pair pools whose highest pair
   * has the same rank evaluate identically, whatever their other cards.
   */
  lemma OnePairIgnoresKickers(pool1: seq<Card>, pool2: seq<Card>)
    requires Evaluable(pool1) && Category(pool1) == OnePair
    requires Evaluable(pool2) && Category(pool2) == OnePair
    requires forall r :: RankCounts(pool1)[r] == 2 <==> RankCounts(pool2)[r] == 2
    ensures Evaluate(pool1) == Evaluate(pool2)
  {
    hide Evaluate;
    OnePairValues(pool1);
    OnePairValues(pool2);
  }

  // ----- high card -----

  predicate StrictlyDescending(rs: seq<int>) {
    forall i, j :: 0 <= i < j < |rs| ==> rs[i] > rs[j]
  }

  lemma RepeatedValue(rs: seq<int>, i: int, j: int)
    requires 0 <= i < j < |rs| && rs[i] == rs[j]
    ensures multiset(rs)[rs[i]] >= 2
  {
    assert rs == rs[..j] + rs[j..];
    assert rs[i] in rs[..j] && rs[j] in rs[j..];
  }

  /** A descending sequence that repeats no value is strictly descending. */
  lemma DescendingWithoutRepeats(rs: seq<int>)
    requires Descending(rs) && forall x :: multiset(rs)[x] <= 1
    ensures StrictlyDescending(rs)
  {
    forall i, j | 0 <= i < j < |rs| ensures rs[i] > rs[j] {
      if rs[i] == rs[j] {
        RepeatedValue(rs, i, j);
        assert false;
      }
    }
  }

  /** The high-card values are the pool's ranks, from the highest down, in card order. */
  lemma HighCardRanks(cards: seq<Card>)
    requires SortedByRankDesc(cards) && |cards| >= 2
    ensures var h := HighCardOf(cards); [h.primary, h.secondary] + h.kicker == Ranks(cards)
  {
    var h := HighCardOf(cards);
    var listed := [h.primary, h.secondary] + h.kicker;
    forall k | 0 <= k < |listed| ensures listed[k] == Ranks(cards)[k] {
      if k >= 2 {
        assert listed[k] == Ranks(cards[2..])[k - 2];
      }
    }
  }

  /**
   * A high-card result lists every rank of the pool, the highest as primary and the next as
   * secondary; from a pool without repeated cards these values are strictly descending.
   */
  lemma HighCardValues(pool: seq<Card>)
    requires Evaluable(pool) && Category(pool) == HighCard
    ensures var e := Evaluate(pool);
      e.rank == HighCard.Value() && multiset([e.primary, e.secondary] + e.kicker) == RankCounts(pool) &&
      Descending([e.primary, e.secondary] + e.kicker)
    ensures NoDuplicates(pool) ==>
      var e := Evaluate(pool);
      StrictlyDescending([e.primary, e.secondary] + e.kicker)
  {
    var cards := SortByRankDesc(pool);
    var rankGroups, suitGroups := RankGroups(cards), SuitGroups(cards);
    EvaluateIsClassify(pool);
    hide Evaluate;
    ChecksAreTests(pool);
    ClassifyHighCardResult(cards, rankGroups, suitGroups);
    hide Classify;
    HighCardRanks(cards);
    SortedRanksDescending(cards);
    SortedCounts(pool);
    if NoDuplicates(pool) {
      forall x ensures RankCounts(pool)[x] <= 1 {
        AtMostFourOfARank(pool, x);
      }
      DescendingWithoutRepeats(Ranks(cards));
    }
  }
}
