/**
 * Straight detection: five consecutive ranks among the distinct ranks of some cards, the
 * Ace also counting as 1. The scan runs upward and stops at the first run, so it reports
 * the LOWEST run: A-2-3-4-5-6 has high card 5, not 6.
 */
module Straights {
  import opened Cards
  import opened Pool

  /** Ranks v, v+1, v+2, v+3 and v+4 are all present. */
  predicate RunFrom(s: set<int>, v: int) {
    v in s && v + 1 in s && v + 2 in s && v + 3 in s && v + 4 in s
  }

  /** The ranks a straight may use: an Ace is also a 1. */
  function AceLow(s: set<int>): set<int> {
    if Ace in s then s + {1} else s
  }

  predicate RanksInRange(s: set<int>) {
    forall r :: r in s ==> ValidRank(r)
  }

  /** The top of the first run of five that starts at v or above (the upward scan). */
  function LowestRunFrom(s: set<int>, v: int): Option<int>
    decreases 11 - v, s
  {
    if v > 10 then None
    else if RunFrom(s, v) then Some(v + 4)
    else LowestRunFrom(s, v + 1)
  }

  /** The high card of the straight IsStraight finds in a set of ranks, if any. */
  function StraightHigh(s: set<int>): Option<int> {
    LowestRunFrom(AceLow(s), 1)
  }

  lemma {:induction false} LowestRunFromSpec(s: set<int>, v: int)
    requires forall r :: r in s ==> 1 <= r <= Ace
    requires v >= 1
    ensures LowestRunFrom(s, v).None? <==> forall w :: v <= w ==> !RunFrom(s, w)
    ensures LowestRunFrom(s, v).Some? ==>
      var h := LowestRunFrom(s, v).value;
      v <= h - 4 && RunFrom(s, h - 4) && forall w :: v <= w < h - 4 ==> !RunFrom(s, w)
    decreases 11 - v, s
  {
    if v > 10 {
      forall w | v <= w ensures !RunFrom(s, w) {
      }
    } else if !RunFrom(s, v) {
      LowestRunFromSpec(s, v + 1);
      forall w | v <= w && RunFrom(s, w) ensures v + 1 <= w {
      }
    }
  }

  /**
   * StraightHigh finds a straight exactly when five consecutive ranks are present (an Ace
   * counting as 1 too), and its high card is the top of the lowest such run.
   */
  lemma StraightHighSpec(s: set<int>)
    requires RanksInRange(s)
    ensures StraightHigh(s).None? <==> forall v :: !RunFrom(AceLow(s), v)
    ensures StraightHigh(s).Some? ==>
      var h := StraightHigh(s).value;
      RunFrom(AceLow(s), h - 4) && forall v :: v < h - 4 ==> !RunFrom(AceLow(s), v)
  {
    var a := AceLow(s);
    LowestRunFromSpec(a, 1);
    forall v | v < 1 ensures !RunFrom(a, v) {
    }
  }

  /** The wheel: with A, 2, 3, 4 and 5 present, the high card is 5. */
  lemma WheelIsFiveHigh(s: set<int>)
    requires RanksInRange(s)
    requires Ace in s && 2 in s && 3 in s && 4 in s && 5 in s
    ensures StraightHigh(s) == Some(5)
  {
    assert RunFrom(AceLow(s), 1);
  }

  /** A-2-3-4-5-6 scores 5, the top of the lowest run, although 2-3-4-5-6 is also a run. */
  lemma LowestRunWins()
    ensures StraightHigh({Ace, 2, 3, 4, 5, 6}) == Some(5)
    ensures RunFrom(AceLow({Ace, 2, 3, 4, 5, 6}), 2)
  {
    assert RunFrom(AceLow({Ace, 2, 3, 4, 5, 6}), 1);
  }

  lemma SubsetSize(a: set<int>, b: set<int>)
    requires a <= b
    ensures |a| <= |b|
  {
    assert b == a + (b - a);
  }

  lemma RunSize(a: int, b: int)
    requires a + 3 < b
    ensures |{a, a + 1, a + 2, a + 3, b}| == 5
  {
  }

  /** Five consecutive ranks need five distinct ranks: a straight is never made of fewer. */
  lemma StraightNeedsFiveRanks(s: set<int>)
    requires RanksInRange(s) && StraightHigh(s).Some?
    ensures |s| >= 5
  {
    var v := StraightHigh(s).value - 4;
    assert RunFrom(AceLow(s), v) by {
      StraightHighSpec(s);
    }
    var run := if v == 1 then {2, 3, 4, 5, Ace} else {v, v + 1, v + 2, v + 3, v + 4};
    assert run <= s;
    assert |run| == 5 by {
      RunSize(if v == 1 then 2 else v, if v == 1 then Ace else v + 4);
    }
    SubsetSize(run, s);
  }

  // ----- the scan as the source runs it -----

  function ValuesOf(rs: seq<int>): set<int> {
    set x | x in rs
  }

  predicate StrictlyIncreasing(rs: seq<int>) {
    forall i, j :: 0 <= i < j < |rs| ==> rs[i] < rs[j]
  }

  lemma ConsIncreasing(v: int, rest: seq<int>)
    requires StrictlyIncreasing(rest) && forall x :: x in rest ==> v < x
    ensures StrictlyIncreasing([v] + rest)
  {
    var r := [v] + rest;
    forall i, j | 0 <= i < j < |r| ensures r[i] < r[j] {
      assert r[j] == rest[j - 1] && rest[j - 1] in rest;
      if i > 0 {
        assert r[i] == rest[i - 1];
      }
    }
  }

  /** Inserts x into a strictly increasing sequence, unless it is already there. */
  function InsertAscending(x: int, rs: seq<int>): (r: seq<int>)
    requires StrictlyIncreasing(rs)
    ensures StrictlyIncreasing(r)
    ensures forall y :: y in r <==> y == x || y in rs
  {
    if rs == [] || x < rs[0] then
      ConsIncreasing(x, rs);
      [x] + rs
    else if x == rs[0] then rs
    else
      assert rs == [rs[0]] + rs[1..];
      var rest := InsertAscending(x, rs[1..]);
      ConsIncreasing(rs[0], rest);
      [rs[0]] + rest
  }

  /** The distinct values of rs in ascending order (Distinct, then OrderBy). */
  function DistinctAscending(rs: seq<int>): (r: seq<int>)
    ensures StrictlyIncreasing(r)
    ensures forall y :: y in r <==> y in rs
  {
    if rs == [] then []
    else
      assert rs == [rs[0]] + rs[1..];
      InsertAscending(rs[0], DistinctAscending(rs[1..]))
  }

  /** In a strictly increasing sequence, a gap of 4 over four steps means five consecutive values. */
  lemma GapOfFourIsRun(rs: seq<int>, j: int)
    requires StrictlyIncreasing(rs) && 0 <= j && j + 4 < |rs|
    ensures rs[j + 4] - rs[j] == 4 <==> RunFrom(ValuesOf(rs), rs[j])
  {
    var s := ValuesOf(rs);
    if rs[j + 4] - rs[j] == 4 {
      assert rs[j] < rs[j + 1] < rs[j + 2] < rs[j + 3] < rs[j + 4];
      assert rs[j + 1] in s && rs[j + 2] in s && rs[j + 3] in s && rs[j + 4] in s;
    } else if RunFrom(s, rs[j]) {
      RunStartsAt(rs, j);
    }
  }

  /** A run that starts at rs[j] occupies positions j to j+4. */
  lemma RunStartsAt(rs: seq<int>, j: int)
    requires StrictlyIncreasing(rs) && 0 <= j < |rs|
    requires RunFrom(ValuesOf(rs), rs[j])
    ensures j + 4 < |rs| && rs[j + 4] - rs[j] == 4
  {
    var v := rs[j];
    NextValue(rs, j, v);
    NextValue(rs, j + 1, v + 1);
    NextValue(rs, j + 2, v + 2);
    NextValue(rs, j + 3, v + 3);
  }

  /** If rs[j] is v and v+1 is present, it sits right after v. */
  lemma NextValue(rs: seq<int>, j: int, v: int)
    requires StrictlyIncreasing(rs) && 0 <= j < |rs| && rs[j] == v && v + 1 in rs
    ensures j + 1 < |rs| && rs[j + 1] == v + 1
  {
    var m :| 0 <= m < |rs| && rs[m] == v + 1;
  }

  /** A rank occurs in the rank sequence exactly when some card has it. */
  lemma RanksAreRankSet(cards: seq<Card>)
    ensures forall x :: x in Ranks(cards) <==> x in RankSet(cards)
  {
    forall x ensures x in Ranks(cards) <==> x in RankSet(cards) {
      if x in Ranks(cards) {
        var k :| 0 <= k < |cards| && Ranks(cards)[k] == x;
        assert cards[k] in cards;
      }
      if x in RankSet(cards) {
        var c :| c in cards && c.rank == x;
        var k :| 0 <= k < |cards| && cards[k] == c;
        assert Ranks(cards)[k] == x;
      }
    }
  }

  /** The ranks IsStraight scans: the distinct ranks ascending, with a 1 in front when an Ace is present. */
  lemma ScanRanks(cards: seq<Card>, asc: seq<int>)
    requires AllValid(cards) && asc == DistinctAscending(Ranks(cards))
    ensures StrictlyIncreasing(asc) && ValuesOf(asc) == RankSet(cards)
    ensures Ace in asc ==> StrictlyIncreasing([1] + asc) && ValuesOf([1] + asc) == AceLow(RankSet(cards))
    ensures Ace !in asc ==> ValuesOf(asc) == AceLow(RankSet(cards))
  {
    RanksAreRankSet(cards);
    assert ValuesOf(asc) == RankSet(cards);
    if Ace in asc {
      assert 1 !in asc;
      ConsIncreasing(1, asc);
      assert ValuesOf([1] + asc) == AceLow(RankSet(cards));
    }
  }

  /** A window that spans 4 after windows that do not is the lowest run. */
  lemma ScanFound(ranks: seq<int>, i: int)
    requires StrictlyIncreasing(ranks) && 0 <= i && i + 4 < |ranks|
    requires forall j :: 0 <= j < i && j + 4 < |ranks| ==> ranks[j + 4] - ranks[j] != 4
    requires ranks[i + 4] - ranks[i] == 4
    ensures RunFrom(ValuesOf(ranks), ranks[i])
    ensures forall v :: v < ranks[i] ==> !RunFrom(ValuesOf(ranks), v)
  {
    GapOfFourIsRun(ranks, i);
    forall v | v < ranks[i] ensures !RunFrom(ValuesOf(ranks), v) {
      if RunFrom(ValuesOf(ranks), v) {
        var j :| 0 <= j < |ranks| && ranks[j] == v;
        RunStartsAt(ranks, j);
      }
    }
  }

  /** When no window spans 4, no run exists. */
  lemma ScanNotFound(ranks: seq<int>, i: int)
    requires StrictlyIncreasing(ranks) && 0 <= i && i > |ranks| - 5
    requires forall j :: 0 <= j < i && j + 4 < |ranks| ==> ranks[j + 4] - ranks[j] != 4
    ensures forall v :: !RunFrom(ValuesOf(ranks), v)
  {
    forall v ensures !RunFrom(ValuesOf(ranks), v) {
      if RunFrom(ValuesOf(ranks), v) {
        var j :| 0 <= j < |ranks| && ranks[j] == v;
        RunStartsAt(ranks, j);
      }
    }
  }

  /** The lowest run of five determines StraightHigh. */
  lemma LowestRunIsStraightHigh(s: set<int>, v: int)
    requires RanksInRange(s)
    requires RunFrom(AceLow(s), v) && forall w :: w < v ==> !RunFrom(AceLow(s), w)
    ensures StraightHigh(s) == Some(v + 4)
  {
    StraightHighSpec(s);
  }

  /** The sequence IsStraight scans: the distinct ranks ascending, with a 1 in front when an Ace is present. */
  function ScanList(cards: seq<Card>): seq<int> {
    var asc := DistinctAscending(Ranks(cards));
    if Ace in asc then [1] + asc else asc
  }

  /** The first window of the scan that spans 4 gives StraightHigh. */
  lemma StraightFoundAt(cards: seq<Card>, i: int)
    requires AllValid(cards) && 0 <= i && i + 4 < |ScanList(cards)|
    requires forall j :: 0 <= j < i ==> ScanList(cards)[j + 4] - ScanList(cards)[j] != 4
    requires ScanList(cards)[i + 4] - ScanList(cards)[i] == 4
    ensures StraightHigh(RankSet(cards)) == Some(ScanList(cards)[i + 4])
  {
    var ranks, s := ScanList(cards), RankSet(cards);
    assert StrictlyIncreasing(ranks) && ValuesOf(ranks) == AceLow(s) by {
      ScanRanks(cards, DistinctAscending(Ranks(cards)));
    }
    assert RunFrom(AceLow(s), ranks[i]) && forall w :: w < ranks[i] ==> !RunFrom(AceLow(s), w) by {
      ScanFound(ranks, i);
    }
    LowestRunIsStraightHigh(s, ranks[i]);
  }

  /** A scan that finds no window spanning 4 means StraightHigh finds nothing. */
  lemma StraightNotFound(cards: seq<Card>, i: int)
    requires AllValid(cards) && 0 <= i && i > |ScanList(cards)| - 5
    requires forall j :: 0 <= j < i && j + 4 < |ScanList(cards)| ==> ScanList(cards)[j + 4] - ScanList(cards)[j] != 4
    ensures StraightHigh(RankSet(cards)).None?
  {
    var ranks, s := ScanList(cards), RankSet(cards);
    assert StrictlyIncreasing(ranks) && ValuesOf(ranks) == AceLow(s) by {
      ScanRanks(cards, DistinctAscending(Ranks(cards)));
    }
    assert forall v :: !RunFrom(AceLow(s), v) by {
      ScanNotFound(ranks, i);
    }
    StraightHighSpec(s);
  }

  /**
   * IsStraight: the distinct ranks in ascending order, a 1 put in front when an Ace is
   * present, then an upward scan that stops at the first window of five spanning 4.
   */
  method IsStraight(cards: seq<Card>) returns (found: bool, high: int)
    requires AllValid(cards)
    ensures found == StraightHigh(RankSet(cards)).Some?
    ensures found ==> high == StraightHigh(RankSet(cards)).value
    ensures !found ==> high == 0
  {
    var asc := DistinctAscending(Ranks(cards));
    var ranks := asc;
    if Ace in asc {
      ranks := [1] + asc;
    }
    high := 0;
    var i := 0;
    while i <= |ranks| - 5
      invariant 0 <= i <= |ranks|
      invariant forall j :: 0 <= j < i && j + 4 < |ranks| ==> ranks[j + 4] - ranks[j] != 4
    {
      if ranks[i + 4] - ranks[i] == 4 {
        StraightFoundAt(cards, i);
        return true, ranks[i + 4];
      }
      i := i + 1;
    }
    StraightNotFound(cards, i);
    found := false;
  }

  /** The high card of the straight in the first suit group that has one. */
  function FirstSuitStraight(suitGroups: seq<seq<Card>>): Option<int>
  {
    if suitGroups == [] then None
    else match StraightHigh(RankSet(suitGroups[0]))
      case Some(h) => Some(h)
      case None => FirstSuitStraight(suitGroups[1..])
  }

  lemma {:induction false} FirstSuitStraightSkip(suitGroups: seq<seq<Card>>, i: nat)
    requires i <= |suitGroups|
    requires forall j :: 0 <= j < i ==> StraightHigh(RankSet(suitGroups[j])).None?
    ensures FirstSuitStraight(suitGroups) == FirstSuitStraight(suitGroups[i..])
  {
    if i > 0 {
      FirstSuitStraightSkip(suitGroups[1..], i - 1);
      assert suitGroups[1..][i - 1..] == suitGroups[i..];
    }
  }

  /**
   * The straight-flush check finds a straight in some suit group exactly when one has a
   * straight, and reports the high card of one of them (the first in group order).
   */
  lemma {:induction false} FirstSuitStraightSpec(suitGroups: seq<seq<Card>>)
    ensures FirstSuitStraight(suitGroups).None? <==>
      forall i :: 0 <= i < |suitGroups| ==> StraightHigh(RankSet(suitGroups[i])).None?
    ensures FirstSuitStraight(suitGroups).Some? ==>
      exists i :: 0 <= i < |suitGroups| && StraightHigh(RankSet(suitGroups[i])) == FirstSuitStraight(suitGroups)
  {
    if suitGroups != [] {
      FirstSuitStraightSpec(suitGroups[1..]);
      if StraightHigh(RankSet(suitGroups[0])).None? {
        if FirstSuitStraight(suitGroups).Some? {
          var i :| 0 <= i < |suitGroups[1..]| && StraightHigh(RankSet(suitGroups[1..][i])) == FirstSuitStraight(suitGroups[1..]);
          assert StraightHigh(RankSet(suitGroups[i + 1])) == FirstSuitStraight(suitGroups);
        }
        forall i | 0 <= i < |suitGroups| && StraightHigh(RankSet(suitGroups[i])).Some?
          ensures FirstSuitStraight(suitGroups).Some?
        {
          assert suitGroups[1..][i - 1] == suitGroups[i];
        }
      }
    }
  }

  /** IsStraightFlush: runs IsStraight on each suit group in turn and stops at the first straight. */
  method IsStraightFlush(suitGroups: seq<seq<Card>>) returns (found: bool, high: int)
    requires forall i :: 0 <= i < |suitGroups| ==> AllValid(suitGroups[i])
    ensures found == FirstSuitStraight(suitGroups).Some?
    ensures found ==> high == FirstSuitStraight(suitGroups).value
  {
    high := 0;
    for i := 0 to |suitGroups|
      invariant forall j :: 0 <= j < i ==> StraightHigh(RankSet(suitGroups[j])).None?
    {
      var f;
      f, high := IsStraight(suitGroups[i]);
      if f {
        FirstSuitStraightSkip(suitGroups, i);
        return true, high;
      }
    }
    FirstSuitStraightSkip(suitGroups, |suitGroups|);
    found := false;
  }
}
