/**
 * The card pool of one player (hand and board together) and the two groupings every
 * category check works from: cards by rank, ordered by group size and then by rank,
 * both descending; and cards by suit, in the order the suits first appear.
 */
module Pool {
  import opened Cards

  predicate AllValid(cards: seq<Card>) {
    forall i :: 0 <= i < |cards| ==> ValidCard(cards[i])
  }

  /** No card appears twice (a dealt pool). */
  predicate NoDuplicates(cards: seq<Card>) {
    forall i, j :: 0 <= i < j < |cards| ==> cards[i] != cards[j]
  }

  /** The ranks of the cards, position by position. */
  function Ranks(cards: seq<Card>): (rs: seq<int>)
    ensures |rs| == |cards|
    ensures forall i :: 0 <= i < |cards| ==> rs[i] == cards[i].rank
  {
    if cards == [] then [] else [cards[0].rank] + Ranks(cards[1..])
  }

  /** How many cards of each rank the pool holds. */
  function RankCounts(cards: seq<Card>): multiset<int> {
    multiset(Ranks(cards))
  }

  function RankSet(cards: seq<Card>): set<int> {
    set c | c in cards :: c.rank
  }

  // ----- ordering the pool by descending rank -----

  predicate SortedByRankDesc(cards: seq<Card>) {
    forall i, j :: 0 <= i < j < |cards| ==> cards[i].rank >= cards[j].rank
  }

  /** Puts c in front of every card of equal or lower rank (c comes first in the input). */
  function InsertByRank(c: Card, sorted: seq<Card>): (r: seq<Card>)
    requires SortedByRankDesc(sorted)
    ensures SortedByRankDesc(r)
    ensures |r| == |sorted| + 1
    ensures forall x :: x in r <==> x == c || x in sorted
  {
    if sorted == [] || c.rank >= sorted[0].rank then [c] + sorted
    else
      assert sorted == [sorted[0]] + sorted[1..];
      var rest := InsertByRank(c, sorted[1..]);
      assert forall x :: x in rest ==> x.rank <= sorted[0].rank;
      [sorted[0]] + rest
  }

  lemma {:induction false} InsertByRankMultiset(c: Card, sorted: seq<Card>)
    requires SortedByRankDesc(sorted)
    ensures multiset(InsertByRank(c, sorted)) == multiset(sorted) + multiset{c}
  {
    if sorted != [] && c.rank < sorted[0].rank {
      InsertByRankMultiset(c, sorted[1..]);
      assert sorted == [sorted[0]] + sorted[1..];
    }
  }

  /** A stable sort by descending rank (LINQ OrderByDescending). */
  function SortByRankDesc(cards: seq<Card>): (r: seq<Card>)
    ensures SortedByRankDesc(r)
    ensures |r| == |cards|
  {
    if cards == [] then [] else InsertByRank(cards[0], SortByRankDesc(cards[1..]))
  }

  /** Sorting neither loses nor adds a card. */
  lemma {:induction false} SortByRankDescMultiset(cards: seq<Card>)
    ensures multiset(SortByRankDesc(cards)) == multiset(cards)
  {
    if cards != [] {
      SortByRankDescMultiset(cards[1..]);
      InsertByRankMultiset(cards[0], SortByRankDesc(cards[1..]));
      assert cards == [cards[0]] + cards[1..];
    }
  }

  lemma RankCountsCons(c: Card, rest: seq<Card>, r: int)
    ensures RankCounts([c] + rest)[r] == RankCounts(rest)[r] + (if c.rank == r then 1 else 0)
  {
    assert ([c] + rest)[1..] == rest;
  }

  lemma CardCountCons(c: Card, rest: seq<Card>, x: Card)
    ensures multiset([c] + rest)[x] == multiset(rest)[x] + (if c == x then 1 else 0)
  {
    assert multiset([c] + rest) == multiset{c} + multiset(rest);
  }

  /** The number of cards of rank r is the sum of the four cards of rank r a pool can hold. */
  lemma {:induction false} RankCountBySuit(cards: seq<Card>, r: int)
    ensures RankCounts(cards)[r]
         == multiset(cards)[Card(r, Hearts)] + multiset(cards)[Card(r, Diamonds)]
          + multiset(cards)[Card(r, Clubs)] + multiset(cards)[Card(r, Spades)]
  {
    if cards != [] {
      var c, rest := cards[0], cards[1..];
      assert cards == [c] + rest;
      RankCountBySuit(rest, r);
      RankCountsCons(c, rest, r);
      CardCountCons(c, rest, Card(r, Hearts));
      CardCountCons(c, rest, Card(r, Diamonds));
      CardCountCons(c, rest, Card(r, Clubs));
      CardCountCons(c, rest, Card(r, Spades));
      assert (if c.rank == r then 1 else 0)
          == (if c == Card(r, Hearts) then 1 else 0) + (if c == Card(r, Diamonds) then 1 else 0)
           + (if c == Card(r, Clubs) then 1 else 0) + (if c == Card(r, Spades) then 1 else 0) by {
        match c.suit
        case Hearts =>
        case Diamonds =>
        case Clubs =>
        case Spades =>
      }
    }
  }

  /** Rank counts depend only on which cards the pool holds, not on their order. */
  lemma RankCountsOfPermutation(a: seq<Card>, b: seq<Card>)
    requires multiset(a) == multiset(b)
    ensures RankCounts(a) == RankCounts(b)
  {
    forall r ensures RankCounts(a)[r] == RankCounts(b)[r] {
      RankCountBySuit(a, r);
      RankCountBySuit(b, r);
    }
  }

  lemma {:induction false} NoDuplicatesAtMostOnce(cards: seq<Card>, c: Card)
    requires NoDuplicates(cards)
    ensures multiset(cards)[c] <= 1
  {
    if cards != [] {
      assert cards == [cards[0]] + cards[1..];
      NoDuplicatesAtMostOnce(cards[1..], c);
      if cards[0] == c {
        assert c !in cards[1..];
      }
    }
  }

  /** A pool without duplicate cards holds at most four cards of any rank. */
  lemma AtMostFourOfARank(cards: seq<Card>, r: int)
    requires NoDuplicates(cards)
    ensures RankCounts(cards)[r] <= 4
  {
    RankCountBySuit(cards, r);
    NoDuplicatesAtMostOnce(cards, Card(r, Hearts));
    NoDuplicatesAtMostOnce(cards, Card(r, Diamonds));
    NoDuplicatesAtMostOnce(cards, Card(r, Clubs));
    NoDuplicatesAtMostOnce(cards, Card(r, Spades));
  }

  lemma RankCountsValid(cards: seq<Card>, r: int)
    requires AllValid(cards) && RankCounts(cards)[r] > 0
    ensures ValidRank(r)
  {
    assert r in Ranks(cards);
  }

  // ----- grouping by rank -----

  /** A rank together with the number of cards of that rank. */
  datatype Group = Group(rank: int, count: nat)

  /**
   * Grouping ranks already in descending order: each run of equal ranks becomes one group,
   * in order of first appearance, as GroupBy keeps it.
   */
  function GroupRuns(rs: seq<int>): seq<Group>
  {
    if rs == [] then []
    else
      var rest := GroupRuns(rs[1..]);
      if rest != [] && rest[0].rank == rs[0] then [Group(rs[0], rest[0].count + 1)] + rest[1..]
      else [Group(rs[0], 1)] + rest
  }

  lemma MultisetTail(rs: seq<int>, r: int)
    requires |rs| > 0
    ensures multiset(rs)[r] == multiset(rs[1..])[r] + (if rs[0] == r then 1 else 0)
  {
    assert rs == [rs[0]] + rs[1..];
  }

  /** A rank above the first of descending ranks does not occur in them. */
  lemma RankAbove(rs: seq<int>, v: int)
    requires Descending(rs)
    requires rs == [] || rs[0] < v
    ensures multiset(rs)[v] == 0
  {
  }

  /** Group ranks that strictly decrease along the sequence. */
  predicate RanksDecreasing(gs: seq<Group>) {
    forall i, j :: 0 <= i < j < |gs| ==> gs[i].rank > gs[j].rank
  }

  lemma ConsRanksDecreasing(h: Group, gs: seq<Group>)
    requires RanksDecreasing(gs) && (gs == [] || gs[0].rank < h.rank)
    ensures RanksDecreasing([h] + gs)
  {
    forall i, j | 0 <= i < j < |[h] + gs| ensures ([h] + gs)[i].rank > ([h] + gs)[j].rank {
      if i == 0 {
        assert j - 1 == 0 || gs[0].rank > gs[j - 1].rank;
      }
    }
  }

  /** Every later group of a decreasing sequence is below its first. */
  lemma DecreasingHead(gs: seq<Group>)
    requires RanksDecreasing(gs) && gs != []
    ensures forall g :: g in gs[1..] ==> g.rank < gs[0].rank
    ensures forall g :: g in gs ==> g.rank <= gs[0].rank
  {
    forall g | g in gs ensures g.rank <= gs[0].rank && (g in gs[1..] ==> g.rank < gs[0].rank) {
      var k :| 0 <= k < |gs| && gs[k] == g;
      assert k == 0 || gs[0].rank > gs[k].rank;
      if g in gs[1..] {
        var m :| 0 <= m < |gs[1..]| && gs[1..][m] == g;
        assert gs[0].rank > gs[m + 1].rank;
      }
    }
  }

  /** On descending ranks the runs start at the first rank and come in strictly descending rank. */
  lemma {:induction false} GroupRunsOrder(rs: seq<int>)
    requires Descending(rs)
    ensures |rs| > 0 ==> |GroupRuns(rs)| > 0 && GroupRuns(rs)[0].rank == rs[0]
    ensures RanksDecreasing(GroupRuns(rs))
  {
    if rs != [] {
      var tail := rs[1..];
      GroupRunsOrder(tail);
      var rest := GroupRuns(tail);
      if rest != [] && rest[0].rank == rs[0] {
        assert RanksDecreasing(rest[1..]);
        assert rest[1..] == [] || rest[1..][0].rank < rest[0].rank;
        ConsRanksDecreasing(Group(rs[0], rest[0].count + 1), rest[1..]);
      } else {
        assert rest == [] || rest[0].rank <= rs[0];
        ConsRanksDecreasing(Group(rs[0], 1), rest);
      }
    }
  }

  /** Every run's count is the number of occurrences of its rank. */
  lemma GroupRunsCounts(rs: seq<int>)
    requires Descending(rs)
    ensures forall g :: g in GroupRuns(rs) ==> g.count == multiset(rs)[g.rank] > 0
  {
    forall g | g in GroupRuns(rs) ensures g.count == multiset(rs)[g.rank] > 0 {
      GroupRunCount(rs, g);
    }
  }

  lemma {:induction false} GroupRunCount(rs: seq<int>, g: Group)
    requires Descending(rs) && g in GroupRuns(rs)
    ensures g.count == multiset(rs)[g.rank] > 0
  {
    if g == GroupRuns(rs)[0] {
      HeadRun(rs);
    } else {
      LaterRun(rs, g);
      MultisetTail(rs, g.rank);
      GroupRunCount(rs[1..], g);
    }
  }

  /** The first run holds every occurrence of the first rank. */
  lemma {:induction false} HeadRun(rs: seq<int>)
    requires Descending(rs) && rs != []
    ensures GroupRuns(rs)[0] == Group(rs[0], multiset(rs)[rs[0]])
  {
    var tail := rs[1..];
    var rest := GroupRuns(tail);
    MultisetTail(rs, rs[0]);
    if tail != [] {
      HeadRun(tail);
      if rest[0].rank != rs[0] {
        RankAbove(tail, rs[0]);
      }
    }
  }

  /** A run after the first is a run of the rest, of a lower rank than the first. */
  lemma LaterRun(rs: seq<int>, g: Group)
    requires Descending(rs) && g in GroupRuns(rs) && g != GroupRuns(rs)[0]
    ensures g in GroupRuns(rs[1..]) && g.rank < rs[0]
  {
    var rest := GroupRuns(rs[1..]);
    GroupRunsOrder(rs[1..]);
    DecreasingHead(rest);
  }

  /** Every rank present has its run, with its count. */
  lemma {:induction false} GroupRunsHas(rs: seq<int>, r: int)
    requires Descending(rs) && multiset(rs)[r] > 0
    ensures Group(r, multiset(rs)[r]) in GroupRuns(rs)
  {
    if r == rs[0] {
      HeadRun(rs);
    } else {
      var rest := GroupRuns(rs[1..]);
      MultisetTail(rs, r);
      GroupRunsHas(rs[1..], r);
      if rest[0].rank == rs[0] {
        assert rest == [rest[0]] + rest[1..];
      }
    }
  }

  lemma GroupRunsComplete(rs: seq<int>)
    requires Descending(rs)
    ensures forall r :: multiset(rs)[r] > 0 ==> Group(r, multiset(rs)[r]) in GroupRuns(rs)
  {
    forall r | multiset(rs)[r] > 0 ensures Group(r, multiset(rs)[r]) in GroupRuns(rs) {
      GroupRunsHas(rs, r);
    }
  }

  lemma SortedRanksDescending(cards: seq<Card>)
    requires SortedByRankDesc(cards)
    ensures Descending(Ranks(cards))
  {
  }

  /** The group order: larger groups first, and among groups of one size the higher rank first. */
  predicate GroupBefore(a: Group, b: Group) {
    a.count > b.count || (a.count == b.count && a.rank > b.rank)
  }

  predicate SortedGroups(gs: seq<Group>) {
    forall i, j :: 0 <= i < j < |gs| ==> GroupBefore(gs[i], gs[j])
  }

  predicate DistinctRanks(gs: seq<Group>) {
    forall i, j :: 0 <= i < j < |gs| ==> gs[i].rank != gs[j].rank
  }

  function InsertGroup(g: Group, gs: seq<Group>): (r: seq<Group>)
    requires SortedGroups(gs)
    requires forall h :: h in gs ==> h.rank != g.rank
    ensures SortedGroups(r)
    ensures |r| == |gs| + 1
    ensures forall h :: h in r <==> h == g || h in gs
  {
    if gs == [] || GroupBefore(g, gs[0]) then [g] + gs
    else
      assert gs == [gs[0]] + gs[1..];
      var rest := InsertGroup(g, gs[1..]);
      assert GroupBefore(gs[0], g);
      assert forall h :: h in rest ==> GroupBefore(gs[0], h);
      [gs[0]] + rest
  }

  function SortGroups(gs: seq<Group>): (r: seq<Group>)
    requires DistinctRanks(gs)
    ensures SortedGroups(r)
    ensures |r| == |gs|
    ensures forall h :: h in r <==> h in gs
  {
    if gs == [] then []
    else
      assert gs == [gs[0]] + gs[1..];
      InsertGroup(gs[0], SortGroups(gs[1..]))
  }

  /** The rank groups of a pool, ordered by count and then by rank, both descending. */
  function RankGroups(cards: seq<Card>): (gs: seq<Group>)
    requires SortedByRankDesc(cards)
    ensures SortedGroups(gs)
    ensures forall g :: g in gs ==> g.count == RankCounts(cards)[g.rank] > 0
  {
    SortedRanksDescending(cards);
    GroupRunsOrder(Ranks(cards));
    GroupRunsCounts(Ranks(cards));
    SortGroups(GroupRuns(Ranks(cards)))
  }

  /** Every rank the pool holds has its group. */
  lemma RankGroupsComplete(cards: seq<Card>)
    requires SortedByRankDesc(cards)
    ensures forall r :: RankCounts(cards)[r] > 0 ==> Group(r, RankCounts(cards)[r]) in RankGroups(cards)
  {
    SortedRanksDescending(cards);
    GroupRunsComplete(Ranks(cards));
  }

  /** Two group lists sorted by the same strict order and holding the same groups are equal. */
  lemma {:induction false} SortedGroupsUnique(a: seq<Group>, b: seq<Group>)
    requires SortedGroups(a) && SortedGroups(b)
    requires forall g :: g in a <==> g in b
    ensures a == b
  {
    assert a != [] ==> a[0] in b;
    assert b != [] ==> b[0] in a;
    if a != [] && b != [] {
      assert a[0] == b[0];
      forall g ensures g in a[1..] <==> g in b[1..] {
        if g in a[1..] {
          var i :| 1 <= i < |a| && a[i] == g;
          assert GroupBefore(a[0], g);
          assert g in b;
        }
        if g in b[1..] {
          var j :| 1 <= j < |b| && b[j] == g;
          assert GroupBefore(b[0], g);
          assert g in a;
        }
      }
      SortedGroupsUnique(a[1..], b[1..]);
    }
  }

  /** The rank groups are the one sorted list holding each present rank with its count. */
  lemma RankGroupsUnique(cards: seq<Card>, gs: seq<Group>)
    requires SortedByRankDesc(cards) && SortedGroups(gs)
    requires forall g :: g in gs <==> g.count == RankCounts(cards)[g.rank] > 0
    ensures RankGroups(cards) == gs
  {
    RankGroupsComplete(cards);
    SortedGroupsUnique(RankGroups(cards), gs);
  }

  /** Sorted groups never repeat a rank once each rank has one count. */
  lemma SortedGroupsDistinct(cards: seq<Card>)
    requires SortedByRankDesc(cards)
    ensures DistinctRanks(RankGroups(cards))
  {
    var gs := RankGroups(cards);
    forall i, j | 0 <= i < j < |gs| ensures gs[i].rank != gs[j].rank {
      assert gs[i] in gs && gs[j] in gs;
      assert GroupBefore(gs[i], gs[j]);
    }
  }

  /** The rank of the first group with exactly k cards (LINQ FirstOrDefault on a count). */
  function FirstWithCount(gs: seq<Group>, k: nat): Option<int>
  {
    if gs == [] then None
    else if gs[0].count == k then Some(gs[0].rank)
    else FirstWithCount(gs[1..], k)
  }

  /** r is the highest rank that occurs exactly k times. */
  ghost predicate TopRankWithCount(counts: multiset<int>, k: nat, r: int) {
    counts[r] == k && forall r' :: counts[r'] == k ==> r' <= r
  }

  lemma {:induction false} FirstWithCountInSorted(gs: seq<Group>, k: nat)
    requires SortedGroups(gs)
    ensures FirstWithCount(gs, k).None? <==> forall g :: g in gs ==> g.count != k
    ensures FirstWithCount(gs, k).Some? ==>
      Group(FirstWithCount(gs, k).value, k) in gs &&
      forall g :: g in gs && g.count == k ==> g.rank <= FirstWithCount(gs, k).value
  {
    if gs != [] {
      FirstWithCountInSorted(gs[1..], k);
      assert gs == [gs[0]] + gs[1..];
      if gs[0].count == k {
        forall g | g in gs && g.count == k ensures g.rank <= gs[0].rank {
          var j :| 0 <= j < |gs| && gs[j] == g;
          if j > 0 { assert GroupBefore(gs[0], gs[j]); }
        }
      }
    }
  }

  /** On the pool's rank groups, the first group of k cards is that of the highest rank with k cards. */
  lemma FirstWithCountIsTop(cards: seq<Card>, k: nat)
    requires SortedByRankDesc(cards) && k > 0
    ensures FirstWithCount(RankGroups(cards), k).None? <==> forall r :: RankCounts(cards)[r] != k
    ensures FirstWithCount(RankGroups(cards), k).Some? ==>
      TopRankWithCount(RankCounts(cards), k, FirstWithCount(RankGroups(cards), k).value)
  {
    var gs := RankGroups(cards);
    var m := RankCounts(cards);
    FirstWithCountInSorted(gs, k);
    RankGroupsComplete(cards);
    match FirstWithCount(gs, k)
    case None =>
      forall r ensures m[r] != k {
        if m[r] == k {
          assert false;
        }
      }
    case Some(top) =>
      assert Group(top, k) in gs;
      forall r' | m[r'] == k ensures r' <= top {
        assert Group(r', k) in gs;
      }
  }

  // ----- expanding groups back into ranks -----

  function Repeat(r: int, n: nat): (s: seq<int>)
    ensures |s| == n && forall i :: 0 <= i < n ==> s[i] == r
  {
    if n == 0 then [] else [r] + Repeat(r, n - 1)
  }

  /** Every card's rank, group after group (LINQ SelectMany over the groups). */
  function Expand(gs: seq<Group>): seq<int>
  {
    if gs == [] then [] else Repeat(gs[0].rank, gs[0].count) + Expand(gs[1..])
  }

  lemma {:induction false} ExpandCount(gs: seq<Group>, x: int)
    requires DistinctRanks(gs)
    ensures forall g :: g in gs && g.rank == x ==> multiset(Expand(gs))[x] == g.count
    ensures (forall g :: g in gs ==> g.rank != x) ==> multiset(Expand(gs))[x] == 0
  {
    if gs != [] {
      ExpandCount(gs[1..], x);
      assert gs == [gs[0]] + gs[1..];
      var g0 := gs[0];
      assert multiset(Repeat(g0.rank, g0.count))[x] == if g0.rank == x then g0.count else 0 by {
        RepeatCount(g0.rank, g0.count, x);
      }
      if g0.rank == x {
        assert forall g :: g in gs[1..] ==> g.rank != x;
      }
    }
  }

  lemma {:induction false} RepeatCount(r: int, n: nat, x: int)
    ensures multiset(Repeat(r, n))[x] == if r == x then n else 0
  {
    if n > 0 {
      RepeatCount(r, n - 1, x);
    }
  }

  // ----- grouping by suit -----

  /** The cards of suit s, in pool order (LINQ GroupBy on the suit, one group). */
  function OfSuit(cards: seq<Card>, s: Suit): (r: seq<Card>)
    ensures forall c :: c in r <==> c in cards && c.suit == s
  {
    if cards == [] then []
    else (if cards[0].suit == s then [cards[0]] else []) + OfSuit(cards[1..], s)
  }

  lemma {:induction false} OfSuitMultiset(cards: seq<Card>, s: Suit, c: Card)
    ensures multiset(OfSuit(cards, s))[c] == if c.suit == s then multiset(cards)[c] else 0
  {
    if cards != [] {
      OfSuitMultiset(cards[1..], s, c);
      assert cards == [cards[0]] + cards[1..];
    }
  }

  /** The cards of one suit depend only on which cards the pool holds, not on their order. */
  lemma OfSuitOfPermutation(a: seq<Card>, b: seq<Card>, s: Suit)
    requires multiset(a) == multiset(b)
    ensures multiset(OfSuit(a, s)) == multiset(OfSuit(b, s))
    ensures |OfSuit(a, s)| == |OfSuit(b, s)|
    ensures RankSet(OfSuit(a, s)) == RankSet(OfSuit(b, s))
  {
    forall c ensures multiset(OfSuit(a, s))[c] == multiset(OfSuit(b, s))[c] {
      OfSuitMultiset(a, s, c);
      OfSuitMultiset(b, s, c);
    }
    assert multiset(OfSuit(a, s)) == multiset(OfSuit(b, s));
    assert |multiset(OfSuit(a, s))| == |multiset(OfSuit(b, s))|;
    forall r | r in RankSet(OfSuit(a, s)) ensures r in RankSet(OfSuit(b, s)) {
      var c :| c in OfSuit(a, s) && c.rank == r;
      assert c in multiset(OfSuit(b, s));
    }
    forall r | r in RankSet(OfSuit(b, s)) ensures r in RankSet(OfSuit(a, s)) {
      var c :| c in OfSuit(b, s) && c.rank == r;
      assert c in multiset(OfSuit(a, s));
    }
  }

  /** The suits of the cards in the order they first appear, after those already seen. */
  function SuitOrderFrom(cards: seq<Card>, seen: seq<Suit>): seq<Suit>
  {
    if cards == [] then seen
    else SuitOrderFrom(cards[1..], if cards[0].suit in seen then seen else seen + [cards[0].suit])
  }

  /** The order holds the suits seen and the suits of the cards, each once. */
  lemma {:induction false} SuitOrderFromSpec(cards: seq<Card>, seen: seq<Suit>)
    ensures forall s :: s in SuitOrderFrom(cards, seen) <==> s in seen || exists c :: c in cards && c.suit == s
    ensures (forall i, j :: 0 <= i < j < |seen| ==> seen[i] != seen[j]) ==>
              forall i, j :: 0 <= i < j < |SuitOrderFrom(cards, seen)| ==>
                SuitOrderFrom(cards, seen)[i] != SuitOrderFrom(cards, seen)[j]
  {
    if cards != [] {
      assert forall c :: c in cards <==> c == cards[0] || c in cards[1..];
      SuitOrderFromSpec(cards[1..], if cards[0].suit in seen then seen else seen + [cards[0].suit]);
    }
  }

  /** One group per suit of the order: all the cards of that suit. */
  function GroupsOfSuits(cards: seq<Card>, order: seq<Suit>): seq<seq<Card>>
  {
    if order == [] then [] else [OfSuit(cards, order[0])] + GroupsOfSuits(cards, order[1..])
  }

  lemma {:induction false} GroupsOfSuitsSpec(cards: seq<Card>, order: seq<Suit>)
    ensures |GroupsOfSuits(cards, order)| == |order|
    ensures forall i :: 0 <= i < |order| ==> GroupsOfSuits(cards, order)[i] == OfSuit(cards, order[i])
  {
    if order != [] {
      GroupsOfSuitsSpec(cards, order[1..]);
    }
  }

  /** The suit groups of a pool, one per suit present, in order of first appearance. */
  function SuitGroups(cards: seq<Card>): seq<seq<Card>>
  {
    GroupsOfSuits(cards, SuitOrderFrom(cards, []))
  }

  /** Every suit group is the whole of one suit, and every suit present has its group. */
  lemma SuitGroupsSpec(cards: seq<Card>)
    ensures forall i :: 0 <= i < |SuitGroups(cards)| ==>
      |SuitGroups(cards)[i]| > 0 && SuitGroups(cards)[i] == OfSuit(cards, SuitGroups(cards)[i][0].suit)
    ensures forall s :: |OfSuit(cards, s)| > 0 ==> OfSuit(cards, s) in SuitGroups(cards)
  {
    var order := SuitOrderFrom(cards, []);
    var ss: seq<seq<Card>> := SuitGroups(cards);
    SuitOrderFromSpec(cards, []);
    GroupsOfSuitsSpec(cards, order);
    forall i | 0 <= i < |ss| ensures |ss[i]| > 0 && ss[i] == OfSuit(cards, ss[i][0].suit) {
      var s := order[i];
      assert s in order;
      var c :| c in cards && c.suit == s;
      assert c in OfSuit(cards, s);
      assert ss[i] == OfSuit(cards, s);
      assert ss[i][0] in OfSuit(cards, s);
    }
    forall s | |OfSuit(cards, s)| > 0 ensures OfSuit(cards, s) in ss {
      var c := OfSuit(cards, s)[0];
      assert c in OfSuit(cards, s);
      assert s in order;
      var i :| 0 <= i < |order| && order[i] == s;
      assert ss[i] == OfSuit(cards, s);
    }
  }

  /** Every card of a suit group comes from the pool, so the groups of valid cards are valid. */
  lemma SuitGroupsValid(cards: seq<Card>)
    requires AllValid(cards)
    ensures forall i :: 0 <= i < |SuitGroups(cards)| ==> AllValid(SuitGroups(cards)[i])
  {
    SuitGroupsSpec(cards);
    forall i | 0 <= i < |SuitGroups(cards)| ensures AllValid(SuitGroups(cards)[i]) {
      var g := SuitGroups(cards)[i];
      forall j | 0 <= j < |g| ensures ValidCard(g[j]) {
        assert g[j] in g;
        assert g[j] in OfSuit(cards, g[0].suit);
        assert g[j] in cards;
      }
    }
  }

  // ----- plain rank sequences -----

  predicate Descending(rs: seq<int>) {
    forall i, j :: 0 <= i < j < |rs| ==> rs[i] >= rs[j]
  }

  function InsertDesc(x: int, rs: seq<int>): (r: seq<int>)
    requires Descending(rs)
    ensures Descending(r)
    ensures |r| == |rs| + 1
    ensures forall y :: y in r <==> y == x || y in rs
  {
    if rs == [] || x >= rs[0] then [x] + rs
    else
      assert rs == [rs[0]] + rs[1..];
      var rest := InsertDesc(x, rs[1..]);
      ConsDescending(rs[0], rest);
      [rs[0]] + rest
  }

  lemma ConsDescending(x: int, rest: seq<int>)
    requires Descending(rest) && forall y :: y in rest ==> y <= x
    ensures Descending([x] + rest)
  {
    var r := [x] + rest;
    forall i, j | 0 <= i < j < |r| ensures r[i] >= r[j] {
      assert r[j] == rest[j - 1] && rest[j - 1] in rest;
      if i > 0 {
        assert r[i] == rest[i - 1];
      }
    }
  }

  lemma {:induction false} InsertDescMultiset(x: int, rs: seq<int>)
    requires Descending(rs)
    ensures multiset(InsertDesc(x, rs)) == multiset(rs) + multiset{x}
  {
    if rs != [] && x < rs[0] {
      InsertDescMultiset(x, rs[1..]);
      assert rs == [rs[0]] + rs[1..];
    }
  }

  /** Ranks in descending order (LINQ OrderByDescending on the ranks). */
  function SortDesc(rs: seq<int>): (r: seq<int>)
    ensures Descending(r)
    ensures |r| == |rs|
  {
    if rs == [] then [] else InsertDesc(rs[0], SortDesc(rs[1..]))
  }

  lemma {:induction false} SortDescMultiset(rs: seq<int>)
    ensures multiset(SortDesc(rs)) == multiset(rs)
  {
    hide Descending, InsertDesc;
    if rs != [] {
      var sorted := SortDesc(rs[1..]);
      assert SortDesc(rs) == InsertDesc(rs[0], sorted);
      SortDescMultiset(rs[1..]);
      InsertDescMultiset(rs[0], sorted);
      assert multiset(rs) == multiset(rs[1..]) + multiset{rs[0]} by {
        assert rs == [rs[0]] + rs[1..];
      }
    }
  }

  /** The ranks of the cards whose rank is not in out, in card order (LINQ Where on the rank). */
  function RanksExcept(cards: seq<Card>, out: set<int>): (rs: seq<int>)
    ensures forall r :: r in rs <==> r !in out && r in Ranks(cards)
  {
    if cards == [] then []
    else (if cards[0].rank in out then [] else [cards[0].rank]) + RanksExcept(cards[1..], out)
  }

  lemma {:induction false} RanksExceptCount(cards: seq<Card>, out: set<int>, x: int)
    ensures multiset(RanksExcept(cards, out))[x] == if x in out then 0 else RankCounts(cards)[x]
  {
    if cards != [] {
      RanksExceptCount(cards[1..], out, x);
      RankCountsCons(cards[0], cards[1..], x);
      assert cards == [cards[0]] + cards[1..];
    }
  }

  /** The largest value of a non-empty sequence (LINQ Max). */
  function MaxOf(rs: seq<int>): (m: int)
    requires |rs| > 0
    ensures m in rs && forall x :: x in rs ==> x <= m
  {
    if |rs| == 1 then rs[0]
    else
      var rest := MaxOf(rs[1..]);
      assert forall x :: x in rs ==> x == rs[0] || x in rs[1..];
      if rs[0] >= rest then rs[0] else rest
  }

  // ----- filtering rank groups -----

  /** The groups whose size is not k, in order (LINQ Where on the group size). */
  function WithoutCount(gs: seq<Group>, k: nat): (r: seq<Group>)
    ensures forall g :: g in r <==> g in gs && g.count != k
  {
    if gs == [] then []
    else (if gs[0].count == k then [] else [gs[0]]) + WithoutCount(gs[1..], k)
  }

  /** The groups whose rank is not in out, in order. */
  function WithoutRanks(gs: seq<Group>, out: set<int>): (r: seq<Group>)
    ensures forall g :: g in r <==> g in gs && g.rank !in out
  {
    if gs == [] then []
    else (if gs[0].rank in out then [] else [gs[0]]) + WithoutRanks(gs[1..], out)
  }

  /** The ranks of the groups of exactly k cards, in group order. */
  function RanksWithCount(gs: seq<Group>, k: nat): (rs: seq<int>)
    ensures forall r :: r in rs <==> Group(r, k) in gs
  {
    if gs == [] then []
    else (if gs[0].count == k then [gs[0].rank] else []) + RanksWithCount(gs[1..], k)
  }

  lemma {:induction false} DistinctRanksSublist(gs: seq<Group>, k: nat, out: set<int>)
    requires DistinctRanks(gs)
    ensures DistinctRanks(WithoutCount(gs, k)) && DistinctRanks(WithoutRanks(gs, out))
  {
    if gs != [] {
      DistinctRanksSublist(gs[1..], k, out);
      assert forall g :: g in gs[1..] ==> g.rank != gs[0].rank;
    }
  }

  /** A pool holds no more distinct ranks than cards. */
  lemma {:induction false} RankSetSize(cards: seq<Card>)
    ensures |RankSet(cards)| <= |cards|
  {
    if cards != [] {
      RankSetSize(cards[1..]);
      assert RankSet(cards) == {cards[0].rank} + RankSet(cards[1..]) by {
        assert forall c :: c in cards <==> c == cards[0] || c in cards[1..];
      }
    }
  }
}
