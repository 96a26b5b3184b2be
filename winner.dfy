/**
 * Choosing the winners among the evaluated players: the best category first, then the
 * highest primary value, then the highest secondary value, and finally the greatest kicker
 * in lexicographic order. Every player still level after the four steps wins (a split pot).
 */
module Winner {
  import opened Evaluator

  // ----- comparing kickers -----

  /** Int32.CompareTo: -1, 0 or 1. */
  function CompareInt(x: int, y: int): int {
    if x < y then -1 else if x > y then 1 else 0
  }

  /**
   * Kickers compare value by value up to the shorter length; if all those agree, the
   * longer kicker is the greater.
   */
  function LexCompare(a: seq<int>, b: seq<int>): int {
    if a == [] || b == [] then CompareInt(|a|, |b|)
    else if a[0] != b[0] then CompareInt(a[0], b[0])
    else LexCompare(a[1..], b[1..])
  }

  lemma {:induction false} LexCompareRange(a: seq<int>, b: seq<int>)
    ensures -1 <= LexCompare(a, b) <= 1
  {
    if a != [] && b != [] && a[0] == b[0] {
      LexCompareRange(a[1..], b[1..]);
    }
  }

  /** Two kickers compare as equal exactly when they are the same sequence. */
  lemma {:induction false} LexCompareZero(a: seq<int>, b: seq<int>)
    ensures LexCompare(a, b) == 0 <==> a == b
  {
    if a != [] && b != [] && a[0] == b[0] {
      LexCompareZero(a[1..], b[1..]);
      assert a == [a[0]] + a[1..] && b == [b[0]] + b[1..];
    }
  }

  lemma {:induction false} LexCompareAntisymmetric(a: seq<int>, b: seq<int>)
    ensures LexCompare(a, b) == -LexCompare(b, a)
  {
    if a != [] && b != [] && a[0] == b[0] {
      LexCompareAntisymmetric(a[1..], b[1..]);
    }
  }

  lemma {:induction false} LexCompareTransitive(a: seq<int>, b: seq<int>, c: seq<int>)
    requires LexCompare(a, b) >= 0 && LexCompare(b, c) >= 0
    ensures LexCompare(a, c) >= 0
  {
    if a != [] && b != [] && c != [] && a[0] == b[0] && b[0] == c[0] {
      LexCompareTransitive(a[1..], b[1..], c[1..]);
    }
  }

  /** CompareKickers: the element-by-element loop, then the lengths. */
  method CompareKickers(a: seq<int>, b: seq<int>) returns (cmp: int)
    ensures cmp == LexCompare(a, b)
  {
    var minLen := if |a| < |b| then |a| else |b|;
    for i := 0 to minLen
      invariant LexCompare(a, b) == LexCompare(a[i..], b[i..])
    {
      var c := CompareInt(a[i], b[i]);
      if c != 0 {
        return c;
      }
      assert a[i..][1..] == a[i + 1..] && b[i..][1..] == b[i + 1..];
    }
    cmp := CompareInt(|a|, |b|);
  }

  // ----- the narrowing steps -----

  datatype Field = RankField | PrimaryField | SecondaryField

  function FieldOf(e: HandEvaluation, f: Field): int {
    match f
    case RankField => e.rank
    case PrimaryField => e.primary
    case SecondaryField => e.secondary
  }

  /** The largest value of one field among the results (LINQ Max). */
  function MaxField(rs: seq<PlayerResult>, f: Field): (m: int)
    requires |rs| > 0
    ensures exists r :: r in rs && FieldOf(r.evaluation, f) == m
    ensures forall r :: r in rs ==> FieldOf(r.evaluation, f) <= m
  {
    var n := |rs| - 1;
    if n == 0 then FieldOf(rs[0].evaluation, f)
    else
      var m := MaxField(rs[..n], f);
      assert forall r :: r in rs ==> r in rs[..n] || r == rs[n];
      assert rs[n] in rs;
      if FieldOf(rs[n].evaluation, f) > m then FieldOf(rs[n].evaluation, f) else m
  }

  lemma MaxFieldSnoc(rs: seq<PlayerResult>, i: int, f: Field)
    requires 0 < i < |rs|
    ensures MaxField(rs[..i + 1], f) ==
      (if FieldOf(rs[i].evaluation, f) > MaxField(rs[..i], f) then FieldOf(rs[i].evaluation, f) else MaxField(rs[..i], f))
  {
    assert rs[..i + 1][..i] == rs[..i];
  }

  /** The results whose field equals v, in order (LINQ Where). */
  function WithField(rs: seq<PlayerResult>, f: Field, v: int): (kept: seq<PlayerResult>)
    ensures forall r :: r in kept <==> r in rs && FieldOf(r.evaluation, f) == v
  {
    if rs == [] then []
    else
      var n := |rs| - 1;
      assert forall r :: r in rs <==> r in rs[..n] || r == rs[n];
      WithField(rs[..n], f, v) + (if FieldOf(rs[n].evaluation, f) == v then [rs[n]] else [])
  }

  /** The results whose kicker compares equal to k, in order. */
  function WithKicker(rs: seq<PlayerResult>, k: seq<int>): (kept: seq<PlayerResult>)
    ensures forall r :: r in kept <==> r in rs && LexCompare(r.evaluation.kicker, k) == 0
  {
    if rs == [] then []
    else
      var n := |rs| - 1;
      assert forall r :: r in rs <==> r in rs[..n] || r == rs[n];
      WithKicker(rs[..n], k) + (if LexCompare(rs[n].evaluation.kicker, k) == 0 then [rs[n]] else [])
  }

  /** MaxBy over the kickers: a scan that replaces the current key only by a strictly greater one. */
  function KickerFold(rs: seq<PlayerResult>, key: seq<int>): seq<int> {
    if rs == [] then key
    else KickerFold(rs[1..], if LexCompare(rs[0].evaluation.kicker, key) > 0 then rs[0].evaluation.kicker else key)
  }

  function MaxKicker(rs: seq<PlayerResult>): seq<int>
    requires |rs| > 0
  {
    KickerFold(rs[1..], rs[0].evaluation.kicker)
  }

  /** The scan ends on the starting key or on one of the kickers, and no kicker compares above it. */
  lemma {:induction false} KickerFoldSpec(rs: seq<PlayerResult>, key: seq<int>)
    ensures var k := KickerFold(rs, key);
      (k == key || exists r :: r in rs && r.evaluation.kicker == k) &&
      LexCompare(k, key) >= 0 && forall r :: r in rs ==> LexCompare(k, r.evaluation.kicker) >= 0
  {
    var k := KickerFold(rs, key);
    if rs == [] {
      LexCompareZero(key, key);
    } else {
      var next := if LexCompare(rs[0].evaluation.kicker, key) > 0 then rs[0].evaluation.kicker else key;
      KickerFoldSpec(rs[1..], next);
      assert forall r :: r in rs ==> r == rs[0] || r in rs[1..];
      LexCompareAntisymmetric(rs[0].evaluation.kicker, key);
      LexCompareZero(key, key);
      LexCompareZero(rs[0].evaluation.kicker, rs[0].evaluation.kicker);
      LexCompareTransitive(k, next, key);
      LexCompareTransitive(k, next, rs[0].evaluation.kicker);
    }
  }

  lemma MaxKickerSpec(rs: seq<PlayerResult>)
    requires |rs| > 0
    ensures exists r :: r in rs && r.evaluation.kicker == MaxKicker(rs)
    ensures forall r :: r in rs ==> LexCompare(MaxKicker(rs), r.evaluation.kicker) >= 0
  {
    KickerFoldSpec(rs[1..], rs[0].evaluation.kicker);
    assert forall r :: r in rs ==> r == rs[0] || r in rs[1..];
    assert rs[0] in rs;
  }

  /** What EvaluateWinner returns: the four narrowing steps, in the source's order. */
  function Winners(results: seq<PlayerResult>): seq<PlayerResult>
    requires |results| > 0
  {
    var top1 := WithField(results, RankField, MaxField(results, RankField));
    var top2 := WithField(top1, PrimaryField, MaxField(top1, PrimaryField));
    var top3 := WithField(top2, SecondaryField, MaxField(top2, SecondaryField));
    WithKicker(top3, MaxKicker(top3))
  }

  // ----- the loops -----

  method MaxOfField(rs: seq<PlayerResult>, f: Field) returns (m: int)
    requires |rs| > 0
    ensures m == MaxField(rs, f)
  {
    m := FieldOf(rs[0].evaluation, f);
    for i := 1 to |rs|
      invariant m == MaxField(rs[..i], f)
    {
      MaxFieldSnoc(rs, i, f);
      if FieldOf(rs[i].evaluation, f) > m {
        m := FieldOf(rs[i].evaluation, f);
      }
    }
    assert rs[..|rs|] == rs;
  }

  method KeepField(rs: seq<PlayerResult>, f: Field, v: int) returns (kept: seq<PlayerResult>)
    ensures kept == WithField(rs, f, v)
  {
    kept := [];
    for i := 0 to |rs|
      invariant kept == WithField(rs[..i], f, v)
    {
      assert rs[..i + 1][..i] == rs[..i];
      if FieldOf(rs[i].evaluation, f) == v {
        kept := kept + [rs[i]];
      }
    }
    assert rs[..|rs|] == rs;
  }

  method MaxKickerOf(rs: seq<PlayerResult>) returns (k: seq<int>)
    requires |rs| > 0
    ensures k == MaxKicker(rs)
  {
    k := rs[0].evaluation.kicker;
    for i := 1 to |rs|
      invariant KickerFold(rs[i..], k) == MaxKicker(rs)
    {
      assert rs[i..][1..] == rs[i + 1..];
      var cmp := CompareKickers(rs[i].evaluation.kicker, k);
      if cmp > 0 {
        k := rs[i].evaluation.kicker;
      }
    }
  }

  method KeepKicker(rs: seq<PlayerResult>, k: seq<int>) returns (kept: seq<PlayerResult>)
    ensures kept == WithKicker(rs, k)
  {
    kept := [];
    for i := 0 to |rs|
      invariant kept == WithKicker(rs[..i], k)
    {
      assert rs[..i + 1][..i] == rs[..i];
      var cmp := CompareKickers(rs[i].evaluation.kicker, k);
      if cmp == 0 {
        kept := kept + [rs[i]];
      }
    }
    assert rs[..|rs|] == rs;
  }

  /** EvaluateWinner: narrows the results by category, primary, secondary and kicker. */
  method EvaluateWinner(results: seq<PlayerResult>) returns (winners: seq<PlayerResult>)
    requires |results| > 0
    ensures winners == Winners(results)
  {
    var topRank := MaxOfField(results, RankField);
    var topPlayers := KeepField(results, RankField, topRank);
    var maxPrimary := MaxOfField(topPlayers, PrimaryField);
    topPlayers := KeepField(topPlayers, PrimaryField, maxPrimary);
    var maxSecondary := MaxOfField(topPlayers, SecondaryField);
    topPlayers := KeepField(topPlayers, SecondaryField, maxSecondary);
    var maxKicker := MaxKickerOf(topPlayers);
    winners := KeepKicker(topPlayers, maxKicker);
  }

  // ----- what the winners are -----

  /** e is at least as good as f: by category, then primary, then secondary, then kicker. */
  predicate AtLeast(e: HandEvaluation, f: HandEvaluation) {
    e.rank > f.rank || (e.rank == f.rank &&
      (e.primary > f.primary || (e.primary == f.primary &&
        (e.secondary > f.secondary || (e.secondary == f.secondary && LexCompare(e.kicker, f.kicker) >= 0)))))
  }

  /** r is at least as good as every result. */
  predicate IsBest(results: seq<PlayerResult>, r: PlayerResult) {
    forall s :: s in results ==> AtLeast(r.evaluation, s.evaluation)
  }

  /** The results of rs that are best among all, in order. */
  function BestOf(all: seq<PlayerResult>, rs: seq<PlayerResult>): (kept: seq<PlayerResult>)
    ensures forall r :: r in kept <==> r in rs && IsBest(all, r)
  {
    if rs == [] then []
    else
      var n := |rs| - 1;
      assert forall r :: r in rs <==> r in rs[..n] || r == rs[n];
      BestOf(all, rs[..n]) + (if IsBest(all, rs[n]) then [rs[n]] else [])
  }

  lemma WithFieldSnoc(rs: seq<PlayerResult>, x: PlayerResult, f: Field, v: int)
    ensures WithField(rs + [x], f, v) == WithField(rs, f, v) + (if FieldOf(x.evaluation, f) == v then [x] else [])
  {
    assert (rs + [x])[..|rs|] == rs;
  }

  lemma WithKickerSnoc(rs: seq<PlayerResult>, x: PlayerResult, k: seq<int>)
    ensures WithKicker(rs + [x], k) == WithKicker(rs, k) + (if LexCompare(x.evaluation.kicker, k) == 0 then [x] else [])
  {
    assert (rs + [x])[..|rs|] == rs;
  }

  /** A result that passes all four steps of the narrowing, with the maxima given. */
  predicate Survives(r: PlayerResult, m1: int, m2: int, m3: int, k: seq<int>) {
    r.evaluation.rank == m1 && r.evaluation.primary == m2 && r.evaluation.secondary == m3 &&
    LexCompare(r.evaluation.kicker, k) == 0
  }

  /** The four filters in a row, with the maxima given. */
  function Chain(rs: seq<PlayerResult>, m1: int, m2: int, m3: int, k: seq<int>): seq<PlayerResult> {
    WithKicker(WithField(WithField(WithField(rs, RankField, m1), PrimaryField, m2), SecondaryField, m3), k)
  }

  lemma ChainSnoc(rs: seq<PlayerResult>, x: PlayerResult, m1: int, m2: int, m3: int, k: seq<int>)
    ensures Chain(rs + [x], m1, m2, m3, k) == Chain(rs, m1, m2, m3, k) + (if Survives(x, m1, m2, m3, k) then [x] else [])
  {
    var t1 := WithField(rs, RankField, m1);
    var t2 := WithField(t1, PrimaryField, m2);
    var t3 := WithField(t2, SecondaryField, m3);
    hide WithField, WithKicker;
    WithFieldSnoc(rs, x, RankField, m1);
    if x.evaluation.rank != m1 {
      assert WithField(rs + [x], RankField, m1) == t1;
    } else if x.evaluation.primary != m2 {
      WithFieldSnoc(t1, x, PrimaryField, m2);
      assert WithField(t1 + [x], PrimaryField, m2) == t2;
    } else if x.evaluation.secondary != m3 {
      WithFieldSnoc(t1, x, PrimaryField, m2);
      WithFieldSnoc(t2, x, SecondaryField, m3);
      assert WithField(t2 + [x], SecondaryField, m3) == t3;
    } else {
      WithFieldSnoc(t1, x, PrimaryField, m2);
      WithFieldSnoc(t2, x, SecondaryField, m3);
      WithKickerSnoc(t3, x, k);
    }
  }

  /** The four filters in a row keep what one filter by the combined condition keeps. */
  lemma {:induction false} ChainIsBestOf(all: seq<PlayerResult>, rs: seq<PlayerResult>, m1: int, m2: int, m3: int, k: seq<int>)
    requires forall r :: r in rs ==> (Survives(r, m1, m2, m3, k) <==> IsBest(all, r))
    ensures Chain(rs, m1, m2, m3, k) == BestOf(all, rs)
  {
    if rs != [] {
      var n := |rs| - 1;
      var x := rs[n];
      assert rs == rs[..n] + [x];
      assert x in rs;
      assert forall r :: r in rs[..n] ==> r in rs;
      ChainIsBestOf(all, rs[..n], m1, m2, m3, k);
      ChainSnoc(rs[..n], x, m1, m2, m3, k);
    }
  }

  /** A result survives the four steps exactly when it is at least as good as every result. */
  lemma SurvivorsAreBest(results: seq<PlayerResult>)
    requires |results| > 0
    ensures var top1 := WithField(results, RankField, MaxField(results, RankField));
      var top2 := WithField(top1, PrimaryField, MaxField(top1, PrimaryField));
      var top3 := WithField(top2, SecondaryField, MaxField(top2, SecondaryField));
      forall r :: r in results ==>
        (Survives(r, MaxField(results, RankField), MaxField(top1, PrimaryField), MaxField(top2, SecondaryField), MaxKicker(top3))
         <==> IsBest(results, r))
  {
    var m1 := MaxField(results, RankField);
    var top1 := WithField(results, RankField, m1);
    var m2 := MaxField(top1, PrimaryField);
    var top2 := WithField(top1, PrimaryField, m2);
    var m3 := MaxField(top2, SecondaryField);
    var top3 := WithField(top2, SecondaryField, m3);
    var k := MaxKicker(top3);
    MaxKickerSpec(top3);
    forall r | r in results ensures Survives(r, m1, m2, m3, k) <==> IsBest(results, r) {
      if Survives(r, m1, m2, m3, k) {
        LexCompareZero(r.evaluation.kicker, k);
        forall s | s in results ensures AtLeast(r.evaluation, s.evaluation) {
          if s.evaluation.rank == m1 && s.evaluation.primary == m2 && s.evaluation.secondary == m3 {
            assert s in top3;
          }
        }
      }
      if IsBest(results, r) {
        var s1 :| s1 in results && s1.evaluation.rank == m1;
        assert AtLeast(r.evaluation, s1.evaluation);
        var s2 :| s2 in top1 && s2.evaluation.primary == m2;
        assert AtLeast(r.evaluation, s2.evaluation);
        var s3 :| s3 in top2 && s3.evaluation.secondary == m3;
        assert AtLeast(r.evaluation, s3.evaluation);
        var s4 :| s4 in top3 && s4.evaluation.kicker == k;
        assert AtLeast(r.evaluation, s4.evaluation);
        assert r in top3;
        LexCompareAntisymmetric(r.evaluation.kicker, k);
      }
    }
  }

  /**
   * The winners are exactly the results at least as good as every other, by category,
   * primary, secondary and kicker, kept in the order of the results.
   */
  lemma WinnersAreBest(results: seq<PlayerResult>)
    requires |results| > 0
    ensures Winners(results) == BestOf(results, results)
  {
    var m1 := MaxField(results, RankField);
    var top1 := WithField(results, RankField, m1);
    var m2 := MaxField(top1, PrimaryField);
    var top2 := WithField(top1, PrimaryField, m2);
    var m3 := MaxField(top2, SecondaryField);
    var top3 := WithField(top2, SecondaryField, m3);
    SurvivorsAreBest(results);
    ChainIsBestOf(results, results, m1, m2, m3, MaxKicker(top3));
    assert Winners(results) == Chain(results, m1, m2, m3, MaxKicker(top3));
  }

  /** There is always a winner. */
  lemma WinnersNonEmpty(results: seq<PlayerResult>)
    requires |results| > 0
    ensures |Winners(results)| > 0
  {
    var m1 := MaxField(results, RankField);
    var top1 := WithField(results, RankField, m1);
    var m2 := MaxField(top1, PrimaryField);
    var top2 := WithField(top1, PrimaryField, m2);
    var m3 := MaxField(top2, SecondaryField);
    var top3 := WithField(top2, SecondaryField, m3);
    MaxKickerSpec(top3);
    var w :| w in top3 && w.evaluation.kicker == MaxKicker(top3);
    LexCompareZero(w.evaluation.kicker, MaxKicker(top3));
    assert w in Winners(results);
  }

  /** All winners hold evaluations equal in every field: they split the pot. */
  lemma WinnersTie(results: seq<PlayerResult>, w1: PlayerResult, w2: PlayerResult)
    requires |results| > 0 && w1 in Winners(results) && w2 in Winners(results)
    ensures w1.evaluation == w2.evaluation
  {
    WinnersAreBest(results);
    assert AtLeast(w1.evaluation, w2.evaluation) && AtLeast(w2.evaluation, w1.evaluation);
    LexCompareAntisymmetric(w1.evaluation.kicker, w2.evaluation.kicker);
    LexCompareZero(w1.evaluation.kicker, w2.evaluation.kicker);
  }
}
