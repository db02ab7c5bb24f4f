/**
 Non-maximum suppression. The sort is not stable, so everything is stated for whichever order by
 non-increasing score it produced.
 */
module Nms {
  import opened Common

  datatype Box = Box(x1: real, y1: real, x2: real, y2: real)

  function RMin(a: real, b: real): real { if a <= b then a else b }

  function RMax(a: real, b: real): real { if a >= b then a else b }

  function Area(b: Box): real { (b.x2 - b.x1) * (b.y2 - b.y1) }

  function Overlap(a: Box, b: Box): real {
    RMax(0.0, RMin(a.x2, b.x2) - RMax(a.x1, b.x1)) * RMax(0.0, RMin(a.y2, b.y2) - RMax(a.y1, b.y1))
  }

  function Iou(a: Box, b: Box): real {
    var common := Overlap(a, b);
    var union := Area(a) + Area(b) - common;
    if union > 0.0 then common / union else 0.0
  }

  predicate WellFormed(b: Box) { b.x1 <= b.x2 && b.y1 <= b.y2 }

  lemma IouSymmetric(a: Box, b: Box)
    ensures Iou(a, b) == Iou(b, a)
  {
    assert Overlap(a, b) == Overlap(b, a);
  }

  /** The box two boxes have in common: on each side the inner of their edges. */
  ghost predicate IsCommon(common: Box, a: Box, b: Box) {
    && (common.x1 == a.x1 || common.x1 == b.x1) && common.x1 >= a.x1 && common.x1 >= b.x1
    && (common.y1 == a.y1 || common.y1 == b.y1) && common.y1 >= a.y1 && common.y1 >= b.y1
    && (common.x2 == a.x2 || common.x2 == b.x2) && common.x2 <= a.x2 && common.x2 <= b.x2
    && (common.y2 == a.y2 || common.y2 == b.y2) && common.y2 <= a.y2 && common.y2 <= b.y2
  }

  lemma SameProduct(w: real, h: real, w': real, h': real)
    requires w == w' && h == h'
    ensures w * h == w' * h'
  {
  }

  lemma Nothing(w: real, h: real)
    requires w == 0.0 || h == 0.0
    ensures w * h == 0.0
  {
  }

  lemma OverlapOfCommon(a: Box, b: Box, common: Box)
    requires IsCommon(common, a, b)
    ensures WellFormed(common) ==> Overlap(a, b) == Area(common)
    ensures !WellFormed(common) ==> Overlap(a, b) == 0.0
  {
    var w, h := RMax(0.0, RMin(a.x2, b.x2) - RMax(a.x1, b.x1)), RMax(0.0, RMin(a.y2, b.y2) - RMax(a.y1, b.y1));
    if WellFormed(common) {
      SameProduct(w, h, common.x2 - common.x1, common.y2 - common.y1);
    } else {
      Nothing(w, h);
    }
  }

  /** With one area in common: that area over the areas of both less what they share, or 0 when they have no area. */
  lemma IouIsRatio(a: Box, b: Box, common: Box, areaA: real, areaB: real, shared: real)
    requires IsCommon(common, a, b) && WellFormed(common)
    requires areaA == (a.x2 - a.x1) * (a.y2 - a.y1) && areaB == (b.x2 - b.x1) * (b.y2 - b.y1)
    requires shared == (common.x2 - common.x1) * (common.y2 - common.y1)
    ensures Iou(a, b) == if areaA + areaB - shared > 0.0 then shared / (areaA + areaB - shared) else 0.0
  {
    AreaIs(a, areaA);
    AreaIs(b, areaB);
    AreaIs(common, shared);
    OverlapOfCommon(a, b, common);
    RatioOf(a, b, areaA, areaB, shared, areaA + areaB - shared);
  }

  lemma AreaIs(b: Box, area: real)
    requires area == (b.x2 - b.x1) * (b.y2 - b.y1)
    ensures Area(b) == area
  {
  }

  lemma RatioOf(a: Box, b: Box, areaA: real, areaB: real, shared: real, union: real)
    requires areaA == Area(a) && areaB == Area(b) && shared == Overlap(a, b) && union == areaA + areaB - shared
    ensures Iou(a, b) == if union > 0.0 then shared / union else 0.0
  {
    var own := Area(a) + Area(b) - Overlap(a, b);
    assert own == union;
    if union > 0.0 { SameRatio(Overlap(a, b), own, shared, union); }
  }

  lemma SameRatio(x: real, y: real, x': real, y': real)
    requires x == x' && y == y' && y > 0.0
    ensures x / y == x' / y'
  {
  }

  lemma Itself(x: real)
    requires x > 0.0
    ensures x / x == 1.0
  {
  }

  /** A box of positive area overlaps itself wholly. */
  lemma IouOfItself(a: Box)
    requires WellFormed(a) && (a.x2 - a.x1) * (a.y2 - a.y1) > 0.0
    ensures Iou(a, a) == 1.0
  {
    var area := (a.x2 - a.x1) * (a.y2 - a.y1);
    IouIsRatio(a, a, a, area, area, area);
    Itself(area);
    assert area + area - area == area;
  }

  /** Boxes one of which ends where the other begins do not overlap at all. */
  lemma IouOfDisjoint(a: Box, b: Box)
    requires a.x2 <= b.x1 || a.y2 <= b.y1
    ensures Iou(a, b) == 0.0 && Iou(b, a) == 0.0
  {
    Nothing(RMax(0.0, RMin(a.x2, b.x2) - RMax(a.x1, b.x1)), RMax(0.0, RMin(a.y2, b.y2) - RMax(a.y1, b.y1)));
    assert Overlap(a, b) == 0.0;
    IouSymmetric(a, b);
  }

  lemma Products(a: real, b: real, c: real, d: real)
    requires 0.0 <= a <= c && 0.0 <= b <= d
    ensures 0.0 <= a * b <= c * d
  {
    assert a * b <= c * b;
    assert c * b <= c * d;
  }

  lemma OverlapInside(a: Box, b: Box)
    requires WellFormed(a) && WellFormed(b)
    ensures 0.0 <= Overlap(a, b) <= Area(a) && Overlap(a, b) <= Area(b)
  {
    var w := RMax(0.0, RMin(a.x2, b.x2) - RMax(a.x1, b.x1));
    var h := RMax(0.0, RMin(a.y2, b.y2) - RMax(a.y1, b.y1));
    Products(w, h, a.x2 - a.x1, a.y2 - a.y1);
    Products(w, h, b.x2 - b.x1, b.y2 - b.y1);
  }

  lemma Ratio(a: real, b: real)
    requires 0.0 <= a <= b && b > 0.0
    ensures 0.0 <= a / b <= 1.0
  {
    var q := a / b;
    assert q * b == a;
    assert q >= 0.0 && q <= 1.0;
  }

  lemma IouInUnitInterval(a: Box, b: Box)
    requires WellFormed(a) && WellFormed(b)
    ensures 0.0 <= Iou(a, b) <= 1.0
  {
    OverlapInside(a, b);
    var common := Overlap(a, b);
    var union := Area(a) + Area(b) - common;
    if union > 0.0 { Ratio(common, union); }
  }

  // ---------------------------------------------------------------- greedy selection

  datatype Candidates = Candidates(boxes: seq<Box>, scores: seq<real>)

  datatype Thresholds = Thresholds(overlap: real, minConf: real)

  predicate Valid(c: Candidates) { |c.boxes| == |c.scores| }

  predicate AllBelow(s: seq<nat>, n: nat) { forall i :: 0 <= i < |s| ==> s[i] < n }

  /** Some result of sorting the indices by non-increasing score. */
  ghost predicate IsOrder(scores: seq<real>, order: seq<nat>) {
    && |order| == |scores| && AllBelow(order, |scores|) && NoDuplicates(order)
    && forall i, j :: 0 <= i < j < |order| ==> scores[order[i]] >= scores[order[j]]
  }

  predicate Clash(c: Candidates, t: Thresholds, i: nat, k: nat)
    requires Valid(c) && i < |c.boxes| && k < |c.boxes|
  {
    Iou(c.boxes[i], c.boxes[k]) >= t.overlap
  }

  predicate Suppressed(c: Candidates, t: Thresholds, keep: seq<nat>, i: nat)
    requires Valid(c) && AllBelow(keep, |c.boxes|) && i < |c.boxes|
  {
    exists m :: 0 <= m < |keep| && Clash(c, t, i, keep[m])
  }

  function Greedy(c: Candidates, t: Thresholds, order: seq<nat>): (keep: seq<nat>)
    requires Valid(c) && AllBelow(order, |c.boxes|)
    ensures AllBelow(keep, |c.boxes|) && |keep| <= |order|
    decreases |order|
  {
    if order == [] then []
    else
      var keep, i := Greedy(c, t, order[..|order| - 1]), order[|order| - 1];
      if c.scores[i] < t.minConf || Suppressed(c, t, keep, i) then keep else keep + [i]
  }

  /** The loop of the original, over the order its sort produced. */
  method Nms(c: Candidates, t: Thresholds) returns (keep: seq<nat>)
    requires Valid(c)
    ensures exists order :: IsOrder(c.scores, order) && keep == Greedy(c, t, order)
  {
    var idx := SortByScore(c.scores);
    keep := [];
    var n := 0;
    while n < |idx|
      invariant 0 <= n <= |idx| && keep == Greedy(c, t, idx[..n])
    {
      var i := idx[n];
      assert idx[..n + 1][..n] == idx[..n];
      n := n + 1;
      if c.scores[i] < t.minConf { continue; }
      var ok, k := true, 0;
      while k < |keep|
        invariant 0 <= k <= |keep| && ok && forall m :: 0 <= m < k ==> !Clash(c, t, i, keep[m])
      {
        if Iou(c.boxes[i], c.boxes[keep[k]]) >= t.overlap { ok := false; break; }
        k := k + 1;
      }
      assert ok <==> !Suppressed(c, t, keep, i);
      if ok { keep := keep + [i]; }
    }
    assert idx[..n] == idx;
  }

  /** Any sort will do; this one inserts. */
  method SortByScore(scores: seq<real>) returns (order: seq<nat>)
    ensures IsOrder(scores, order)
  {
    order := [];
    while |order| < |scores|
      invariant |order| <= |scores| && IsOrder(scores[..|order|], order)
    {
      var at := PlaceFor(scores, order);
      InsertIndex(scores, order, |order|, at);
      order := Inserted(order, |order|, at);
    }
    assert scores[..|scores|] == scores;
  }

  method PlaceFor(scores: seq<real>, order: seq<nat>) returns (at: nat)
    requires |order| < |scores| && AllBelow(order, |order|)
    ensures at <= |order| && forall j :: 0 <= j < at ==> scores[order[j]] >= scores[|order|]
    ensures at < |order| ==> scores[order[at]] < scores[|order|]
  {
    at := 0;
    while at < |order| && scores[order[at]] >= scores[|order|]
      invariant 0 <= at <= |order| && forall j :: 0 <= j < at ==> scores[order[j]] >= scores[|order|]
    {
      at := at + 1;
    }
  }

  function Inserted(order: seq<nat>, i: nat, at: nat): (next: seq<nat>)
    requires at <= |order|
    ensures |next| == |order| + 1
    ensures forall j :: 0 <= j < |next| ==> next[j] == if j < at then order[j] else if j == at then i else order[j - 1]
  {
    order[..at] + [i] + order[at..]
  }

  lemma InsertIndex(scores: seq<real>, order: seq<nat>, i: nat, at: nat)
    requires i < |scores| && |order| == i && at <= i && IsOrder(scores[..i], order)
    requires forall j :: 0 <= j < at ==> scores[order[j]] >= scores[i]
    requires at < i ==> scores[order[at]] < scores[i]
    ensures IsOrder(scores[..i + 1], Inserted(order, i, at))
  {
    var next := Inserted(order, i, at);
    InsertDistinct(order, i, at);
    InsertSorted(scores, order, i, at);
    assert forall j :: 0 <= j < |next| ==> scores[..i + 1][next[j]] == scores[next[j]];
  }

  lemma InsertDistinct(order: seq<nat>, i: nat, at: nat)
    requires at <= |order| && NoDuplicates(order) && AllBelow(order, i)
    ensures NoDuplicates(Inserted(order, i, at)) && AllBelow(Inserted(order, i, at), i + 1)
  {
  }

  lemma InsertSorted(scores: seq<real>, order: seq<nat>, i: nat, at: nat)
    requires i < |scores| && |order| == i && at <= i && IsOrder(scores[..i], order)
    requires forall j :: 0 <= j < at ==> scores[order[j]] >= scores[i]
    requires at < i ==> scores[order[at]] < scores[i]
    ensures AllBelow(Inserted(order, i, at), i + 1)
    ensures forall j, k :: 0 <= j < k <= i ==> scores[Inserted(order, i, at)[j]] >= scores[Inserted(order, i, at)[k]]
  {
    assert forall j :: 0 <= j < |order| ==> scores[..i][order[j]] == scores[order[j]];
    assert forall j :: at <= j < |order| ==> scores[order[at]] >= scores[order[j]];
  }

  // ---------------------------------------------------------------- what is selected

  /** `i` comes before `j` in the order. */
  ghost predicate Before(order: seq<nat>, i: nat, j: nat) {
    exists a, b :: 0 <= a < b < |order| && order[a] == i && order[b] == j
  }

  /** No two chosen boxes clash, all chosen score enough, and whatever else does clashes with an earlier chosen one. */
  ghost predicate Canonical(c: Candidates, t: Thresholds, order: seq<nat>, chosen: set<nat>)
    requires Valid(c) && AllBelow(order, |c.boxes|)
  {
    && (forall i :: i in chosen ==> i in order && c.scores[i] >= t.minConf)
    && (forall i, k :: i in chosen && k in chosen && Before(order, k, i) ==> !Clash(c, t, i, k))
    && (forall i :: i in order && i !in chosen && c.scores[i] >= t.minConf ==> Beaten(c, t, order, chosen, i))
  }

  ghost predicate Beaten(c: Candidates, t: Thresholds, order: seq<nat>, chosen: set<nat>, i: nat)
    requires Valid(c) && i < |c.boxes|
  {
    exists k :: k in chosen && Before(order, k, i) && k < |c.boxes| && Clash(c, t, i, k)
  }

  function Members(s: seq<nat>): set<nat> { set i | i in s }

  /** The selection is a subsequence of the order. */
  lemma {:induction false} GreedyInOrder(c: Candidates, t: Thresholds, order: seq<nat>, a: nat, b: nat)
    requires Valid(c) && AllBelow(order, |c.boxes|)
    requires a < b < |Greedy(c, t, order)|
    ensures Before(order, Greedy(c, t, order)[a], Greedy(c, t, order)[b])
    decreases |order|
  {
    var n := |order| - 1;
    var keep, last := Greedy(c, t, order[..n]), order[n];
    if b < |keep| {
      GreedyInOrder(c, t, order[..n], a, b);
      BeforeLonger(order, n, keep[a], keep[b]);
    } else {
      GreedyFromOrder(c, t, order[..n], a);
      var p :| 0 <= p < n && order[..n][p] == keep[a];
      assert order[p] == keep[a] && order[n] == last;
    }
  }

  lemma BeforeLonger(order: seq<nat>, n: nat, i: nat, j: nat)
    requires n <= |order| && Before(order[..n], i, j)
    ensures Before(order, i, j)
  {
    var a, b :| 0 <= a < b < n && order[..n][a] == i && order[..n][b] == j;
    assert order[a] == i && order[b] == j;
  }

  lemma {:induction false} GreedyFromOrder(c: Candidates, t: Thresholds, order: seq<nat>, a: nat)
    requires Valid(c) && AllBelow(order, |c.boxes|) && a < |Greedy(c, t, order)|
    ensures Greedy(c, t, order)[a] in order && c.scores[Greedy(c, t, order)[a]] >= t.minConf
    decreases |order|
  {
    var n := |order| - 1;
    if a < |Greedy(c, t, order[..n])| {
      GreedyFromOrder(c, t, order[..n], a);
      assert forall x :: x in order[..n] ==> x in order;
    }
  }

  lemma {:induction false} GreedyApart(c: Candidates, t: Thresholds, order: seq<nat>, a: nat, b: nat)
    requires Valid(c) && AllBelow(order, |c.boxes|) && a < b < |Greedy(c, t, order)|
    ensures !Clash(c, t, Greedy(c, t, order)[b], Greedy(c, t, order)[a])
    decreases |order|
  {
    var n := |order| - 1;
    var keep := Greedy(c, t, order[..n]);
    if b < |keep| {
      GreedyApart(c, t, order[..n], a, b);
    } else {
      assert keep[a] == Greedy(c, t, order)[a];
    }
  }

  lemma {:induction false} GreedyKeeps(c: Candidates, t: Thresholds, order: seq<nat>, n: nat)
    requires Valid(c) && AllBelow(order, |c.boxes|) && n <= |order|
    ensures Greedy(c, t, order[..n]) <= Greedy(c, t, order)
    decreases |order|
  {
    if n < |order| {
      GreedyKeeps(c, t, order[..|order| - 1], n);
      assert order[..|order| - 1][..n] == order[..n];
    } else {
      assert order[..n] == order;
    }
  }

  /** A box of sufficient score that is not kept clashes with a kept one of at least its score. */
  lemma RejectedIsBeaten(c: Candidates, t: Thresholds, order: seq<nat>, p: nat)
    requires Valid(c) && AllBelow(order, |c.boxes|) && p < |order|
    requires c.scores[order[p]] >= t.minConf && order[p] !in Greedy(c, t, order)
    ensures Beaten(c, t, order, Members(Greedy(c, t, order)), order[p])
  {
    var keep := Greedy(c, t, order[..p]);
    RejectedIsSuppressed(c, t, order, p);
    var m :| 0 <= m < |keep| && Clash(c, t, order[p], keep[m]);
    GreedyFromOrder(c, t, order[..p], m);
    var q :| 0 <= q < p && order[..p][q] == keep[m];
    GreedyKeeps(c, t, order, p);
    assert Greedy(c, t, order)[m] == keep[m] && order[q] == keep[m];
    assert keep[m] in Members(Greedy(c, t, order)) && Before(order, keep[m], order[p]);
  }

  lemma RejectedIsSuppressed(c: Candidates, t: Thresholds, order: seq<nat>, p: nat)
    requires Valid(c) && AllBelow(order, |c.boxes|) && p < |order|
    requires c.scores[order[p]] >= t.minConf && order[p] !in Greedy(c, t, order)
    ensures Suppressed(c, t, Greedy(c, t, order[..p]), order[p])
  {
    GreedyNext(c, t, order, p);
    GreedyKeeps(c, t, order, p + 1);
    InPrefix(Greedy(c, t, order[..p + 1]), Greedy(c, t, order), order[p]);
  }

  lemma GreedyNext(c: Candidates, t: Thresholds, order: seq<nat>, p: nat)
    requires Valid(c) && AllBelow(order, |c.boxes|) && p < |order|
    ensures c.scores[order[p]] < t.minConf || Suppressed(c, t, Greedy(c, t, order[..p]), order[p])
            || order[p] in Greedy(c, t, order[..p + 1])
  {
    assert order[..p + 1][..p] == order[..p] && order[..p + 1][p] == order[p];
  }

  lemma InPrefix(a: seq<nat>, b: seq<nat>, x: nat)
    requires a <= b && x !in b
    ensures x !in a
  {
  }

  lemma InOrder(c: Candidates, t: Thresholds, order: seq<nat>, k: nat)
    requires Valid(c) && AllBelow(order, |c.boxes|) && k in Greedy(c, t, order)
    ensures k in order && c.scores[k] >= t.minConf
  {
    var a :| 0 <= a < |Greedy(c, t, order)| && Greedy(c, t, order)[a] == k;
    GreedyFromOrder(c, t, order, a);
  }

  lemma BeforeMeansIndices(order: seq<nat>, i: nat, j: nat)
    requires NoDuplicates(order) && Before(order, i, j)
    ensures i != j && !Before(order, j, i)
  {
  }

  /** The selection is canonical. */
  lemma GreedyIsCanonical(c: Candidates, t: Thresholds, order: seq<nat>)
    requires Valid(c) && AllBelow(order, |c.boxes|) && NoDuplicates(order)
    ensures Canonical(c, t, order, Members(Greedy(c, t, order)))
  {
    var keep := Greedy(c, t, order);
    forall i | i in Members(keep) ensures i in order && c.scores[i] >= t.minConf { InOrder(c, t, order, i); }
    forall i, k | i in Members(keep) && k in Members(keep) && Before(order, k, i) ensures !Clash(c, t, i, k) {
      var b :| 0 <= b < |keep| && keep[b] == i;
      var a :| 0 <= a < |keep| && keep[a] == k;
      BeforeMeansIndices(order, k, i);
      if b < a { GreedyInOrder(c, t, order, b, a); BeforeMeansIndices(order, i, k); }
      GreedyApart(c, t, order, a, b);
    }
    forall i | i in order && i !in Members(keep) && c.scores[i] >= t.minConf
      ensures Beaten(c, t, order, Members(keep), i)
    {
      var p :| 0 <= p < |order| && order[p] == i;
      RejectedIsBeaten(c, t, order, p);
    }
  }

  /** And there is no other: two canonical sets agree on every position of the order. */
  lemma {:induction false} CanonicalAgree(c: Candidates, t: Thresholds, order: seq<nat>, s: set<nat>, u: set<nat>, p: nat)
    requires Valid(c) && AllBelow(order, |c.boxes|) && NoDuplicates(order) && p < |order|
    requires Canonical(c, t, order, s) && Canonical(c, t, order, u)
    ensures order[p] in s <==> order[p] in u
    decreases p
  {
    forall q | 0 <= q < p ensures order[q] in s <==> order[q] in u { CanonicalAgree(c, t, order, s, u, q); }
    OneSided(c, t, order, s, u, p);
    OneSided(c, t, order, u, s, p);
  }

  lemma OneSided(c: Candidates, t: Thresholds, order: seq<nat>, s: set<nat>, u: set<nat>, p: nat)
    requires Valid(c) && AllBelow(order, |c.boxes|) && NoDuplicates(order) && p < |order|
    requires Canonical(c, t, order, s) && Canonical(c, t, order, u)
    requires forall q :: 0 <= q < p ==> (order[q] in s <==> order[q] in u)
    ensures order[p] in s ==> order[p] in u
  {
    assert forall k :: Before(order, k, order[p]) ==> (k in s <==> k in u);
  }

  /** The selection is the only canonical set for its order. */
  lemma GreedyIsUnique(c: Candidates, t: Thresholds, order: seq<nat>, chosen: set<nat>)
    requires Valid(c) && AllBelow(order, |c.boxes|) && NoDuplicates(order)
    ensures Canonical(c, t, order, chosen) <==> chosen == Members(Greedy(c, t, order))
  {
    GreedyIsCanonical(c, t, order);
    if Canonical(c, t, order, chosen) {
      var keep := Members(Greedy(c, t, order));
      forall i ensures i in chosen <==> i in keep {
        if i in chosen || i in keep {
          var p :| 0 <= p < |order| && order[p] == i;
          CanonicalAgree(c, t, order, chosen, keep, p);
        }
      }
    }
  }

  /** Scores of the survivors do not increase, they are high enough, and no two of them clash, either way round. */
  lemma Survivors(c: Candidates, t: Thresholds, order: seq<nat>, a: nat, b: nat)
    requires Valid(c) && IsOrder(c.scores, order) && a < b < |Greedy(c, t, order)|
    ensures var keep := Greedy(c, t, order);
            && c.scores[keep[a]] >= c.scores[keep[b]] >= t.minConf
            && Iou(c.boxes[keep[a]], c.boxes[keep[b]]) < t.overlap && Iou(c.boxes[keep[b]], c.boxes[keep[a]]) < t.overlap
  {
    var keep := Greedy(c, t, order);
    GreedyFromOrder(c, t, order, b);
    GreedyInOrder(c, t, order, a, b);
    GreedyApart(c, t, order, a, b);
    IouSymmetric(c.boxes[keep[a]], c.boxes[keep[b]]);
  }

  /** A rejected box of sufficient score overlaps a survivor of at least its score. */
  lemma Rejected(c: Candidates, t: Thresholds, order: seq<nat>, i: nat) returns (k: nat)
    requires Valid(c) && IsOrder(c.scores, order) && i in order
    requires c.scores[i] >= t.minConf && i !in Greedy(c, t, order)
    ensures k in Greedy(c, t, order) && k < |c.boxes| && c.scores[k] >= c.scores[i]
    ensures Iou(c.boxes[i], c.boxes[k]) >= t.overlap
  {
    var p :| 0 <= p < |order| && order[p] == i;
    RejectedIsBeaten(c, t, order, p);
    k :| k in Members(Greedy(c, t, order)) && Before(order, k, i) && k < |c.boxes| && Clash(c, t, i, k);
  }

  // ---------------------------------------------------------------- running again

  function Picked(c: Candidates, keep: seq<nat>): (r: Candidates)
    requires Valid(c) && AllBelow(keep, |c.boxes|)
    ensures Valid(r) && |r.boxes| == |keep|
  {
    Candidates(seq(|keep|, i requires 0 <= i < |keep| => c.boxes[keep[i]]),
               seq(|keep|, i requires 0 <= i < |keep| => c.scores[keep[i]]))
  }

  /** When nothing clashes and everything scores enough, everything is kept, in the order given. */
  lemma {:induction false} NothingToReject(c: Candidates, t: Thresholds, order: seq<nat>)
    requires Valid(c) && AllBelow(order, |c.boxes|) && NoDuplicates(order)
    requires forall i :: 0 <= i < |c.scores| ==> c.scores[i] >= t.minConf
    requires forall i, k :: 0 <= i < |c.boxes| && 0 <= k < |c.boxes| && i != k ==> !Clash(c, t, i, k)
    ensures Greedy(c, t, order) == order
    decreases |order|
  {
    if order != [] {
      var n := |order| - 1;
      NothingToReject(c, t, order[..n]);
      assert order[..n] + [order[n]] == order;
    }
  }

  /** Running the suppression on the survivors rejects none of them, whatever order the second sort picks. */
  lemma Idempotent(c: Candidates, t: Thresholds, order: seq<nat>, again: seq<nat>)
    requires Valid(c) && IsOrder(c.scores, order)
    requires IsOrder(Picked(c, Greedy(c, t, order)).scores, again)
    ensures Greedy(Picked(c, Greedy(c, t, order)), t, again) == again
  {
    var keep := Greedy(c, t, order);
    var d := Picked(c, keep);
    forall i | 0 <= i < |d.scores| ensures d.scores[i] >= t.minConf { GreedyFromOrder(c, t, order, i); }
    forall i, k | 0 <= i < |d.boxes| && 0 <= k < |d.boxes| && i != k ensures !Clash(d, t, i, k) {
      if i < k { Survivors(c, t, order, i, k); } else { Survivors(c, t, order, k, i); }
    }
    NothingToReject(d, t, again);
  }

  // ---------------------------------------------------------------- the cut

  /** At most `max` detections: when there are more, sorted again and cut. None when a negative limit cannot be met. */
  method Cut(c: Candidates, keep: seq<nat>, max: int) returns (r: Option<seq<nat>>)
    requires Valid(c) && AllBelow(keep, |c.scores|) && NoDuplicates(keep)
    ensures |keep| <= max ==> r == Some(keep)
    ensures |keep| > max ==> (r.None? <==> max < 0)
    ensures r.Some? ==> |r.value| == Min(|keep|, max) && Members(r.value) <= Members(keep) && NoDuplicates(r.value)
    ensures r.Some? ==> forall i, k :: i in r.value && k in keep && k !in r.value ==> i < |c.scores| && c.scores[i] >= c.scores[k]
  {
    if |keep| > max {
      if max < 0 { return None; }
      var scores := seq(|keep|, i requires 0 <= i < |keep| => c.scores[keep[i]]);
      var order := SortByScore(scores);
      var sorted := seq(|keep|, i requires 0 <= i < |keep| => keep[order[i]]);
      SortedAgain(c, keep, order, sorted, max);
      r := Some(sorted[..max]);
    } else {
      r := Some(keep);
    }
  }

  lemma OrderCoversAll(scores: seq<real>, order: seq<nat>, i: nat)
    requires IsOrder(scores, order) && i < |scores|
    ensures i in order
  {
    UpToCounts(|scores|);
    CountDistinct(order);
    if i !in order {
      Smaller(Members(order), UpTo(|scores|) - {i});
    }
  }

  function UpTo(n: nat): set<nat> { if n == 0 then {} else UpTo(n - 1) + {n - 1} }

  lemma {:induction false} UpToCounts(n: nat)
    ensures |UpTo(n)| == n && forall x: nat :: x in UpTo(n) <==> x < n
  {
    if n > 0 { UpToCounts(n - 1); }
  }

  lemma Smaller(a: set<nat>, b: set<nat>)
    requires a <= b
    ensures |a| <= |b|
  {
    assert b == a + (b - a);
  }

  lemma {:induction false} CountDistinct(s: seq<nat>)
    requires NoDuplicates(s)
    ensures |Members(s)| == |s|
    decreases |s|
  {
    if s != [] {
      var n := |s| - 1;
      CountDistinct(s[..n]);
      assert s == s[..n] + [s[n]];
      assert Members(s) == Members(s[..n]) + {s[n]};
    }
  }

  lemma SortedAgain(c: Candidates, keep: seq<nat>, order: seq<nat>, sorted: seq<nat>, max: nat)
    requires Valid(c) && AllBelow(keep, |c.scores|) && NoDuplicates(keep) && max < |keep|
    requires IsOrder(seq(|keep|, i requires 0 <= i < |keep| => c.scores[keep[i]]), order)
    requires |sorted| == |keep| && forall i :: 0 <= i < |keep| ==> sorted[i] == keep[order[i]]
    ensures Members(sorted[..max]) <= Members(keep) && NoDuplicates(sorted[..max])
    ensures forall i, k :: i in sorted[..max] && k in keep && k !in sorted[..max] ==> i < |c.scores| && c.scores[i] >= c.scores[k]
  {
    var scores := seq(|keep|, i requires 0 <= i < |keep| => c.scores[keep[i]]);
    forall i, k | i in sorted[..max] && k in keep && k !in sorted[..max] ensures i < |c.scores| && c.scores[i] >= c.scores[k] {
      var a :| 0 <= a < max && sorted[a] == i;
      var m :| 0 <= m < |keep| && keep[m] == k;
      OrderCoversAll(scores, order, m);
      var b :| 0 <= b < |order| && order[b] == m;
      assert sorted[b] == k;
      assert forall j :: 0 <= j < max ==> sorted[..max][j] == sorted[j];
      assert b >= max;
      assert scores[order[a]] >= scores[order[b]];
    }
  }
}
