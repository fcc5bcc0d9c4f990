/** When detection accepts a batch, and why the order of the batch does not matter. */
module RiskOrder {
  import opened Ordering
  import opened RiskRise
  import opened RiskProperties
  import opened RiskDetection

  /** Two rows that one timeline can hold together. */
  ghost predicate Agree(x: Point, y: Point) {
    x.assetType == y.assetType && x.modelVersion == y.modelVersion && (x.observedAt == y.observedAt ==> x == y)
  }

  /** No row is repeated, and all rows agree pairwise. */
  ghost predicate CleanGroup(s: seq<Point>) {
    forall x :: x in s ==> multiset(s)[x] == 1 && forall y :: y in s ==> Agree(x, y)
  }

  /** The condition on the raw batch, which mentions neither grouping nor order: no eligible row is
      repeated, and eligible rows of one asset agree on type and model and never share a time. */
  ghost predicate Clean(p: Policy, points: seq<Point>) {
    forall x :: x in points && Eligible(p, x) ==>
      multiset(points)[x] == 1 && forall y :: y in points && Eligible(p, y) && y.assetId == x.assetId ==> Agree(x, y)
  }

  // ----- groups -----

  lemma {:induction false} GroupCount(p: Policy, points: seq<Point>, a: string, x: Point)
    ensures multiset(Group(p, points, a))[x] == if Eligible(p, x) && x.assetId == a then multiset(points)[x] else 0
  {
    if points != [] {
      GroupCount(p, points[..|points| - 1], a, x);
      assert points == points[..|points| - 1] + [points[|points| - 1]];
    }
  }

  lemma GroupMember(p: Policy, points: seq<Point>, a: string, x: Point)
    ensures x in Group(p, points, a) <==> x in points && Eligible(p, x) && x.assetId == a
  {
    GroupCount(p, points, a, x);
    assert x in Group(p, points, a) <==> x in multiset(Group(p, points, a));
    assert x in points <==> x in multiset(points);
  }

  ghost predicate HasRows(p: Policy, points: seq<Point>, a: string) {
    exists x :: x in points && Eligible(p, x) && x.assetId == a
  }

  lemma HasRowsStep(p: Policy, points: seq<Point>, a: string)
    requires points != []
    ensures var last := points[|points| - 1];
      HasRows(p, points, a) <==> HasRows(p, points[..|points| - 1], a) || (Eligible(p, last) && last.assetId == a)
  {
    var front, last := points[..|points| - 1], points[|points| - 1];
    assert points == front + [last];
    assert last in points;
    if x :| x in front && Eligible(p, x) && x.assetId == a { assert x in points; }
    if x :| x in points && Eligible(p, x) && x.assetId == a { assert x in front || x == last; }
  }

  lemma {:induction false} AssetsExact(p: Policy, points: seq<Point>)
    ensures forall a :: a in Assets(p, points) <==> HasRows(p, points, a)
    ensures Distinct(Assets(p, points))
  {
    if points != [] {
      AssetsExact(p, points[..|points| - 1]);
      forall a ensures a in Assets(p, points) <==> HasRows(p, points, a) {
        HasRowsStep(p, points, a);
      }
    }
  }

  // ----- one timeline -----

  lemma {:induction false} FaultFree(a: string, s: seq<Point>, i: nat)
    requires 1 <= i
    ensures FirstFault(a, s, i).None? <==> forall k :: i <= k < |s| ==> PairFault(a, s[k - 1], s[k]).None?
    decreases |s| - i
  {
    if i < |s| && PairFault(a, s[i - 1], s[i]).None? {
      FaultFree(a, s, i + 1);
    }
  }

  ghost predicate PairsAgree(s: seq<Point>) {
    forall k :: 1 <= k < |s| ==>
      s[k - 1].assetType == s[k].assetType && s[k - 1].modelVersion == s[k].modelVersion && s[k - 1].observedAt < s[k].observedAt
  }

  lemma {:induction false} PairsReach(s: seq<Point>, i: nat, j: nat)
    requires PairsAgree(s) && i < j < |s|
    ensures s[i].assetType == s[j].assetType && s[i].modelVersion == s[j].modelVersion && s[i].observedAt < s[j].observedAt
    decreases j
  {
    if i + 1 < j {
      PairsReach(s, i, j - 1);
    }
    assert s[j - 1].observedAt < s[j].observedAt;
  }

  lemma PairsMakeClean(s: seq<Point>)
    requires PairsAgree(s)
    ensures CleanGroup(s) && TimeOrdered(s)
  {
    forall i, j | 0 <= i < j < |s|
      ensures s[i].observedAt < s[j].observedAt && s[i] != s[j] && Agree(s[i], s[j]) && Agree(s[j], s[i])
    {
      PairsReach(s, i, j);
    }
    DistinctOnce(s);
  }

  lemma CleanMakesPairs(s: seq<Point>)
    requires CleanGroup(s) && SortedBy(s, ByTime)
    ensures PairsAgree(s)
  {
    forall k | 1 <= k < |s|
      ensures Agree(s[k - 1], s[k]) && s[k - 1].observedAt < s[k].observedAt
    {
      assert s[k - 1] in s && s[k] in s;
      assert ByTime(s[k - 1], s[k]);
      if s[k - 1] == s[k] {
        RepeatedTwice(s, k - 1, k);
      }
    }
  }

  lemma CleanPermutes(s: seq<Point>, t: seq<Point>)
    requires multiset(s) == multiset(t) && CleanGroup(s)
    ensures CleanGroup(t)
  {
    forall x | x in t ensures x in s {
      assert x in multiset(t);
    }
  }

  lemma TimeOrders()
    ensures TotalPreorder(ByTime)
  {
  }

  /** Sorted rows pass the adjacent checks exactly when the unsorted group is clean. */
  lemma AcceptedIffClean(a: string, g: seq<Point>)
    ensures FirstFault(a, SortBy(g, ByTime), 1).None? <==> CleanGroup(g)
    ensures CleanGroup(g) ==> TimeOrdered(SortBy(g, ByTime))
  {
    var s := SortBy(g, ByTime);
    TimeOrders();
    SortSorts(g, ByTime);
    SortPermutes(g, ByTime);
    FaultFree(a, s, 1);
    assert forall k :: 1 <= k < |s| ==> ByTime(s[k - 1], s[k]);
    if FirstFault(a, s, 1).None? {
      assert PairsAgree(s);
      PairsMakeClean(s);
      CleanPermutes(s, g);
    }
    if CleanGroup(g) {
      CleanPermutes(g, s);
      CleanMakesPairs(s);
      PairsMakeClean(s);
    }
  }

  // ----- the whole batch -----

  lemma {:induction false} AssetsAccepted(iso: int -> string, p: Policy, points: seq<Point>, ids: seq<string>)
    ensures DetectAssets(iso, p, points, ids).Ok? <==> forall a :: a in ids ==> CleanGroup(Group(p, points, a))
  {
    if ids != [] {
      AcceptedIffClean(ids[0], Group(p, points, ids[0]));
      AssetsAccepted(iso, p, points, ids[1..]);
      assert ids[0] in ids && forall a :: a in ids[1..] ==> a in ids;
      forall a | a in ids ensures a == ids[0] || a in ids[1..] {
        assert ids == [ids[0]] + ids[1..];
      }
    }
  }

  lemma GroupAgrees(p: Policy, points: seq<Point>, a: string)
    requires Clean(p, points)
    ensures CleanGroup(Group(p, points, a))
  {
    var g := Group(p, points, a);
    forall x | x in g ensures multiset(g)[x] == 1 && forall y :: y in g ==> Agree(x, y) {
      GroupMember(p, points, a, x);
      GroupCount(p, points, a, x);
      forall y | y in g ensures Agree(x, y) { GroupMember(p, points, a, y); }
    }
  }

  lemma CleanByGroup(p: Policy, points: seq<Point>)
    ensures Clean(p, points) <==> forall a :: HasRows(p, points, a) ==> CleanGroup(Group(p, points, a))
  {
    if Clean(p, points) {
      forall a ensures CleanGroup(Group(p, points, a)) { GroupAgrees(p, points, a); }
    }
    if forall a :: HasRows(p, points, a) ==> CleanGroup(Group(p, points, a)) {
      forall x | x in points && Eligible(p, x)
        ensures multiset(points)[x] == 1
        ensures forall y :: y in points && Eligible(p, y) && y.assetId == x.assetId ==> Agree(x, y)
      {
        assert HasRows(p, points, x.assetId);
        GroupMember(p, points, x.assetId, x);
        GroupCount(p, points, x.assetId, x);
        forall y | y in points && Eligible(p, y) && y.assetId == x.assetId ensures Agree(x, y) {
          GroupMember(p, points, x.assetId, y);
        }
      }
    }
  }

  /** Detection fails exactly when two eligible rows of one asset disagree on type or model or share a
      time, or an eligible row is repeated. */
  lemma DetectsIffClean(iso: int -> string, p: Policy, points: seq<Point>)
    ensures Detect(iso, p, points).Ok? <==> Clean(p, points)
  {
    var ids := SortBy(Assets(p, points), LexLe);
    AssetsAccepted(iso, p, points, ids);
    AssetsExact(p, points);
    CleanByGroup(p, points);
    forall a ensures a in ids <==> HasRows(p, points, a) { SortMembers(Assets(p, points), LexLe, a); }
  }

  lemma SameRows(points: seq<Point>, other: seq<Point>, x: Point)
    requires multiset(points) == multiset(other)
    ensures x in points <==> x in other
  {
    assert x in points <==> x in multiset(points);
    assert x in other <==> x in multiset(other);
  }

  lemma SameAssets(p: Policy, points: seq<Point>, other: seq<Point>)
    requires multiset(points) == multiset(other)
    ensures SortBy(Assets(p, points), LexLe) == SortBy(Assets(p, other), LexLe)
  {
    AssetsExact(p, points);
    AssetsExact(p, other);
    forall a ensures HasRows(p, points, a) <==> HasRows(p, other, a) {
      if x :| x in points && Eligible(p, x) && x.assetId == a { SameRows(points, other, x); }
      if x :| x in other && Eligible(p, x) && x.assetId == a { SameRows(points, other, x); }
    }
    NamesSortAlike(Assets(p, points), Assets(p, other));
  }

  lemma SameTimeline(p: Policy, points: seq<Point>, other: seq<Point>, a: string)
    requires multiset(points) == multiset(other) && CleanGroup(Group(p, points, a))
    ensures Timeline(p, points, a) == Timeline(p, other, a)
  {
    var g, h := Group(p, points, a), Group(p, other, a);
    forall x ensures multiset(g)[x] == multiset(h)[x] {
      GroupCount(p, points, a, x);
      GroupCount(p, other, a, x);
    }
    assert multiset(g) == multiset(h);
    TimeOrders();
    SortForgetsOrder(g, h, ByTime);
  }

  lemma {:induction false} SameDetections(iso: int -> string, p: Policy, points: seq<Point>, other: seq<Point>, ids: seq<string>)
    requires multiset(points) == multiset(other)
    requires forall a :: a in ids ==> CleanGroup(Group(p, points, a))
    ensures DetectAssets(iso, p, points, ids) == DetectAssets(iso, p, other, ids)
  {
    if ids != [] {
      assert ids[0] in ids && forall a :: a in ids[1..] ==> a in ids;
      SameTimeline(p, points, other, ids[0]);
      SameDetections(iso, p, points, other, ids[1..]);
    }
  }

  lemma CleanBatchPermutes(p: Policy, points: seq<Point>, other: seq<Point>)
    requires multiset(points) == multiset(other) && Clean(p, points)
    ensures Clean(p, other)
  {
    forall x ensures x in points <==> x in other { SameRows(points, other, x); }
  }

  /** For every permutation of the batch, detection fails on both or returns the same events. */
  lemma DetectionIgnoresOrder(iso: int -> string, p: Policy, points: seq<Point>, other: seq<Point>)
    requires multiset(points) == multiset(other)
    ensures Detect(iso, p, points).Ok? <==> Detect(iso, p, other).Ok?
    ensures Detect(iso, p, points).Ok? ==> Detect(iso, p, points) == Detect(iso, p, other)
  {
    DetectsIffClean(iso, p, points);
    DetectsIffClean(iso, p, other);
    if Clean(p, points) { CleanBatchPermutes(p, points, other); }
    if Clean(p, other) { CleanBatchPermutes(p, other, points); }
    if Detect(iso, p, points).Ok? {
      SameAssets(p, points, other);
      var ids := SortBy(Assets(p, points), LexLe);
      AssetsAccepted(iso, p, points, ids);
      SameDetections(iso, p, points, other, ids);
    }
  }

  /** Where a detected event comes from: a run of the sorted timeline of its own asset. */
  lemma {:induction false} EventSource(iso: int -> string, p: Policy, points: seq<Point>, ids: seq<string>, e: Event) returns (a: string)
    requires DetectAssets(iso, p, points, ids).Ok? && e in DetectAssets(iso, p, points, ids).value
    ensures a in ids && e in EventsOf(iso, p, a, Timeline(p, points, a))
  {
    a := ids[0];
    if e !in EventsOf(iso, p, a, Timeline(p, points, a)) {
      a := EventSource(iso, p, points, ids[1..], e);
    }
  }

  lemma TimelineRows(p: Policy, points: seq<Point>, a: string, x: Point)
    ensures x in Timeline(p, points, a) <==> x in points && Eligible(p, x) && x.assetId == a
  {
    SortMembers(Group(p, points, a), ByTime, x);
    GroupMember(p, points, a, x);
  }

  /** Whatever the batch, every event the detector returns passes the event model's validation. */
  lemma DetectionMeetsContract(iso: int -> string, p: Policy, points: seq<Point>, e: Event)
    requires ValidPolicy(p) && ValidPoints(points)
    requires Detect(iso, p, points).Ok? && e in Detect(iso, p, points).value
    ensures EventContract(e)
  {
    var ids := SortBy(Assets(p, points), LexLe);
    var a := EventSource(iso, p, points, ids, e);
    var s := Timeline(p, points, a);
    AssetsAccepted(iso, p, points, ids);
    AcceptedIffClean(a, Group(p, points, a));
    forall x | x in s ensures ValidPoint(x) && x.assetId == a { TimelineRows(p, points, a, x); }
    SortMembers(Assets(p, points), LexLe, a);
    AssetsExact(p, points);
    assert HasRows(p, points, a);
    EventsMeetContract(iso, p, a, s, e);
  }
}
