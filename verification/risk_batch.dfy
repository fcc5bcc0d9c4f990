/** What detection returns for a whole batch, told from the batch: one event for each run of each asset, by name. */
module RiskBatch {
  import opened Wrappers
  import opened Ordering
  import opened RiskRise
  import opened RiskScan
  import opened RiskProperties
  import opened RiskDetection
  import opened RiskOrder

  /** The eligible rows of the asset, and no others, in time order. */
  ghost predicate Arranges(p: Policy, points: seq<Point>, a: string, s: seq<Point>) {
    && (forall x :: x in s <==> x in points && x.assetType in p.eligible && x.assetId == a)
    && (forall i, j :: 0 <= i < j < |s| ==> s[i].observedAt < s[j].observedAt)
  }

  /** How a run that ends at row `peak` ended. */
  ghost predicate EndsAs(p: Policy, s: seq<Point>, peak: nat, cause: Cause)
    requires peak < |s|
  {
    match cause
    case EndOfTimeline => peak + 1 == |s|
    case Gap => peak + 1 < |s| && (s[peak + 1].observedAt - s[peak].observedAt) as real > p.maxGapHours * 3600.0
    case NonIncrease =>
      && peak + 1 < |s| && (s[peak + 1].observedAt - s[peak].observedAt) as real <= p.maxGapHours * 3600.0
      && s[peak + 1].probability <= s[peak].probability
  }

  /** The event of a run, field by field: the row that ended it without rising is its end and its last source. */
  ghost predicate Describes(iso: int -> string, p: Policy, a: string, s: seq<Point>, r: Run, e: Event) {
    && InTimeline(s, r) && EndsAs(p, s, r.peak, r.cause)
    && var last := if r.cause == NonIncrease then r.peak + 1 else r.peak;
    && e.eventId == "RISK-RISE#" + a + "#" + iso(s[r.start].observedAt)
    && e.assetId == a && e.assetType == s[r.start].assetType
    && e.startedAt == s[r.start].observedAt && e.peakAt == s[r.peak].observedAt && e.endedAt == s[last].observedAt
    && e.baseline == s[r.start].probability && e.peak == s[r.peak].probability && e.delta == e.peak - e.baseline
    && e.timeToPeakHours * 3600.0 == (e.peakAt - e.startedAt) as real
    && e.durationHours * 3600.0 == (e.endedAt - e.startedAt) as real
    && e.terminatedBy == r.cause && e.policyVersion == p.version && e.modelVersion == s[r.start].modelVersion
    && |e.sources| == last + 1 - r.start
    && (forall k :: 0 <= k < |e.sources| ==> e.sources[k] == s[r.start + k].predictionId)
  }

  /** The event is that of a run of the asset's rows which rises enough in total. */
  ghost predicate Justifies(iso: int -> string, p: Policy, points: seq<Point>, a: string, s: seq<Point>, r: Run, e: Event) {
    && Arranges(p, points, a, s) && IsRun(p, s, r) && Describes(iso, p, a, s, r, e)
    && e.delta >= p.minTotal
  }

  // ----- runs in numbers -----

  ghost predicate Near(p: Policy, s: seq<Point>, k: int)
    requires 1 <= k < |s|
  {
    (s[k].observedAt - s[k - 1].observedAt) as real <= p.maxGapHours * 3600.0
  }

  ghost predicate NearAndHigher(p: Policy, s: seq<Point>, k: int)
    requires 1 <= k < |s|
  {
    Near(p, s, k) && s[k].probability > s[k - 1].probability
  }

  ghost predicate JumpsUp(p: Policy, s: seq<Point>, k: int)
    requires 1 <= k < |s|
  {
    Near(p, s, k) && s[k].probability - s[k - 1].probability >= p.minStep
  }

  /** A run in times and probabilities: it starts at the row before a jump, goes up near row by near row, and ends where
      that ends; no jump before it is joined to it by such rows. */
  ghost predicate RunInNumbers(p: Policy, s: seq<Point>, r: Run) {
    && r.start < r.peak < |s| && JumpsUp(p, s, r.start + 1)
    && (forall k :: r.start < k <= r.peak ==> NearAndHigher(p, s, k))
    && EndsAs(p, s, r.peak, r.cause)
    && (forall j :: 1 <= j <= r.start && (forall k :: j <= k <= r.start ==> NearAndHigher(p, s, k)) ==> !JumpsUp(p, s, j))
  }

  lemma StepInNumbers(p: Policy, s: seq<Point>, k: int)
    requires 1 <= k < |s|
    ensures Rises(p, s, k) <==> NearAndHigher(p, s, k)
    ensures Trigger(p, s, k) <==> JumpsUp(p, s, k)
    ensures !Near(p, s, k) <==> TooFar(p, s[k - 1], s[k])
  {
  }

  lemma RunsInNumbers(p: Policy, s: seq<Point>, r: Run)
    requires p.minStep > 0.0
    ensures IsRun(p, s, r) <==> RunInNumbers(p, s, r)
  {
    forall k | 1 <= k < |s|
      ensures Rises(p, s, k) <==> NearAndHigher(p, s, k)
      ensures Trigger(p, s, k) <==> JumpsUp(p, s, k)
    {
      StepInNumbers(p, s, k);
    }
    if r.start < r.peak < |s| {
      if r.peak + 1 < |s| { StepInNumbers(p, s, r.peak + 1); }
      FreshInNumbers(p, s, r.start);
    }
  }

  lemma FreshInNumbers(p: Policy, s: seq<Point>, start: nat)
    requires start < |s|
    ensures FreshAt(p, s, start + 1) <==>
      forall j :: 1 <= j <= start && (forall k :: j <= k <= start ==> NearAndHigher(p, s, k)) ==> !JumpsUp(p, s, j)
  {
    forall k | 1 <= k <= start
      ensures Rises(p, s, k) <==> NearAndHigher(p, s, k)
      ensures Trigger(p, s, k) <==> JumpsUp(p, s, k)
    {
      StepInNumbers(p, s, k);
    }
    forall j | 1 <= j <= start
      ensures RisesThrough(p, s, j, start) <==> forall k :: j <= k <= start ==> NearAndHigher(p, s, k)
    {
      assert RisesThrough(p, s, j, start) <==> forall k :: j <= k <= start ==> Rises(p, s, k);
    }
    forall j | j < 1 ensures !Trigger(p, s, j) {}
  }

  // ----- events are described -----

  lemma CauseEnds(p: Policy, s: seq<Point>, r: Run)
    requires IsRun(p, s, r)
    ensures EndsAs(p, s, r.peak, r.cause) && InTimeline(s, r)
  {
  }

  lemma SourcesOfRun(s: seq<Point>, r: Run)
    requires InTimeline(s, r)
    ensures var sources := Ids(s[r.start..SourceStop(r)]);
      && |sources| == SourceStop(r) - r.start
      && forall k :: 0 <= k < |sources| ==> sources[k] == s[r.start + k].predictionId
  {
  }

  lemma DescribedExactly(iso: int -> string, p: Policy, a: string, s: seq<Point>, r: Run, e: Event)
    requires IsRun(p, s, r)
    ensures InTimeline(s, r) && (Describes(iso, p, a, s, r, e) <==> e == EventOf(iso, p, a, s, r))
  {
    CauseEnds(p, s, r);
    SourcesOfRun(s, r);
    var f := EventOf(iso, p, a, s, r);
    HoursScaled(f.startedAt, f.peakAt, e.timeToPeakHours);
    HoursScaled(f.startedAt, f.endedAt, e.durationHours);
    HoursScaled(f.startedAt, f.peakAt, f.timeToPeakHours);
    HoursScaled(f.startedAt, f.endedAt, f.durationHours);
    assert Describes(iso, p, a, s, r, f);
    if Describes(iso, p, a, s, r, e) {
      assert e.sources == f.sources;
    }
  }

  lemma HoursScaled(from: int, to: int, hours: real)
    ensures hours * 3600.0 == (to - from) as real <==> hours == HoursBetween(from, to)
  {
  }

  // ----- the timeline is the arrangement -----

  lemma TimelineArranges(p: Policy, points: seq<Point>, a: string)
    requires Clean(p, points)
    ensures Arranges(p, points, a, Timeline(p, points, a))
  {
    GroupAgrees(p, points, a);
    AcceptedIffClean(a, Group(p, points, a));
    forall x ensures x in Timeline(p, points, a) <==> x in points && x.assetType in p.eligible && x.assetId == a {
      TimelineRows(p, points, a, x);
    }
  }

  lemma StrictlyOrdered(s: seq<Point>)
    requires TimeOrdered(s)
    ensures SortedBy(s, ByTime) && Distinct(s) && Separates(s, ByTime)
  {
  }

  lemma OneArrangement(p: Policy, points: seq<Point>, a: string, s: seq<Point>, t: seq<Point>)
    requires Arranges(p, points, a, s) && Arranges(p, points, a, t)
    ensures s == t
  {
    StrictlyOrdered(s);
    StrictlyOrdered(t);
    SameMembers(s, t);
    TimeOrders();
    SortedUnique(s, t, ByTime);
  }

  // ----- which events are returned -----

  lemma {:induction false} EventsOfAll(iso: int -> string, p: Policy, points: seq<Point>, ids: seq<string>, e: Event)
    requires DetectAssets(iso, p, points, ids).Ok?
    ensures e in DetectAssets(iso, p, points, ids).value <==> exists a :: a in ids && e in EventsOf(iso, p, a, Timeline(p, points, a))
  {
    if ids != [] {
      EventsOfAll(iso, p, points, ids[1..], e);
      assert forall a :: a in ids <==> a == ids[0] || a in ids[1..];
    }
  }

  lemma EventIsJustified(iso: int -> string, p: Policy, points: seq<Point>, a: string, e: Event) returns (s: seq<Point>, r: Run)
    requires Clean(p, points) && p.minStep > 0.0 && e in EventsOf(iso, p, a, Timeline(p, points, a))
    ensures Justifies(iso, p, points, a, s, r, e)
  {
    s := Timeline(p, points, a);
    TimelineArranges(p, points, a);
    EventsAreEmittedRuns(iso, p, a, s, 1);
    EmitMembers(iso, p, a, s, Scan(p, s, 1), e);
    ScanIsExact(p, s);
    r :| r in Scan(p, s, 1) && e == EventOf(iso, p, a, s, r) && e.delta >= p.minTotal;
    DescribedExactly(iso, p, a, s, r, e);
  }

  lemma JustifiedIsEvent(iso: int -> string, p: Policy, points: seq<Point>, a: string, s: seq<Point>, r: Run, e: Event)
    requires Clean(p, points) && p.minStep > 0.0 && Justifies(iso, p, points, a, s, r, e)
    ensures HasRows(p, points, a) && s == Timeline(p, points, a) && e in EventsOf(iso, p, a, s)
  {
    TimelineArranges(p, points, a);
    OneArrangement(p, points, a, s, Timeline(p, points, a));
    assert s[r.start] in s;
    DescribedExactly(iso, p, a, s, r, e);
    ScanIsExact(p, s);
    EventsAreEmittedRuns(iso, p, a, s, 1);
    EmitMembers(iso, p, a, s, Scan(p, s, 1), e);
  }

  lemma NamedAssets(p: Policy, points: seq<Point>)
    ensures var ids := SortBy(Assets(p, points), LexLe);
      (forall a :: a in ids <==> HasRows(p, points, a)) && Distinct(ids) && SortedBy(ids, LexLe)
  {
    var names := Assets(p, points);
    AssetsExact(p, points);
    forall a ensures a in SortBy(names, LexLe) <==> HasRows(p, points, a) { SortMembers(names, LexLe, a); }
    LexOrders();
    SortSorts(names, LexLe);
    SortPermutes(names, LexLe);
    DistinctPermutes(names, SortBy(names, LexLe));
  }

  lemma DistinctPermutes<T>(xs: seq<T>, ys: seq<T>)
    requires Distinct(xs) && multiset(xs) == multiset(ys)
    ensures Distinct(ys)
  {
    DistinctOnce(xs);
    forall i, j | 0 <= i < j < |ys| ensures ys[i] != ys[j] {
      assert ys[i] in multiset(ys);
      assert ys[i] in xs;
      if ys[i] == ys[j] { RepeatedTwice(ys, i, j); }
    }
  }

  /** For an accepted batch an event is returned exactly when it is that of a run of some asset's rows that rises
      enough. */
  lemma DetectionIsExact(iso: int -> string, p: Policy, points: seq<Point>, e: Event)
    requires Detect(iso, p, points).Ok? && p.minStep > 0.0
    ensures e in Detect(iso, p, points).value <==> exists a, s, r :: Justifies(iso, p, points, a, s, r, e)
  {
    var ids := SortBy(Assets(p, points), LexLe);
    DetectsIffClean(iso, p, points);
    NamedAssets(p, points);
    EventsOfAll(iso, p, points, ids, e);
    if e in Detect(iso, p, points).value {
      var a :| a in ids && e in EventsOf(iso, p, a, Timeline(p, points, a));
      var s, r := EventIsJustified(iso, p, points, a, e);
    }
    if a, s, r :| Justifies(iso, p, points, a, s, r, e) {
      JustifiedIsEvent(iso, p, points, a, s, r, e);
    }
  }

  // ----- in which order, and how often -----

  /** Events come by asset name, and those of one asset in turn. */
  ghost predicate InPlace(e: Event, f: Event) {
    if e.assetId == f.assetId then InTurn(e, f) else LexLe(e.assetId, f.assetId)
  }

  ghost predicate AllInPlace(es: seq<Event>) {
    forall i, j :: 0 <= i < j < |es| ==> InPlace(es[i], es[j])
  }

  lemma BothInPlace(es: seq<Event>, fs: seq<Event>)
    requires AllInPlace(es) && AllInPlace(fs)
    requires forall e, f :: e in es && f in fs ==> InPlace(e, f)
    ensures AllInPlace(es + fs)
  {
  }

  lemma OneAssetInPlace(iso: int -> string, p: Policy, points: seq<Point>, a: string)
    requires Clean(p, points) && p.minStep > 0.0
    ensures AllInPlace(EventsOf(iso, p, a, Timeline(p, points, a)))
    ensures forall e :: e in EventsOf(iso, p, a, Timeline(p, points, a)) ==> e.assetId == a
  {
    var s := Timeline(p, points, a);
    var es := EventsOf(iso, p, a, s);
    TimelineArranges(p, points, a);
    forall e | e in es ensures e.assetId == a {
      var peak := EventNamesAsset(iso, p, a, s, e);
    }
    forall i, j | 0 <= i < j < |es| ensures InPlace(es[i], es[j]) {
      EventsInTurn(iso, p, a, s, i, j);
      assert es[i] in es && es[j] in es;
    }
  }

  lemma EventNamesAsset(iso: int -> string, p: Policy, a: string, s: seq<Point>, e: Event) returns (r: Run)
    requires e in EventsOf(iso, p, a, s)
    ensures e.assetId == a
  {
    EventsAreEmittedRuns(iso, p, a, s, 1);
    EmitMembers(iso, p, a, s, Scan(p, s, 1), e);
    r :| r in Scan(p, s, 1) && e == EventOf(iso, p, a, s, r);
  }

  lemma {:induction false} AssetsInPlace(iso: int -> string, p: Policy, points: seq<Point>, ids: seq<string>)
    requires Clean(p, points) && p.minStep > 0.0 && DetectAssets(iso, p, points, ids).Ok?
    requires Distinct(ids) && SortedBy(ids, LexLe)
    ensures AllInPlace(DetectAssets(iso, p, points, ids).value)
  {
    if ids != [] {
      var a, rest := ids[0], ids[1..];
      var es, fs := EventsOf(iso, p, a, Timeline(p, points, a)), DetectAssets(iso, p, points, rest).value;
      forall i, j | 0 <= i < j < |rest| ensures rest[i] != rest[j] && LexLe(rest[i], rest[j]) {
        assert rest[i] == ids[i + 1] && rest[j] == ids[j + 1];
      }
      AssetsInPlace(iso, p, points, rest);
      OneAssetInPlace(iso, p, points, a);
      forall e, f | e in es && f in fs ensures InPlace(e, f) {
        LaterAsset(iso, p, points, ids, f);
      }
      BothInPlace(es, fs);
    }
  }

  lemma LaterAsset(iso: int -> string, p: Policy, points: seq<Point>, ids: seq<string>, f: Event)
    requires Clean(p, points) && p.minStep > 0.0 && ids != [] && Distinct(ids) && SortedBy(ids, LexLe)
    requires DetectAssets(iso, p, points, ids[1..]).Ok? && f in DetectAssets(iso, p, points, ids[1..]).value
    ensures f.assetId != ids[0] && LexLe(ids[0], f.assetId)
  {
    EventsOfAll(iso, p, points, ids[1..], f);
    var b :| b in ids[1..] && f in EventsOf(iso, p, b, Timeline(p, points, b));
    OneAssetInPlace(iso, p, points, b);
    var k :| 0 <= k < |ids[1..]| && ids[1..][k] == b;
    assert b == ids[k + 1];
  }

  /** The events stand by ascending asset name and, within an asset, in turn. */
  lemma DetectionIsInOrder(iso: int -> string, p: Policy, points: seq<Point>)
    requires Detect(iso, p, points).Ok? && p.minStep > 0.0
    ensures AllInPlace(Detect(iso, p, points).value)
  {
    DetectsIffClean(iso, p, points);
    NamedAssets(p, points);
    AssetsInPlace(iso, p, points, SortBy(Assets(p, points), LexLe));
  }

  lemma InPlaceTwice(e: Event)
    requires e.startedAt <= e.peakAt
    ensures !InPlace(e, e)
  {
  }

  /** Every run that rises enough, of any asset, has its event in the result, and only once. */
  lemma EveryRunOnce(iso: int -> string, p: Policy, points: seq<Point>, a: string, s: seq<Point>, r: Run) returns (e: Event)
    requires Detect(iso, p, points).Ok? && p.minStep > 0.0
    requires Arranges(p, points, a, s) && IsRun(p, s, r) && s[r.peak].probability - s[r.start].probability >= p.minTotal
    ensures Justifies(iso, p, points, a, s, r, e) && multiset(Detect(iso, p, points).value)[e] == 1
  {
    var es := Detect(iso, p, points).value;
    CauseEnds(p, s, r);
    e := EventOf(iso, p, a, s, r);
    DescribedExactly(iso, p, a, s, r, e);
    assert Justifies(iso, p, points, a, s, r, e);
    DetectionIsExact(iso, p, points, e);
    DetectionIsInOrder(iso, p, points);
    assert s[r.start].observedAt < s[r.peak].observedAt;
    InPlaceTwice(e);
    OnceInPlace(es, e);
  }

  lemma OnceInPlace(es: seq<Event>, e: Event)
    requires AllInPlace(es) && e in es && !InPlace(e, e)
    ensures multiset(es)[e] == 1
  {
    var k :| 0 <= k < |es| && es[k] == e;
    var front, back := es[..k], es[k + 1..];
    assert es == front + [e] + back;
    forall i | 0 <= i < |front| ensures front[i] != e { assert InPlace(es[i], es[k]); }
    forall i | 0 <= i < |back| ensures back[i] != e { assert back[i] == es[k + 1 + i]; }
    assert e !in front && e !in back;
  }

  lemma SameStart(s: seq<Point>, i: nat, j: nat)
    requires TimeOrdered(s) && i < |s| && j < |s|
    ensures s[i].observedAt == s[j].observedAt ==> i == j
  {
    assert i < j ==> s[i].observedAt < s[j].observedAt;
    assert j < i ==> s[j].observedAt < s[i].observedAt;
  }

  /** No two runs share an event. */
  lemma EventNamesItsRun(iso: int -> string, p: Policy, points: seq<Point>, a: string, s: seq<Point>, r: Run, b: string, t: seq<Point>, q: Run,
      e: Event)
    requires Justifies(iso, p, points, a, s, r, e) && Justifies(iso, p, points, b, t, q, e)
    ensures a == b && s == t && r == q
  {
    OneArrangement(p, points, a, s, t);
    SameStart(s, r.start, q.start);
    SameStart(s, r.peak, q.peak);
  }
}
