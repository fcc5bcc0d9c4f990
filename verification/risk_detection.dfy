/** Detection over a whole batch of prediction rows: grouping, ordering, rejecting, scanning. */
module RiskDetection {
  import opened Wrappers
  import opened Ordering
  import opened RiskRise

  datatype Fault = AssetTypeChanged(assetId: string) | ModelVersionChanged(assetId: string) | DuplicateTime(assetId: string)

  predicate Eligible(p: Policy, x: Point) {
    x.assetType in p.eligible
  }

  predicate ByTime(a: Point, b: Point) {
    a.observedAt <= b.observedAt
  }

  /** The eligible rows of one asset, in input order. */
  function Group(p: Policy, points: seq<Point>, assetId: string): seq<Point> {
    if points == [] then []
    else
      var rest := Group(p, points[..|points| - 1], assetId);
      var x := points[|points| - 1];
      if Eligible(p, x) && x.assetId == assetId then rest + [x] else rest
  }

  /** The assets with eligible rows, in order of first appearance. */
  function Assets(p: Policy, points: seq<Point>): seq<string> {
    if points == [] then []
    else
      var rest := Assets(p, points[..|points| - 1]);
      var x := points[|points| - 1];
      if Eligible(p, x) && x.assetId !in rest then rest + [x.assetId] else rest
  }

  function Timeline(p: Policy, points: seq<Point>, assetId: string): seq<Point> {
    SortBy(Group(p, points, assetId), ByTime)
  }

  function PairFault(assetId: string, a: Point, b: Point): Option<Fault> {
    if a.assetType != b.assetType then Some(AssetTypeChanged(assetId))
    else if a.modelVersion != b.modelVersion then Some(ModelVersionChanged(assetId))
    else if a.observedAt == b.observedAt then Some(DuplicateTime(assetId))
    else None
  }

  /** The first complaint about adjacent rows from row `i` on. */
  function FirstFault(assetId: string, s: seq<Point>, i: nat): Option<Fault>
    requires 1 <= i
    decreases |s| - i
  {
    if i >= |s| then None
    else
      var f := PairFault(assetId, s[i - 1], s[i]);
      if f.Some? then f else FirstFault(assetId, s, i + 1)
  }

  function DetectAssets(iso: int -> string, p: Policy, points: seq<Point>, ids: seq<string>): Result<seq<Event>, Fault> {
    if ids == [] then Ok([])
    else
      var s := Timeline(p, points, ids[0]);
      var f := FirstFault(ids[0], s, 1);
      if f.Some? then Err(f.value)
      else
        var rest := DetectAssets(iso, p, points, ids[1..]);
        if rest.Err? then rest else Ok(EventsOf(iso, p, ids[0], s) + rest.value)
  }

  function Detect(iso: int -> string, p: Policy, points: seq<Point>): Result<seq<Event>, Fault> {
    DetectAssets(iso, p, points, SortBy(Assets(p, points), LexLe))
  }

  /** The grouping loop: a dictionary of eligible rows per asset, and its keys in insertion order. */
  method GroupPoints(p: Policy, points: seq<Point>) returns (grouped: map<string, seq<Point>>, order: seq<string>)
    ensures order == Assets(p, points)
    ensures forall a :: a in grouped <==> a in order
    ensures forall a :: a in grouped ==> grouped[a] == Group(p, points, a)
  {
    grouped, order := map[], [];
    for i := 0 to |points|
      invariant order == Assets(p, points[..i])
      invariant forall a :: a in grouped <==> a in order
      invariant forall a :: Group(p, points[..i], a) == if a in grouped then grouped[a] else []
    {
      var point := points[i];
      assert points[..i + 1][..i] == points[..i];
      if point.assetType in p.eligible {
        if point.assetId !in grouped {
          order := order + [point.assetId];
          grouped := grouped[point.assetId := []];
        }
        grouped := grouped[point.assetId := grouped[point.assetId] + [point]];
      }
    }
    assert points[..|points|] == points;
  }

  /** The loop over adjacent rows. */
  method CheckAdjacent(assetId: string, ordered: seq<Point>) returns (fault: Option<Fault>)
    ensures fault == FirstFault(assetId, ordered, 1)
    ensures fault.None? ==> forall k :: 1 <= k < |ordered| ==> PairFault(assetId, ordered[k - 1], ordered[k]).None?
  {
    var i := 1;
    while i < |ordered|
      invariant 1 <= i
      invariant FirstFault(assetId, ordered, i) == FirstFault(assetId, ordered, 1)
      invariant forall k :: 1 <= k < i && k < |ordered| ==> PairFault(assetId, ordered[k - 1], ordered[k]).None?
    {
      fault := PairFault(assetId, ordered[i - 1], ordered[i]);
      if fault.Some? {
        return;
      }
      i := i + 1;
    }
    fault := None;
  }

  /** The detector: group the rows, then per asset in name order sort, check adjacent rows and scan. */
  method DetectRiskRiseEvents(iso: int -> string, p: Policy, points: seq<Point>) returns (r: Result<seq<Event>, Fault>)
    ensures r == Detect(iso, p, points)
  {
    var grouped, order := GroupPoints(p, points);
    var events: seq<Event> := [];
    var ids := SortBy(order, LexLe);
    assert ids[0..] == ids;
    PrependNothing(DetectAssets(iso, p, points, ids));
    for n := 0 to |ids|
      invariant Detect(iso, p, points) == Prepend(events, DetectAssets(iso, p, points, ids[n..]))
    {
      assert ids[n] in order by { SortMembers(order, LexLe, ids[n]); }
      assert ids[n..][1..] == ids[n + 1..];
      var ordered := SortBy(grouped[ids[n]], ByTime);
      var fault := CheckAdjacent(ids[n], ordered);
      if fault.Some? {
        return Err(fault.value);
      }
      var found := DetectInTimeline(iso, p, ids[n], ordered);
      PrependTwice(events, found, DetectAssets(iso, p, points, ids[n + 1..]));
      events := events + found;
    }
    assert ids[|ids|..] == [] && events + [] == events;
    return Ok(events);
  }

  lemma PrependNothing(r: Result<seq<Event>, Fault>)
    ensures Prepend([], r) == r
  {
    if r.Ok? { assert [] + r.value == r.value; }
  }

  function Prepend(events: seq<Event>, r: Result<seq<Event>, Fault>): Result<seq<Event>, Fault> {
    if r.Err? then r else Ok(events + r.value)
  }

  lemma PrependTwice(a: seq<Event>, b: seq<Event>, r: Result<seq<Event>, Fault>)
    ensures Prepend(a, Prepend(b, r)) == Prepend(a + b, r)
  {
    if r.Ok? { assert a + (b + r.value) == (a + b) + r.value; }
  }
}
