/** Ranking detected events by the strongest matching risk-up factor of their peak row. */
module RiskRanking {
  import opened Wrappers
  import opened HashText
  import opened Ordering
  import opened RiskRise
  import opened RiskProperties
  import opened RiskDetection
  import opened RiskOrder

  type RowKey = (string, int)

  datatype RankFault = DuplicateKey(key: RowKey) | MissingPeak(key: RowKey)

  datatype Entry = Entry(delta: real, top: real, event: Event)

  predicate Considered(eligible: Option<set<string>>, x: Point) {
    eligible.Some? ==> x.assetType in eligible.value
  }

  function KeyOf(x: Point): RowKey {
    (x.assetId, x.observedAt)
  }

  /** The considered rows by asset and time, or the first key that comes twice. */
  function RowsByKey(eligible: Option<set<string>>, points: seq<Point>): Result<map<RowKey, Point>, RankFault> {
    if points == [] then Ok(map[])
    else
      var front, x := RowsByKey(eligible, points[..|points| - 1]), points[|points| - 1];
      if front.Err? || !Considered(eligible, x) then front
      else if KeyOf(x) in front.value then Err(DuplicateKey(KeyOf(x)))
      else Ok(front.value[KeyOf(x) := x])
  }

  /** The contributions of the risk-up factors whose feature starts with `prefix`. */
  function Contributions(prefix: string, factors: seq<Factor>): seq<real> {
    if factors == [] then []
    else
      var f, rest := factors[0], Contributions(prefix, factors[1..]);
      if prefix <= f.feature && f.direction == RiskUp then [f.contribution] + rest else rest
  }

  function Max(xs: seq<real>): (m: real)
    requires xs != []
    ensures m in xs && forall x :: x in xs ==> x <= m
  {
    if |xs| == 1 then xs[0]
    else
      var m := Max(xs[1..]);
      assert forall x :: x in xs <==> x == xs[0] || x in xs[1..];
      if xs[0] >= m then xs[0] else m
  }

  function PeakKey(e: Event): RowKey {
    (e.assetId, e.peakAt)
  }

  function EntryFor(rows: map<RowKey, Point>, prefix: string, e: Event): Option<Entry>
    requires PeakKey(e) in rows
  {
    var found := Contributions(prefix, rows[PeakKey(e)].topFactors);
    if found == [] then None else Some(Entry(e.delta, Max(found), e))
  }

  function Entries(rows: map<RowKey, Point>, prefix: string, events: seq<Event>): Result<seq<Entry>, RankFault> {
    if events == [] then Ok([])
    else
      var front, e := Entries(rows, prefix, events[..|events| - 1]), events[|events| - 1];
      if front.Err? then front
      else if PeakKey(e) !in rows then Err(MissingPeak(PeakKey(e)))
      else
        var entry := EntryFor(rows, prefix, e);
        if entry.None? then front else Ok(front.value + [entry.value])
  }

  /** Larger rise first, then larger contribution, then smaller event id. */
  predicate RanksBefore(a: Entry, b: Entry) {
    || a.delta > b.delta
    || (a.delta == b.delta && (a.top > b.top || (a.top == b.top && LexLe(a.event.eventId, b.event.eventId))))
  }

  function EventsIn(entries: seq<Entry>): seq<Event> {
    seq(|entries|, i requires 0 <= i < |entries| => entries[i].event)
  }

  function Rank(events: seq<Event>, points: seq<Point>, prefix: string, eligible: Option<set<string>>): Result<seq<Event>, RankFault> {
    match RowsByKey(eligible, points)
    case Err(f) => Err(f)
    case Ok(rows) =>
      match Entries(rows, prefix, events)
      case Err(f) => Err(f)
      case Ok(entries) => Ok(EventsIn(SortBy(entries, RanksBefore)))
  }

  /** The loops of the ranking: index the rows, collect the matching events, sort them. */
  method RankEventsByRiskFactor(events: seq<Event>, points: seq<Point>, prefix: string, eligible: Option<set<string>>)
      returns (r: Result<seq<Event>, RankFault>)
    ensures r == Rank(events, points, prefix, eligible)
  {
    var pointByKey: map<RowKey, Point> := map[];
    for i := 0 to |points|
      invariant RowsByKey(eligible, points[..i]) == Ok(pointByKey)
    {
      assert points[..i + 1][..i] == points[..i];
      var point := points[i];
      if eligible.None? || point.assetType in eligible.value {
        var key := (point.assetId, point.observedAt);
        if key in pointByKey {
          ErrStays(eligible, points, i + 1);
          return Err(DuplicateKey(key));
        }
        pointByKey := pointByKey[key := point];
      }
    }
    assert points[..|points|] == points;
    var ranked: seq<Entry> := [];
    for i := 0 to |events|
      invariant Entries(pointByKey, prefix, events[..i]) == Ok(ranked)
    {
      assert events[..i + 1][..i] == events[..i];
      var peakKey := (events[i].assetId, events[i].peakAt);
      if peakKey !in pointByKey {
        MissingStays(pointByKey, prefix, events, i + 1);
        return Err(MissingPeak(peakKey));
      }
      var contributions := Contributions(prefix, pointByKey[peakKey].topFactors);
      if contributions != [] {
        ranked := ranked + [Entry(events[i].delta, Max(contributions), events[i])];
      }
    }
    assert events[..|events|] == events;
    return Ok(EventsIn(SortBy(ranked, RanksBefore)));
  }

  lemma {:induction false} ErrStays(eligible: Option<set<string>>, points: seq<Point>, i: nat)
    requires i <= |points| && RowsByKey(eligible, points[..i]).Err?
    ensures RowsByKey(eligible, points) == RowsByKey(eligible, points[..i])
    decreases |points| - i
  {
    if i < |points| {
      assert points[..i + 1][..i] == points[..i];
      ErrStays(eligible, points, i + 1);
    } else {
      assert points[..i] == points;
    }
  }

  lemma {:induction false} MissingStays(rows: map<RowKey, Point>, prefix: string, events: seq<Event>, i: nat)
    requires i <= |events| && Entries(rows, prefix, events[..i]).Err?
    ensures Entries(rows, prefix, events) == Entries(rows, prefix, events[..i])
    decreases |events| - i
  {
    if i < |events| {
      assert events[..i + 1][..i] == events[..i];
      MissingStays(rows, prefix, events, i + 1);
    } else {
      assert events[..i] == events;
    }
  }

  // ----- the row index -----

  ghost predicate UniqueKeys(eligible: Option<set<string>>, points: seq<Point>) {
    forall i, j :: 0 <= i < j < |points| && Considered(eligible, points[i]) && Considered(eligible, points[j])
      ==> KeyOf(points[i]) != KeyOf(points[j])
  }

  ghost predicate IndexesExactly(eligible: Option<set<string>>, points: seq<Point>, rows: map<RowKey, Point>) {
    && (forall x :: x in points && Considered(eligible, x) ==> KeyOf(x) in rows && rows[KeyOf(x)] == x)
    && (forall k :: k in rows ==> rows[k] in points && Considered(eligible, rows[k]) && KeyOf(rows[k]) == k)
  }

  lemma UniqueKeysStep(eligible: Option<set<string>>, points: seq<Point>)
    requires points != []
    ensures var front, x := points[..|points| - 1], points[|points| - 1];
      UniqueKeys(eligible, points) <==>
      UniqueKeys(eligible, front)
      && (Considered(eligible, x) ==> forall y :: y in front && Considered(eligible, y) ==> KeyOf(y) != KeyOf(x))
  {
    var front, x := points[..|points| - 1], points[|points| - 1];
    if UniqueKeys(eligible, points) {
      forall y | y in front && Considered(eligible, y) && Considered(eligible, x) ensures KeyOf(y) != KeyOf(x) {
        var i :| 0 <= i < |front| && front[i] == y;
        assert points[i] == y;
      }
    }
    assert forall i :: 0 <= i < |front| ==> front[i] in front && front[i] == points[i];
  }

  lemma IndexStep(eligible: Option<set<string>>, front: seq<Point>, x: Point, rows: map<RowKey, Point>)
    requires IndexesExactly(eligible, front, rows) && Considered(eligible, x) && KeyOf(x) !in rows
    ensures IndexesExactly(eligible, front + [x], rows[KeyOf(x) := x])
  {
  }

  lemma IndexSkip(eligible: Option<set<string>>, front: seq<Point>, x: Point, rows: map<RowKey, Point>)
    requires IndexesExactly(eligible, front, rows) && !Considered(eligible, x)
    ensures IndexesExactly(eligible, front + [x], rows)
  {
  }

  /** The index exists exactly when no two considered rows share asset and time, and then holds them all. */
  lemma {:induction false} IndexExact(eligible: Option<set<string>>, points: seq<Point>)
    ensures RowsByKey(eligible, points).Ok? <==> UniqueKeys(eligible, points)
    ensures RowsByKey(eligible, points).Ok? ==> IndexesExactly(eligible, points, RowsByKey(eligible, points).value)
  {
    if points != [] {
      var front, x := points[..|points| - 1], points[|points| - 1];
      var before := RowsByKey(eligible, front);
      IndexExact(eligible, front);
      UniqueKeysStep(eligible, points);
      assert points == front + [x];
      if before.Ok? {
        if !Considered(eligible, x) {
          IndexSkip(eligible, front, x, before.value);
        } else if KeyOf(x) !in before.value {
          IndexStep(eligible, front, x, before.value);
        }
      }
    }
  }

  lemma CleanHasUniqueKeys(p: Policy, points: seq<Point>)
    requires Clean(p, points)
    ensures UniqueKeys(Some(p.eligible), points)
  {
    forall i, j | 0 <= i < j < |points| && Eligible(p, points[i]) && Eligible(p, points[j])
      ensures KeyOf(points[i]) != KeyOf(points[j])
    {
      assert points[i] in points && points[j] in points;
      if points[i] == points[j] { RepeatedTwice(points, i, j); }
    }
  }

  lemma SameIndex(p: Policy, points: seq<Point>, other: seq<Point>)
    requires multiset(points) == multiset(other) && Clean(p, points)
    ensures RowsByKey(Some(p.eligible), points).Ok?
    ensures RowsByKey(Some(p.eligible), points) == RowsByKey(Some(p.eligible), other)
  {
    CleanBatchPermutes(p, points, other);
    CleanHasUniqueKeys(p, points);
    CleanHasUniqueKeys(p, other);
    IndexExact(Some(p.eligible), points);
    IndexExact(Some(p.eligible), other);
    var a, b := RowsByKey(Some(p.eligible), points).value, RowsByKey(Some(p.eligible), other).value;
    forall k | k in a ensures k in b && a[k] == b[k] { SameRows(points, other, a[k]); }
    forall k | k in b ensures k in a { SameRows(points, other, b[k]); }
    assert a.Keys == b.Keys;
    assert a == b;
  }

  // ----- event ids -----

  /** The timestamp text of the ids is injective and has no hash sign in it. */
  ghost predicate ReadableTimes(iso: int -> string) {
    && (forall t :: '#' !in iso(t))
    && (forall t, u :: iso(t) == iso(u) ==> t == u)
  }

  lemma IdsSeparate(iso: int -> string, a: string, t: int, b: string, u: int)
    requires ReadableTimes(iso) && EventId(iso, a, t) == EventId(iso, b, u)
    ensures a == b && t == u
  {
    HashSeparates("RISK-RISE#" + a, iso(t), "RISK-RISE#" + b, iso(u));
    assert ("RISK-RISE#" + a)[10..] == a && ("RISK-RISE#" + b)[10..] == b;
  }

  /** Two events of one detection with the same id are the same event. */
  lemma IdsAreUnique(iso: int -> string, p: Policy, points: seq<Point>, e: Event, f: Event)
    requires ReadableTimes(iso) && p.minStep > 0.0 && Detect(iso, p, points).Ok?
    requires e in Detect(iso, p, points).value && f in Detect(iso, p, points).value && e.eventId == f.eventId
    ensures e == f
  {
    var ids := SortBy(Assets(p, points), LexLe);
    var a := EventSource(iso, p, points, ids, e);
    var b := EventSource(iso, p, points, ids, f);
    var peakOfE := EventShape(iso, p, points, a, e);
    var peakOfF := EventShape(iso, p, points, b, f);
    IdsSeparate(iso, a, e.startedAt, b, f.startedAt);
    var s := Timeline(p, points, a);
    AssetsAccepted(iso, p, points, ids);
    AcceptedIffClean(a, Group(p, points, a));
    var es := EventsOf(iso, p, a, s);
    var i :| 0 <= i < |es| && es[i] == e;
    var j :| 0 <= j < |es| && es[j] == f;
    SameStartSameEvent(iso, p, a, s, i, j);
  }

  lemma SameStartSameEvent(iso: int -> string, p: Policy, a: string, s: seq<Point>, i: nat, j: nat)
    requires p.minStep > 0.0 && TimeOrdered(s) && i < |EventsOf(iso, p, a, s)| && j < |EventsOf(iso, p, a, s)|
    requires EventsOf(iso, p, a, s)[i].startedAt == EventsOf(iso, p, a, s)[j].startedAt
    ensures i == j
  {
    StartBeforePeak(iso, p, a, s, i);
    StartBeforePeak(iso, p, a, s, j);
    if i < j { EventsInTurn(iso, p, a, s, i, j); }
    if j < i { EventsInTurn(iso, p, a, s, j, i); }
  }

  lemma StartBeforePeak(iso: int -> string, p: Policy, a: string, s: seq<Point>, i: nat)
    requires TimeOrdered(s) && i < |EventsOf(iso, p, a, s)|
    ensures EventsOf(iso, p, a, s)[i].startedAt < EventsOf(iso, p, a, s)[i].peakAt
  {
    EventsAreEmittedRuns(iso, p, a, s, 1);
    EmitMembers(iso, p, a, s, Scan(p, s, 1), EventsOf(iso, p, a, s)[i]);
  }

  /** An event names its asset, start and peak row. */
  lemma EventShape(iso: int -> string, p: Policy, points: seq<Point>, a: string, e: Event) returns (peak: Point)
    requires e in EventsOf(iso, p, a, Timeline(p, points, a))
    ensures e.assetId == a && e.eventId == EventId(iso, a, e.startedAt)
    ensures peak in points && Eligible(p, peak) && KeyOf(peak) == PeakKey(e)
  {
    var s := Timeline(p, points, a);
    EventsAreEmittedRuns(iso, p, a, s, 1);
    EmitMembers(iso, p, a, s, Scan(p, s, 1), e);
    var r :| r in Scan(p, s, 1) && e == EventOf(iso, p, a, s, r);
    peak := s[r.peak];
    TimelineRows(p, points, a, peak);
  }

  // ----- the entries -----

  ghost predicate Covered(rows: map<RowKey, Point>, events: seq<Event>) {
    forall i :: 0 <= i < |events| ==> PeakKey(events[i]) in rows
  }

  lemma CoveredStep(rows: map<RowKey, Point>, events: seq<Event>)
    requires events != []
    ensures Covered(rows, events) <==> Covered(rows, events[..|events| - 1]) && PeakKey(events[|events| - 1]) in rows
  {
    var front := events[..|events| - 1];
    assert forall i :: 0 <= i < |front| ==> front[i] == events[i];
  }

  lemma {:induction false} EntriesExist(rows: map<RowKey, Point>, prefix: string, events: seq<Event>)
    ensures Entries(rows, prefix, events).Ok? <==> Covered(rows, events)
  {
    if events != [] {
      EntriesExist(rows, prefix, events[..|events| - 1]);
      CoveredStep(rows, events);
    }
  }

  ghost predicate IsEntry(rows: map<RowKey, Point>, prefix: string, x: Entry) {
    PeakKey(x.event) in rows && EntryFor(rows, prefix, x.event) == Some(x)
  }

  lemma {:induction false} EntryCount(rows: map<RowKey, Point>, prefix: string, events: seq<Event>, x: Entry)
    requires Entries(rows, prefix, events).Ok?
    ensures multiset(Entries(rows, prefix, events).value)[x] == if IsEntry(rows, prefix, x) then multiset(events)[x.event] else 0
  {
    if events != [] {
      EntryCount(rows, prefix, events[..|events| - 1], x);
      assert events == events[..|events| - 1] + [events[|events| - 1]];
    }
  }

  lemma EntryMembers(rows: map<RowKey, Point>, prefix: string, events: seq<Event>, x: Entry)
    requires Entries(rows, prefix, events).Ok? && x in Entries(rows, prefix, events).value
    ensures IsEntry(rows, prefix, x) && x.event in events
  {
    EntryCount(rows, prefix, events, x);
    assert x in multiset(Entries(rows, prefix, events).value);
    assert x.event in multiset(events);
  }

  lemma SameEntries(rows: map<RowKey, Point>, prefix: string, events: seq<Event>, other: seq<Event>)
    requires Entries(rows, prefix, events).Ok? && multiset(events) == multiset(other)
    ensures Entries(rows, prefix, other).Ok?
    ensures multiset(Entries(rows, prefix, events).value) == multiset(Entries(rows, prefix, other).value)
  {
    EntriesExist(rows, prefix, events);
    EntriesExist(rows, prefix, other);
    forall i | 0 <= i < |other| ensures PeakKey(other[i]) in rows {
      assert other[i] in multiset(other);
      assert other[i] in events;
    }
    var a, b := Entries(rows, prefix, events).value, Entries(rows, prefix, other).value;
    forall x ensures multiset(a)[x] == multiset(b)[x] {
      EntryCount(rows, prefix, events, x);
      EntryCount(rows, prefix, other, x);
    }
  }

  /** The events whose peak row has a matching factor. */
  ghost function Matching(rows: map<RowKey, Point>, prefix: string, events: seq<Event>): seq<Event> {
    if events == [] then []
    else
      var front, e := Matching(rows, prefix, events[..|events| - 1]), events[|events| - 1];
      if PeakKey(e) in rows && Contributions(prefix, rows[PeakKey(e)].topFactors) != [] then front + [e] else front
  }

  lemma {:induction false} EntriesMatch(rows: map<RowKey, Point>, prefix: string, events: seq<Event>)
    requires Entries(rows, prefix, events).Ok?
    ensures EventsIn(Entries(rows, prefix, events).value) == Matching(rows, prefix, events)
  {
    if events != [] {
      EntriesMatch(rows, prefix, events[..|events| - 1]);
    }
  }

  lemma EventsInCons(x: Entry, xs: seq<Entry>)
    ensures EventsIn([x] + xs) == [x.event] + EventsIn(xs)
  {
  }

  lemma {:induction false} InsertKeepsEvents(x: Entry, xs: seq<Entry>)
    ensures multiset(EventsIn(Insert(x, xs, RanksBefore))) == multiset{x.event} + multiset(EventsIn(xs))
  {
    if xs == [] || RanksBefore(x, xs[0]) {
      EventsInCons(x, xs);
    } else {
      InsertKeepsEvents(x, xs[1..]);
      EventsInCons(xs[0], Insert(x, xs[1..], RanksBefore));
      EventsInCons(xs[0], xs[1..]);
      assert xs == [xs[0]] + xs[1..];
    }
  }

  lemma {:induction false} SortKeepsEvents(xs: seq<Entry>)
    ensures multiset(EventsIn(SortBy(xs, RanksBefore))) == multiset(EventsIn(xs))
  {
    if xs != [] {
      SortKeepsEvents(xs[1..]);
      InsertKeepsEvents(xs[0], SortBy(xs[1..], RanksBefore));
      EventsInCons(xs[0], xs[1..]);
      assert xs == [xs[0]] + xs[1..];
    }
  }

  lemma RankOrders()
    ensures TotalPreorder(RanksBefore)
  {
    forall a, b ensures RanksBefore(a, b) || RanksBefore(b, a) { LexTotal(a.event.eventId, b.event.eventId); }
    forall a, b, c | RanksBefore(a, b) && RanksBefore(b, c) ensures RanksBefore(a, c) {
      if LexLe(a.event.eventId, b.event.eventId) && LexLe(b.event.eventId, c.event.eventId) {
        LexTransitive(a.event.eventId, b.event.eventId, c.event.eventId);
      }
    }
  }

  /** Ranking the events of a detection over the same rows and the policy's asset types never fails. */
  lemma PipelineIsTotal(iso: int -> string, p: Policy, points: seq<Point>, prefix: string)
    requires Detect(iso, p, points).Ok?
    ensures Rank(Detect(iso, p, points).value, points, prefix, Some(p.eligible)).Ok?
  {
    DetectsIffClean(iso, p, points);
    SameIndex(p, points, points);
    IndexExact(Some(p.eligible), points);
    var rows := RowsByKey(Some(p.eligible), points).value;
    var events := Detect(iso, p, points).value;
    forall e | e in events ensures PeakKey(e) in rows {
      var a := EventSource(iso, p, points, SortBy(Assets(p, points), LexLe), e);
      var peak := EventShape(iso, p, points, a, e);
    }
    EntriesExist(rows, prefix, events);
  }

  /** A ranking holds exactly the events whose peak row has a matching factor, each as often as given,
      ordered by rise, then by the row's largest matching contribution, then by id. */
  lemma RankingIsSortedMatches(events: seq<Event>, points: seq<Point>, prefix: string, eligible: Option<set<string>>)
      returns (rows: map<RowKey, Point>, entries: seq<Entry>)
    requires Rank(events, points, prefix, eligible).Ok?
    ensures IndexesExactly(eligible, points, rows)
    ensures multiset(Rank(events, points, prefix, eligible).value) == multiset(Matching(rows, prefix, events))
    ensures Rank(events, points, prefix, eligible).value == EventsIn(entries) && SortedBy(entries, RanksBefore)
    ensures forall x :: x in entries ==> IsEntry(rows, prefix, x)
  {
    IndexExact(eligible, points);
    rows := RowsByKey(eligible, points).value;
    var unsorted := Entries(rows, prefix, events).value;
    entries := SortBy(unsorted, RanksBefore);
    RankOrders();
    SortSorts(unsorted, RanksBefore);
    SortPermutes(unsorted, RanksBefore);
    SortKeepsEvents(unsorted);
    EntriesMatch(rows, prefix, events);
    forall x | x in entries ensures IsEntry(rows, prefix, x) {
      SortMembers(unsorted, RanksBefore, x);
      EntryMembers(rows, prefix, events, x);
    }
  }

  lemma SeparatedEntries(rows: map<RowKey, Point>, prefix: string, events: seq<Event>)
    requires Entries(rows, prefix, events).Ok?
    requires forall e, f :: e in events && f in events && e.eventId == f.eventId ==> e == f
    ensures Separates(Entries(rows, prefix, events).value, RanksBefore)
  {
    var entries := Entries(rows, prefix, events).value;
    forall x | x in entries ensures x.event in events && IsEntry(rows, prefix, x) {
      EntryMembers(rows, prefix, events, x);
    }
    forall x, y | x in entries && y in entries && RanksBefore(x, y) && RanksBefore(y, x) ensures x == y {
      LexTotal(x.event.eventId, y.event.eventId);
    }
  }

  /** Detection followed by ranking gives one list for every order of the batch, even when the events
      reach the ranking in another order. */
  lemma PipelineIgnoresOrder(iso: int -> string, p: Policy, points: seq<Point>, other: seq<Point>, events: seq<Event>, prefix: string)
    requires ReadableTimes(iso) && p.minStep > 0.0 && Detect(iso, p, points).Ok?
    requires multiset(points) == multiset(other) && multiset(events) == multiset(Detect(iso, p, points).value)
    ensures Rank(events, other, prefix, Some(p.eligible)).Ok?
    ensures Rank(events, other, prefix, Some(p.eligible)) == Rank(Detect(iso, p, points).value, points, prefix, Some(p.eligible))
  {
    var found := Detect(iso, p, points).value;
    PipelineIsTotal(iso, p, points, prefix);
    DetectsIffClean(iso, p, points);
    SameIndex(p, points, other);
    var rows := RowsByKey(Some(p.eligible), points).value;
    SameEntries(rows, prefix, found, events);
    forall e, f | e in found && f in found && e.eventId == f.eventId ensures e == f {
      IdsAreUnique(iso, p, points, e, f);
    }
    SeparatedEntries(rows, prefix, found);
    RankOrders();
    SortForgetsOrder(Entries(rows, prefix, found).value, Entries(rows, prefix, events).value, RanksBefore);
  }
}
