/** Risk-rise detection over the time-ordered prediction rows of one asset. */
module RiskRise {

  datatype Direction = Increase | Decrease | RiskUp | RiskDown

  datatype Factor = Factor(feature: string, contribution: real, direction: Direction)

  /** Times are whole seconds, probabilities exact reals. */
  datatype Point = Point(
    predictionId: string,
    assetId: string,
    assetType: string,
    observedAt: int,
    probability: real,
    modelVersion: string,
    topFactors: seq<Factor>)

  datatype Policy = Policy(
    version: string,
    eligible: set<string>,
    minStep: real,
    minTotal: real,
    maxGapHours: real)

  datatype Cause = NonIncrease | Gap | EndOfTimeline

  datatype Event = Event(
    eventId: string,
    assetId: string,
    assetType: string,
    startedAt: int,
    peakAt: int,
    endedAt: int,
    baseline: real,
    peak: real,
    delta: real,
    timeToPeakHours: real,
    durationHours: real,
    terminatedBy: Cause,
    policyVersion: string,
    modelVersion: string,
    sources: seq<string>)

  /** The field bounds of the policy model. */
  ghost predicate ValidPolicy(p: Policy) {
    && p.version != "" && p.eligible != {}
    && 0.0 < p.minStep <= 1.0 && 0.0 < p.minTotal <= 1.0 && p.maxGapHours > 0.0
  }

  /** The field bounds of the timeline-row model. */
  ghost predicate ValidPoint(x: Point) {
    && x.predictionId != "" && x.assetId != "" && x.assetType != "" && x.modelVersion != ""
    && 0.0 <= x.probability <= 1.0
  }

  function HoursBetween(from: int, to: int): real {
    (to - from) as real / 3600.0
  }

  predicate TooFar(p: Policy, prior: Point, next: Point) {
    HoursBetween(prior.observedAt, next.observedAt) > p.maxGapHours
  }

  /** The step from `prior` to `next` opens a run. */
  predicate Triggers(p: Policy, prior: Point, next: Point) {
    !TooFar(p, prior, next) && next.probability - prior.probability >= p.minStep
  }

  /** The step from `prior` to `next` keeps a run going. */
  predicate Extends(p: Policy, prior: Point, next: Point) {
    !TooFar(p, prior, next) && next.probability > prior.probability
  }

  /** A run of rows: from the row before the trigger to the last row that still rises. */
  datatype Run = Run(start: nat, peak: nat, cause: Cause)

  predicate InTimeline(s: seq<Point>, r: Run) {
    r.start < r.peak < |s| && (r.cause == NonIncrease ==> r.peak + 1 < |s|)
  }

  /** The first index from `c` on whose step does not extend. */
  function RunEnd(p: Policy, s: seq<Point>, c: nat): (e: nat)
    requires 1 <= c <= |s|
    ensures c <= e <= |s|
    decreases |s| - c
  {
    if c == |s| || !Extends(p, s[c - 1], s[c]) then c else RunEnd(p, s, c + 1)
  }

  function CauseAt(p: Policy, s: seq<Point>, c: nat): Cause
    requires 1 <= c <= |s|
  {
    if c == |s| then EndOfTimeline else if TooFar(p, s[c - 1], s[c]) then Gap else NonIncrease
  }

  /** The greedy scan from step `i` on, as a list of runs. */
  function Scan(p: Policy, s: seq<Point>, i: nat): (runs: seq<Run>)
    requires 1 <= i
    ensures forall r :: r in runs ==> InTimeline(s, r)
    decreases |s| - i
  {
    if i >= |s| then []
    else if !Triggers(p, s[i - 1], s[i]) then Scan(p, s, i + 1)
    else
      var c := RunEnd(p, s, i + 1);
      [Run(i - 1, c - 1, CauseAt(p, s, c))] + Scan(p, s, c + 1)
  }

  /** One past the last source row: the row that ended the run counts only if it did not rise. */
  function SourceStop(r: Run): nat {
    if r.cause == NonIncrease then r.peak + 2 else r.peak + 1
  }

  function Ids(s: seq<Point>): seq<string> {
    seq(|s|, i requires 0 <= i < |s| => s[i].predictionId)
  }

  function EventId(iso: int -> string, assetId: string, startedAt: int): string {
    "RISK-RISE#" + assetId + "#" + iso(startedAt)
  }

  function EventOf(iso: int -> string, p: Policy, assetId: string, s: seq<Point>, r: Run): Event
    requires InTimeline(s, r)
  {
    var baseline, peak := s[r.start], s[r.peak];
    var ended := if r.cause == NonIncrease then s[r.peak + 1] else peak;
    Event(
      EventId(iso, assetId, baseline.observedAt),
      assetId,
      baseline.assetType,
      baseline.observedAt,
      peak.observedAt,
      ended.observedAt,
      baseline.probability,
      peak.probability,
      peak.probability - baseline.probability,
      HoursBetween(baseline.observedAt, peak.observedAt),
      HoursBetween(baseline.observedAt, ended.observedAt),
      r.cause,
      p.version,
      baseline.modelVersion,
      Ids(s[r.start..SourceStop(r)]))
  }

  function Keep(p: Policy, e: Event, rest: seq<Event>): seq<Event> {
    if e.delta >= p.minTotal then [e] + rest else rest
  }

  /** The runs whose total rise is large enough, as events. */
  function Emit(iso: int -> string, p: Policy, assetId: string, s: seq<Point>, runs: seq<Run>): seq<Event>
    requires forall r :: r in runs ==> InTimeline(s, r)
  {
    if runs == [] then []
    else
      Keep(p, EventOf(iso, p, assetId, s, runs[0]), Emit(iso, p, assetId, s, runs[1..]))
  }

  /** The events that the scan emits from step `i` on. */
  function EventsFrom(iso: int -> string, p: Policy, assetId: string, s: seq<Point>, i: nat): seq<Event>
    requires 1 <= i
    decreases |s| - i
  {
    if i >= |s| then []
    else if !Triggers(p, s[i - 1], s[i]) then EventsFrom(iso, p, assetId, s, i + 1)
    else
      var c := RunEnd(p, s, i + 1);
      var e := EventOf(iso, p, assetId, s, Run(i - 1, c - 1, CauseAt(p, s, c)));
      Keep(p, e, EventsFrom(iso, p, assetId, s, c + 1))
  }

  function EventsOf(iso: int -> string, p: Policy, assetId: string, s: seq<Point>): seq<Event> {
    EventsFrom(iso, p, assetId, s, 1)
  }

  lemma EmitCons(iso: int -> string, p: Policy, assetId: string, s: seq<Point>, r: Run, runs: seq<Run>)
    requires InTimeline(s, r) && forall x :: x in runs ==> InTimeline(s, x)
    ensures Emit(iso, p, assetId, s, [r] + runs) == Keep(p, EventOf(iso, p, assetId, s, r), Emit(iso, p, assetId, s, runs))
  {
    assert ([r] + runs)[1..] == runs;
  }

  /** What a pass of the outer loop that follows a rise takes off the events still to come. */
  lemma EmitPass(iso: int -> string, p: Policy, assetId: string, s: seq<Point>, i: nat, r: Run, c: nat)
    requires 1 <= i < |s| && Triggers(p, s[i - 1], s[i])
    requires c == RunEnd(p, s, i + 1) && r == Run(i - 1, c - 1, CauseAt(p, s, c))
    ensures Keep(p, EventOf(iso, p, assetId, s, r), EventsFrom(iso, p, assetId, s, c + 1)) == EventsFrom(iso, p, assetId, s, i)
  {
  }

  lemma ScanPass(p: Policy, s: seq<Point>, i: nat, r: Run, c: nat)
    requires 1 <= i < |s| && Triggers(p, s[i - 1], s[i])
    requires c == RunEnd(p, s, i + 1) && r == Run(i - 1, c - 1, CauseAt(p, s, c))
    ensures Scan(p, s, i) == [r] + Scan(p, s, c + 1)
  {
  }

  /** Scanning and emitting interleaved give the same events as emitting the finished list of runs. */
  lemma {:induction false} EventsAreEmittedRuns(iso: int -> string, p: Policy, assetId: string, s: seq<Point>, i: nat)
    requires 1 <= i
    ensures EventsFrom(iso, p, assetId, s, i) == Emit(iso, p, assetId, s, Scan(p, s, i))
    decreases |s| - i
  {
    if i < |s| {
      if !Triggers(p, s[i - 1], s[i]) {
        EventsAreEmittedRuns(iso, p, assetId, s, i + 1);
      } else {
        var c := RunEnd(p, s, i + 1);
        var r, rest := Run(i - 1, c - 1, CauseAt(p, s, c)), Scan(p, s, c + 1);
        EventsAreEmittedRuns(iso, p, assetId, s, c + 1);
        ScanPass(p, s, i, r, c);
        EmitCons(iso, p, assetId, s, r, rest);
        EmitPass(iso, p, assetId, s, i, r, c);
      }
    }
  }

  /** The inner cursor loop: follows the rise that step `index` opens until something ends it. */
  method FollowRise(p: Policy, ordered: seq<Point>, index: nat) returns (peakIndex: nat, cursor: nat, terminatedBy: Cause)
    requires 1 <= index < |ordered|
    ensures index < cursor <= |ordered| && peakIndex == cursor - 1
    ensures forall k :: index < k < cursor ==> Extends(p, ordered[k - 1], ordered[k])
    ensures match terminatedBy
      case EndOfTimeline => cursor == |ordered|
      case Gap => cursor < |ordered| && TooFar(p, ordered[cursor - 1], ordered[cursor])
      case NonIncrease => cursor < |ordered| && !TooFar(p, ordered[cursor - 1], ordered[cursor]) && ordered[cursor].probability <= ordered[cursor - 1].probability
    ensures cursor == RunEnd(p, ordered, index + 1) && terminatedBy == CauseAt(p, ordered, cursor)
  {
    peakIndex, cursor, terminatedBy := index, index + 1, EndOfTimeline;
    while cursor < |ordered|
      invariant index + 1 <= cursor <= |ordered| && peakIndex == cursor - 1
      invariant forall k :: index < k < cursor ==> Extends(p, ordered[k - 1], ordered[k])
      invariant RunEnd(p, ordered, cursor) == RunEnd(p, ordered, index + 1)
    {
      var prior, candidate := ordered[cursor - 1], ordered[cursor];
      if HoursBetween(prior.observedAt, candidate.observedAt) > p.maxGapHours {
        terminatedBy := Gap;
        return;
      }
      if candidate.probability <= prior.probability {
        terminatedBy := NonIncrease;
        return;
      }
      peakIndex := cursor;
      cursor := cursor + 1;
    }
  }

  lemma Kept(before: seq<Event>, p: Policy, e: Event, rest: seq<Event>)
    ensures before + Keep(p, e, rest) == (if e.delta >= p.minTotal then before + [e] else before) + rest
  {
  }

  lemma SkipPass(iso: int -> string, p: Policy, assetId: string, s: seq<Point>, i: nat)
    requires 1 <= i < |s| && !Triggers(p, s[i - 1], s[i])
    ensures EventsFrom(iso, p, assetId, s, i + 1) == EventsFrom(iso, p, assetId, s, i)
  {
  }

  /** The outer index loop over one ordered timeline. */
  method DetectInTimeline(iso: int -> string, p: Policy, assetId: string, ordered: seq<Point>) returns (events: seq<Event>)
    ensures events == EventsOf(iso, p, assetId, ordered)
  {
    events := [];
    var index := 1;
    ghost var rest := EventsOf(iso, p, assetId, ordered);
    while index < |ordered|
      invariant 1 <= index && rest == EventsFrom(iso, p, assetId, ordered, index)
      invariant events + rest == EventsOf(iso, p, assetId, ordered)
      decreases |ordered| - index
    {
      var previous, current := ordered[index - 1], ordered[index];
      var gap := HoursBetween(previous.observedAt, current.observedAt);
      var step := current.probability - previous.probability;
      if gap > p.maxGapHours || step < p.minStep {
        SkipPass(iso, p, assetId, ordered, index);
        index := index + 1;
        continue;
      }
      var start := index - 1;
      var peakIndex, cursor, terminatedBy := FollowRise(p, ordered, index);
      var event := EventOf(iso, p, assetId, ordered, Run(start, peakIndex, terminatedBy));
      EmitPass(iso, p, assetId, ordered, index, Run(start, peakIndex, terminatedBy), cursor);
      rest := EventsFrom(iso, p, assetId, ordered, cursor + 1);
      Kept(events, p, event, rest);
      if event.delta >= p.minTotal {
        events := events + [event];
      }
      index := cursor + 1;
    }
  }
}
