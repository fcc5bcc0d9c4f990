/** Properties of whole detections: the event contract, splitting a timeline, raising a threshold. */
module RiskProperties {
  import opened RiskRise
  import opened RiskScan

  // ----- the event contract -----

  /** Every check of the event model, with exact arithmetic in place of its 1e-9 tolerance. */
  ghost predicate EventContract(e: Event) {
    && e.eventId != "" && e.assetId != "" && e.assetType != "" && e.policyVersion != "" && e.modelVersion != ""
    && e.startedAt <= e.peakAt <= e.endedAt
    && 0.0 <= e.baseline <= 1.0 && 0.0 <= e.peak <= 1.0 && 0.0 < e.delta <= 1.0
    && e.delta == e.peak - e.baseline
    && e.timeToPeakHours == HoursBetween(e.startedAt, e.peakAt) && e.timeToPeakHours >= 0.0
    && e.durationHours == HoursBetween(e.startedAt, e.endedAt) && e.durationHours >= 0.0
    && |e.sources| >= 2
  }

  ghost predicate TimeOrdered(s: seq<Point>) {
    forall i, j :: 0 <= i < j < |s| ==> s[i].observedAt < s[j].observedAt
  }

  ghost predicate ValidPoints(s: seq<Point>) {
    forall x :: x in s ==> ValidPoint(x)
  }

  /** Which runs an emitted event can come from. */
  lemma {:induction false} EmitMembers(iso: int -> string, p: Policy, a: string, s: seq<Point>, runs: seq<Run>, e: Event)
    requires forall r :: r in runs ==> InTimeline(s, r)
    ensures e in Emit(iso, p, a, s, runs) <==> exists r :: r in runs && e == EventOf(iso, p, a, s, r) && e.delta >= p.minTotal
  {
    if runs != [] {
      EmitMembers(iso, p, a, s, runs[1..], e);
      assert forall r :: r in runs <==> r == runs[0] || r in runs[1..];
    }
  }

  lemma RunEventContract(iso: int -> string, p: Policy, a: string, s: seq<Point>, r: Run)
    requires ValidPolicy(p) && a != "" && ValidPoints(s) && TimeOrdered(s) && r in Scan(p, s, 1)
    ensures EventContract(EventOf(iso, p, a, s, r))
  {
    assert s[r.start] in s && s[r.peak] in s;
    PeakIsStrictMaximum(p, s, r, r.start);
  }

  /** The detector's events are exactly the declarative runs that rise enough, and every one of them
      passes the event model's validation. */
  lemma EventsMeetContract(iso: int -> string, p: Policy, a: string, s: seq<Point>, e: Event)
    requires ValidPolicy(p) && a != "" && ValidPoints(s) && TimeOrdered(s)
    ensures e in EventsOf(iso, p, a, s) <==>
      exists r :: IsRun(p, s, r) && InTimeline(s, r) && e == EventOf(iso, p, a, s, r) && e.delta >= p.minTotal
    ensures e in EventsOf(iso, p, a, s) ==> EventContract(e)
  {
    EventsAreEmittedRuns(iso, p, a, s, 1);
    EmitMembers(iso, p, a, s, Scan(p, s, 1), e);
    ScanIsExact(p, s);
    if e in EventsOf(iso, p, a, s) {
      var r :| r in Scan(p, s, 1) && e == EventOf(iso, p, a, s, r);
      RunEventContract(iso, p, a, s, r);
    }
    if r :| IsRun(p, s, r) && InTimeline(s, r) && e == EventOf(iso, p, a, s, r) && e.delta >= p.minTotal {
      assert r in Scan(p, s, 1);
    }
  }

  /** Events of one asset come in time order and overlap at most in one instant, namely when the row
      that ended the earlier one without rising is the baseline of the later one. */
  ghost predicate InTurn(a: Event, b: Event) {
    && a.peakAt < b.startedAt && a.endedAt <= b.startedAt
    && (a.endedAt == b.startedAt ==> a.terminatedBy == NonIncrease)
  }

  lemma RunsInTurn(iso: int -> string, p: Policy, a: string, s: seq<Point>, q: Run, r: Run)
    requires TimeOrdered(s) && InTimeline(s, q) && InTimeline(s, r) && q.peak < r.start
    ensures InTurn(EventOf(iso, p, a, s, q), EventOf(iso, p, a, s, r))
  {
    assert q.cause == NonIncrease && q.peak + 1 < r.start ==> s[q.peak + 1].observedAt < s[r.start].observedAt;
  }

  ghost predicate AllInTurn(es: seq<Event>) {
    forall i, j :: 0 <= i < j < |es| ==> InTurn(es[i], es[j])
  }

  lemma PrependInTurn(head: Event, rest: seq<Event>)
    requires AllInTurn(rest) && forall e :: e in rest ==> InTurn(head, e)
    ensures AllInTurn([head] + rest)
  {
  }

  lemma TailAscending(runs: seq<Run>)
    requires runs != [] && Ascending(runs)
    ensures Ascending(runs[1..]) && forall r :: r in runs[1..] ==> runs[0].peak < r.start
  {
    var rest := runs[1..];
    forall i, j | 0 <= i < j < |rest| ensures rest[i].peak < rest[j].start {
      assert rest[i] == runs[i + 1] && rest[j] == runs[j + 1];
    }
    forall i | 0 <= i < |rest| ensures runs[0].peak < rest[i].start {
      assert rest[i] == runs[i + 1];
    }
  }

  lemma {:induction false} EmitInTurn(iso: int -> string, p: Policy, a: string, s: seq<Point>, runs: seq<Run>)
    requires TimeOrdered(s) && Ascending(runs) && forall r :: r in runs ==> InTimeline(s, r)
    ensures AllInTurn(Emit(iso, p, a, s, runs))
  {
    if runs != [] {
      var head, rest := EventOf(iso, p, a, s, runs[0]), Emit(iso, p, a, s, runs[1..]);
      TailAscending(runs);
      EmitInTurn(iso, p, a, s, runs[1..]);
      forall e | e in rest ensures InTurn(head, e) {
        EmitMembers(iso, p, a, s, runs[1..], e);
        var r :| r in runs[1..] && e == EventOf(iso, p, a, s, r);
        RunsInTurn(iso, p, a, s, runs[0], r);
      }
      PrependInTurn(head, rest);
    }
  }

  lemma EventsInTurn(iso: int -> string, p: Policy, a: string, s: seq<Point>, i: nat, j: nat)
    requires p.minStep > 0.0 && TimeOrdered(s) && i < j < |EventsOf(iso, p, a, s)|
    ensures InTurn(EventsOf(iso, p, a, s)[i], EventsOf(iso, p, a, s)[j])
  {
    EventsAreEmittedRuns(iso, p, a, s, 1);
    ScanIsExact(p, s);
    EmitInTurn(iso, p, a, s, Scan(p, s, 1));
  }

  // ----- splitting a timeline at a gap -----

  ghost function CutRun(r: Run): Run {
    if r.cause == EndOfTimeline then r.(cause := Gap) else r
  }

  ghost function CutEvent(e: Event): Event {
    if e.terminatedBy == EndOfTimeline then e.(terminatedBy := Gap) else e
  }

  ghost function LaterRun(r: Run, d: nat): Run {
    Run(d + r.start, d + r.peak, r.cause)
  }

  ghost function CutRuns(runs: seq<Run>): seq<Run> {
    seq(|runs|, i requires 0 <= i < |runs| => CutRun(runs[i]))
  }

  ghost function CutEvents(es: seq<Event>): seq<Event> {
    seq(|es|, i requires 0 <= i < |es| => CutEvent(es[i]))
  }

  ghost function LaterRuns(runs: seq<Run>, d: nat): seq<Run> {
    seq(|runs|, i requires 0 <= i < |runs| => LaterRun(runs[i], d))
  }

  ghost predicate SplitsAtGap(p: Policy, x: seq<Point>, y: seq<Point>) {
    x != [] && y != [] && TooFar(p, x[|x| - 1], y[0])
  }

  lemma {:induction false} RunEndBefore(p: Policy, x: seq<Point>, y: seq<Point>, c: nat)
    requires SplitsAtGap(p, x, y) && 1 <= c <= |x|
    ensures RunEnd(p, x + y, c) == RunEnd(p, x, c)
    decreases |x| - c
  {
    if c < |x| && Extends(p, x[c - 1], x[c]) {
      RunEndBefore(p, x, y, c + 1);
    }
  }

  lemma {:induction false} RunEndBeyond(p: Policy, x: seq<Point>, y: seq<Point>, c: nat)
    requires 1 <= c <= |y|
    ensures RunEnd(p, x + y, |x| + c) == |x| + RunEnd(p, y, c)
    decreases |y| - c
  {
    if c < |y| && Extends(p, y[c - 1], y[c]) {
      RunEndBeyond(p, x, y, c + 1);
    }
  }

  /** From the second half on, the whole timeline has the runs that the second half alone has. */
  lemma {:induction false} ScanBeyond(p: Policy, x: seq<Point>, y: seq<Point>, i: nat)
    requires 1 <= i
    ensures Scan(p, x + y, |x| + i) == LaterRuns(Scan(p, y, i), |x|)
    decreases |y| - i
  {
    if i < |y| {
      assert (x + y)[|x| + i - 1] == y[i - 1] && (x + y)[|x| + i] == y[i];
      if !Triggers(p, y[i - 1], y[i]) {
        ScanBeyond(p, x, y, i + 1);
      } else {
        RunEndBeyond(p, x, y, i + 1);
        ScanBeyond(p, x, y, RunEnd(p, y, i + 1) + 1);
      }
    }
  }

  lemma {:induction false} ScanSplit(p: Policy, x: seq<Point>, y: seq<Point>, i: nat)
    requires SplitsAtGap(p, x, y) && 1 <= i <= |x| + 1
    ensures Scan(p, x + y, i) == CutRuns(Scan(p, x, i)) + LaterRuns(Scan(p, y, 1), |x|)
    decreases |x| + 1 - i
  {
    if i > |x| {
      ScanBeyond(p, x, y, 1);
    } else if i == |x| || !Triggers(p, x[i - 1], x[i]) {
      ScanSplit(p, x, y, i + 1);
    } else {
      var c := RunEnd(p, x, i + 1);
      RunEndBefore(p, x, y, i + 1);
      ScanSplit(p, x, y, c + 1);
      assert CauseAt(p, x + y, c) == CutRun(Run(i - 1, c - 1, CauseAt(p, x, c))).cause;
    }
  }

  lemma EventBefore(iso: int -> string, p: Policy, a: string, x: seq<Point>, y: seq<Point>, r: Run)
    requires InTimeline(x, r)
    ensures InTimeline(x + y, CutRun(r)) && EventOf(iso, p, a, x + y, CutRun(r)) == CutEvent(EventOf(iso, p, a, x, r))
  {
    assert (x + y)[r.start..SourceStop(r)] == x[r.start..SourceStop(r)];
  }

  lemma EventBeyond(iso: int -> string, p: Policy, a: string, x: seq<Point>, y: seq<Point>, r: Run)
    requires InTimeline(y, r)
    ensures var q := LaterRun(r, |x|);
      InTimeline(x + y, q) && EventOf(iso, p, a, x + y, q) == EventOf(iso, p, a, y, r)
  {
    var q := LaterRun(r, |x|);
    assert (x + y)[q.start..SourceStop(q)] == y[r.start..SourceStop(r)];
  }

  lemma {:induction false} EmitAppend(iso: int -> string, p: Policy, a: string, s: seq<Point>, runs: seq<Run>, more: seq<Run>)
    requires forall r :: r in runs + more ==> InTimeline(s, r)
    ensures Emit(iso, p, a, s, runs + more) == Emit(iso, p, a, s, runs) + Emit(iso, p, a, s, more)
  {
    if runs == [] {
      assert runs + more == more;
    } else {
      assert runs + more == [runs[0]] + (runs[1..] + more);
      EmitAppend(iso, p, a, s, runs[1..], more);
      EmitCons(iso, p, a, s, runs[0], runs[1..] + more);
    }
  }

  lemma CutsInTimeline(x: seq<Point>, y: seq<Point>, runs: seq<Run>)
    requires forall r :: r in runs ==> InTimeline(x, r)
    ensures forall r :: r in CutRuns(runs) ==> InTimeline(x + y, r)
  {
    forall r | r in CutRuns(runs) ensures InTimeline(x + y, r) {
      var i :| 0 <= i < |runs| && CutRuns(runs)[i] == r;
      assert runs[i] in runs;
    }
  }

  lemma CutFirst(runs: seq<Run>)
    requires runs != []
    ensures CutRuns(runs) == [CutRun(runs[0])] + CutRuns(runs[1..])
  {
  }

  lemma KeepCut(p: Policy, e: Event, rest: seq<Event>)
    ensures CutEvents(Keep(p, e, rest)) == Keep(p, CutEvent(e), CutEvents(rest))
  {
  }

  lemma {:induction false} EmitBefore(iso: int -> string, p: Policy, a: string, x: seq<Point>, y: seq<Point>, runs: seq<Run>)
    requires forall r :: r in runs ==> InTimeline(x, r)
    ensures forall r :: r in CutRuns(runs) ==> InTimeline(x + y, r)
    ensures Emit(iso, p, a, x + y, CutRuns(runs)) == CutEvents(Emit(iso, p, a, x, runs))
  {
    CutsInTimeline(x, y, runs);
    if runs != [] {
      EmitBefore(iso, p, a, x, y, runs[1..]);
      EventBefore(iso, p, a, x, y, runs[0]);
      EmitCons(iso, p, a, x + y, CutRun(runs[0]), CutRuns(runs[1..]));
      CutFirst(runs);
      KeepCut(p, EventOf(iso, p, a, x, runs[0]), Emit(iso, p, a, x, runs[1..]));
    }
  }

  lemma {:induction false} EmitBeyond(iso: int -> string, p: Policy, a: string, x: seq<Point>, y: seq<Point>, runs: seq<Run>)
    requires forall r :: r in runs ==> InTimeline(y, r)
    ensures forall r :: r in LaterRuns(runs, |x|) ==> InTimeline(x + y, r)
    ensures Emit(iso, p, a, x + y, LaterRuns(runs, |x|)) == Emit(iso, p, a, y, runs)
  {
    forall r | r in LaterRuns(runs, |x|) ensures InTimeline(x + y, r) {
      var i :| 0 <= i < |runs| && LaterRuns(runs, |x|)[i] == r;
      assert runs[i] in runs;
    }
    if runs != [] {
      EmitBeyond(iso, p, a, x, y, runs[1..]);
      EventBeyond(iso, p, a, x, y, runs[0]);
      EmitCons(iso, p, a, x + y, LaterRun(runs[0], |x|), LaterRuns(runs[1..], |x|));
      assert LaterRuns(runs, |x|) == [LaterRun(runs[0], |x|)] + LaterRuns(runs[1..], |x|);
    }
  }

  /** A timeline that splits at a gap detects what its halves detect, except that a run that ends the
      first half is labelled as ended by the gap. */
  lemma GapComposition(iso: int -> string, p: Policy, a: string, x: seq<Point>, y: seq<Point>)
    requires SplitsAtGap(p, x, y)
    ensures EventsOf(iso, p, a, x + y) == CutEvents(EventsOf(iso, p, a, x)) + EventsOf(iso, p, a, y)
  {
    EventsAreEmittedRuns(iso, p, a, x + y, 1);
    EventsAreEmittedRuns(iso, p, a, x, 1);
    EventsAreEmittedRuns(iso, p, a, y, 1);
    ScanSplit(p, x, y, 1);
    EmitBeyond(iso, p, a, x, y, Scan(p, y, 1));
    EmitBefore(iso, p, a, x, y, Scan(p, x, 1));
    EmitAppend(iso, p, a, x + y, CutRuns(Scan(p, x, 1)), LaterRuns(Scan(p, y, 1), |x|));
  }

  // ----- raising a threshold -----

  ghost function AtLeast(es: seq<Event>, bound: real): seq<Event> {
    if es == [] then []
    else if es[0].delta >= bound then [es[0]] + AtLeast(es[1..], bound)
    else AtLeast(es[1..], bound)
  }

  lemma AtLeastKeeps(p: Policy, e: Event, es: seq<Event>, bound: real)
    requires p.minTotal <= bound
    ensures AtLeast(Keep(p, e, es), bound) == Keep(p.(minTotal := bound), e, AtLeast(es, bound))
  {
    assert ([e] + es)[1..] == es;
  }

  lemma {:induction false} SameRunEnd(p: Policy, q: Policy, s: seq<Point>, c: nat)
    requires 1 <= c <= |s| && p.maxGapHours == q.maxGapHours
    ensures RunEnd(p, s, c) == RunEnd(q, s, c)
    decreases |s| - c
  {
    if c < |s| && Extends(p, s[c - 1], s[c]) {
      SameRunEnd(p, q, s, c + 1);
    }
  }

  lemma {:induction false} SameScan(p: Policy, q: Policy, s: seq<Point>, i: nat)
    requires 1 <= i && p.maxGapHours == q.maxGapHours && p.minStep == q.minStep
    ensures Scan(p, s, i) == Scan(q, s, i)
    decreases |s| - i
  {
    if i < |s| {
      SameRunEnd(p, q, s, i + 1);
      SameScan(p, q, s, if Triggers(p, s[i - 1], s[i]) then RunEnd(p, s, i + 1) + 1 else i + 1);
    }
  }

  lemma {:induction false} EmitRefines(iso: int -> string, p: Policy, a: string, s: seq<Point>, bound: real, runs: seq<Run>)
    requires p.minTotal <= bound && forall r :: r in runs ==> InTimeline(s, r)
    ensures Emit(iso, p.(minTotal := bound), a, s, runs) == AtLeast(Emit(iso, p, a, s, runs), bound)
  {
    if runs != [] {
      var e := EventOf(iso, p, a, s, runs[0]);
      EmitRefines(iso, p, a, s, bound, runs[1..]);
      AtLeastKeeps(p, e, Emit(iso, p, a, s, runs[1..]), bound);
    }
  }

  /** Raising only the minimum total rise filters the events and changes nothing else. */
  lemma RaisingTotalFilters(iso: int -> string, p: Policy, a: string, s: seq<Point>, bound: real)
    requires p.minTotal <= bound
    ensures EventsOf(iso, p.(minTotal := bound), a, s) == AtLeast(EventsOf(iso, p, a, s), bound)
  {
    EventsAreEmittedRuns(iso, p, a, s, 1);
    EventsAreEmittedRuns(iso, p.(minTotal := bound), a, s, 1);
    SameScan(p, p.(minTotal := bound), s, 1);
    EmitRefines(iso, p, a, s, bound, Scan(p, s, 1));
  }

  /** Raising only the minimum step makes every run a suffix, with the same peak and the same end, of a
      run found before: no event appears where there was none. */
  lemma RaisingStepShrinksRuns(p: Policy, s: seq<Point>, bound: real, r: Run) returns (wider: Run)
    requires 0.0 < p.minStep <= bound && r in Scan(p.(minStep := bound), s, 1)
    ensures wider in Scan(p, s, 1) && wider.start <= r.start && wider.peak == r.peak && wider.cause == r.cause
    ensures s[wider.start].probability <= s[r.start].probability
  {
    var q := p.(minStep := bound);
    ScanIsExact(q, s);
    assert Trigger(p, s, r.start + 1);
    forall k ensures Rises(p, s, k) <==> Rises(q, s, k) {}
    wider := TriggerIsCovered(p, s, r.start + 1, r.peak);
    if wider.start < r.start {
      Climb(p, s, wider.start, r.start);
    }
  }

  lemma SourcesFrom(s: seq<Point>, from: nat, middle: nat, to: nat)
    requires from <= middle <= to <= |s|
    ensures Ids(s[from..to])[middle - from..] == Ids(s[middle..to])
  {
  }

  /** The later event is the earlier one with its first rows taken off: the same peak, end and cause. */
  ghost predicate Shortens(e: Event, wider: Event) {
    && e.assetId == wider.assetId
    && e.peakAt == wider.peakAt && e.peak == wider.peak
    && e.endedAt == wider.endedAt && e.terminatedBy == wider.terminatedBy
    && wider.startedAt <= e.startedAt && wider.delta >= e.delta
    && |e.sources| <= |wider.sources| && wider.sources[|wider.sources| - |e.sources|..] == e.sources
  }

  lemma ShorterRun(iso: int -> string, p: Policy, a: string, s: seq<Point>, r: Run, wider: Run)
    requires TimeOrdered(s) && InTimeline(s, r) && InTimeline(s, wider)
    requires wider.start <= r.start && wider.peak == r.peak && wider.cause == r.cause
    requires s[wider.start].probability <= s[r.start].probability
    ensures Shortens(EventOf(iso, p, a, s, r), EventOf(iso, p, a, s, wider))
  {
    SourcesFrom(s, wider.start, r.start, SourceStop(r));
    assert wider.start < r.start ==> s[wider.start].observedAt < s[r.start].observedAt;
  }

  /** Raising only the minimum step makes no event appear where there was none: every event is an event of
      before with its first rows taken off, and rises no more. */
  lemma RaisingStepShrinksEvents(iso: int -> string, p: Policy, a: string, s: seq<Point>, bound: real, e: Event) returns (wider: Event)
    requires 0.0 < p.minStep <= bound && TimeOrdered(s) && e in EventsOf(iso, p.(minStep := bound), a, s)
    ensures wider in EventsOf(iso, p, a, s) && Shortens(e, wider)
  {
    var q := p.(minStep := bound);
    EventsAreEmittedRuns(iso, q, a, s, 1);
    EmitMembers(iso, q, a, s, Scan(q, s, 1), e);
    var r :| r in Scan(q, s, 1) && e == EventOf(iso, q, a, s, r) && e.delta >= p.minTotal;
    var run := RaisingStepShrinksRuns(p, s, bound, r);
    wider := EventOf(iso, p, a, s, run);
    ShorterRun(iso, p, a, s, r, run);
    EventsAreEmittedRuns(iso, p, a, s, 1);
    EmitMembers(iso, p, a, s, Scan(p, s, 1), wider);
  }
}
