/** What the greedy scan means: one run per maximal rising segment that holds a trigger. */
module RiskScan {
  import opened RiskRise

  ghost predicate Rises(p: Policy, s: seq<Point>, k: int) {
    1 <= k < |s| && Extends(p, s[k - 1], s[k])
  }

  ghost predicate Trigger(p: Policy, s: seq<Point>, k: int) {
    1 <= k < |s| && Triggers(p, s[k - 1], s[k])
  }

  ghost predicate RisesThrough(p: Policy, s: seq<Point>, from: int, to: int) {
    forall k :: from <= k <= to ==> Rises(p, s, k)
  }

  /** Rows a..b rise step by step within the gap, and cannot be widened on either side. */
  ghost predicate MaximalSegment(p: Policy, s: seq<Point>, a: int, b: int) {
    0 <= a < b < |s| && RisesThrough(p, s, a + 1, b) && !Rises(p, s, a) && !Rises(p, s, b + 1)
  }

  /** No step before `k` is a trigger that the rising steps would connect to step `k`. */
  ghost predicate FreshAt(p: Policy, s: seq<Point>, k: int) {
    forall j :: j < k && RisesThrough(p, s, j, k - 1) ==> !Trigger(p, s, j)
  }

  /** The declarative meaning of a run, without reference to the scan: it starts at the row before the
      first trigger of its segment and goes to the end of that segment. */
  ghost predicate IsRun(p: Policy, s: seq<Point>, r: Run) {
    && r.start < r.peak < |s|
    && Trigger(p, s, r.start + 1) && FreshAt(p, s, r.start + 1)
    && RisesThrough(p, s, r.start + 1, r.peak) && !Rises(p, s, r.peak + 1)
    && r.cause == CauseAt(p, s, r.peak + 1)
  }

  ghost predicate Ascending(runs: seq<Run>) {
    forall i, j :: 0 <= i < j < |runs| ==> runs[i].peak < runs[j].start
  }

  lemma {:induction false} RunEndRises(p: Policy, s: seq<Point>, c: nat)
    requires 1 <= c <= |s|
    ensures RisesThrough(p, s, c, RunEnd(p, s, c) - 1) && !Rises(p, s, RunEnd(p, s, c))
    decreases |s| - c
  {
    if c < |s| && Extends(p, s[c - 1], s[c]) {
      RunEndRises(p, s, c + 1);
    }
  }

  lemma FreshNext(p: Policy, s: seq<Point>, k: int)
    requires FreshAt(p, s, k) && (!Trigger(p, s, k) || !Rises(p, s, k))
    ensures FreshAt(p, s, k + 1)
  {
    forall j | j < k + 1 && RisesThrough(p, s, j, k) ensures !Trigger(p, s, j) {
      assert j < k ==> RisesThrough(p, s, j, k - 1);
      assert Rises(p, s, k);
    }
  }

  lemma FreshAfterBreak(p: Policy, s: seq<Point>, k: int)
    requires !Rises(p, s, k)
    ensures FreshAt(p, s, k + 1)
  {
    forall j | j <= k ensures !RisesThrough(p, s, j, k) {
      assert RisesThrough(p, s, j, k) ==> Rises(p, s, k);
    }
  }

  /** The run the scan opens at a trigger is a run, and no other run starts before its terminator. */
  lemma RunAtTrigger(p: Policy, s: seq<Point>, i: nat)
    requires p.minStep > 0.0 && 1 <= i && Trigger(p, s, i) && FreshAt(p, s, i)
    ensures var c := RunEnd(p, s, i + 1); IsRun(p, s, Run(i - 1, c - 1, CauseAt(p, s, c)))
    ensures var c := RunEnd(p, s, i + 1);
      forall r :: IsRun(p, s, r) && i <= r.start + 1 <= c ==> r == Run(i - 1, c - 1, CauseAt(p, s, c))
  {
    var c := RunEnd(p, s, i + 1);
    RunEndRises(p, s, i + 1);
    assert Rises(p, s, i);
    forall r | IsRun(p, s, r) && i <= r.start + 1 <= c
      ensures r == Run(i - 1, c - 1, CauseAt(p, s, c))
    {
      assert Rises(p, s, r.start + 1);
      assert i < r.start + 1 <= c - 1 ==> RisesThrough(p, s, i, r.start);
      assert i == r.start + 1;
      assert r.peak < c - 1 ==> Rises(p, s, r.peak + 1);
      assert r.peak > c - 1 ==> Rises(p, s, c);
    }
  }

  /** `runs` is exactly the runs from step `i` on, in ascending order. */
  ghost predicate Lists(p: Policy, s: seq<Point>, runs: seq<Run>, i: nat) {
    (forall r :: r in runs <==> IsRun(p, s, r) && i <= r.start + 1) && Ascending(runs)
  }

  lemma SkipStep(p: Policy, s: seq<Point>, runs: seq<Run>, i: nat)
    requires Lists(p, s, runs, i + 1) && !Trigger(p, s, i)
    ensures Lists(p, s, runs, i)
  {
  }

  lemma PrependRun(p: Policy, s: seq<Point>, head: Run, rest: seq<Run>, i: nat, c: nat)
    requires IsRun(p, s, head) && head.start + 1 == i && head.peak + 1 == c
    requires forall r :: IsRun(p, s, r) && i <= r.start + 1 <= c ==> r == head
    requires Lists(p, s, rest, c + 1)
    ensures Lists(p, s, [head] + rest, i)
  {
    forall j | 0 <= j < |rest| ensures head.peak < rest[j].start {
      assert rest[j] in rest;
    }
  }

  lemma TriggerStep(p: Policy, s: seq<Point>, i: nat)
    requires p.minStep > 0.0 && 1 <= i && Trigger(p, s, i) && FreshAt(p, s, i)
    requires var c := RunEnd(p, s, i + 1); Lists(p, s, Scan(p, s, c + 1), c + 1)
    ensures Lists(p, s, Scan(p, s, i), i)
  {
    var c := RunEnd(p, s, i + 1);
    RunAtTrigger(p, s, i);
    PrependRun(p, s, Run(i - 1, c - 1, CauseAt(p, s, c)), Scan(p, s, c + 1), i, c);
  }

  lemma NoMoreRuns(p: Policy, s: seq<Point>, i: nat)
    requires i >= |s|
    ensures Lists(p, s, [], i)
  {
  }

  lemma FreshAfterRun(p: Policy, s: seq<Point>, i: nat)
    requires 1 <= i < |s|
    ensures FreshAt(p, s, RunEnd(p, s, i + 1) + 1)
  {
    RunEndRises(p, s, i + 1);
    FreshAfterBreak(p, s, RunEnd(p, s, i + 1));
  }

  /** The scan from a fresh step on lists, in ascending order, exactly the runs that start there or later. */
  lemma {:induction false} ScanFrom(p: Policy, s: seq<Point>, i: nat)
    requires p.minStep > 0.0 && 1 <= i && FreshAt(p, s, i)
    ensures Lists(p, s, Scan(p, s, i), i)
    decreases |s| - i
  {
    if i >= |s| {
      NoMoreRuns(p, s, i);
    } else if Triggers(p, s[i - 1], s[i]) {
      FreshAfterRun(p, s, i);
      ScanFrom(p, s, RunEnd(p, s, i + 1) + 1);
      TriggerStep(p, s, i);
    } else {
      FreshNext(p, s, i);
      ScanFrom(p, s, i + 1);
      SkipStep(p, s, Scan(p, s, i + 1), i);
    }
  }

  /** The greedy index and cursor loops find exactly the runs of the declarative meaning. */
  lemma ScanIsExact(p: Policy, s: seq<Point>)
    requires p.minStep > 0.0
    ensures forall r :: r in Scan(p, s, 1) <==> IsRun(p, s, r)
    ensures Ascending(Scan(p, s, 1))
  {
    ScanFrom(p, s, 1);
  }

  lemma {:induction false} FirstTrigger(p: Policy, s: seq<Point>, k: int) returns (f: nat)
    requires p.minStep > 0.0 && Trigger(p, s, k)
    ensures 1 <= f <= k && Trigger(p, s, f) && FreshAt(p, s, f) && RisesThrough(p, s, f, k)
    decreases k
  {
    if FreshAt(p, s, k) {
      f := k;
    } else {
      var j :| j < k && RisesThrough(p, s, j, k - 1) && Trigger(p, s, j);
      f := FirstTrigger(p, s, j);
    }
  }

  /** Any trigger lies in a run of the scan that ends where the rise ends. */
  lemma TriggerIsCovered(p: Policy, s: seq<Point>, k: nat, b: nat) returns (r: Run)
    requires p.minStep > 0.0 && Trigger(p, s, k)
    requires k <= b && RisesThrough(p, s, k, b) && !Rises(p, s, b + 1)
    ensures r in Scan(p, s, 1) && r.start + 1 <= k && r.peak == b && r.cause == CauseAt(p, s, b + 1)
    ensures RisesThrough(p, s, r.start + 1, b)
  {
    var f := FirstTrigger(p, s, k);
    assert Rises(p, s, b);
    r := Run(f - 1, b, CauseAt(p, s, b + 1));
    ScanIsExact(p, s);
  }

  /** Each maximal segment with a trigger yields exactly one run, which starts at the row before the
      segment's first trigger and ends at its last row; a segment without a trigger yields none. */
  lemma OneRunPerSegment(p: Policy, s: seq<Point>, a: int, b: int, k: nat)
    requires p.minStep > 0.0 && MaximalSegment(p, s, a, b)
    requires a < k <= b && Trigger(p, s, k) && forall j :: a < j < k ==> !Trigger(p, s, j)
    ensures Run(k - 1, b, CauseAt(p, s, b + 1)) in Scan(p, s, 1)
    ensures forall r :: r in Scan(p, s, 1) && a < r.peak && r.start < b ==> r == Run(k - 1, b, CauseAt(p, s, b + 1))
  {
    ScanIsExact(p, s);
    var run := TriggerIsCovered(p, s, k, b);
    SegmentHolds(p, s, run, a, b);
    assert run.start == k - 1;
    forall r | r in Scan(p, s, 1) && a < r.peak && r.start < b
      ensures r == run
    {
      SegmentHolds(p, s, r, a, b);
      var i :| 0 <= i < |Scan(p, s, 1)| && Scan(p, s, 1)[i] == r;
      var j :| 0 <= j < |Scan(p, s, 1)| && Scan(p, s, 1)[j] == run;
    }
  }

  lemma SegmentHolds(p: Policy, s: seq<Point>, r: Run, a: int, b: int)
    requires MaximalSegment(p, s, a, b) && IsRun(p, s, r) && a < r.peak && r.start < b
    ensures a <= r.start && r.peak == b
  {
    assert r.start < a ==> Rises(p, s, a);
    assert r.peak < b ==> Rises(p, s, r.peak + 1);
    assert b < r.peak ==> Rises(p, s, b + 1);
  }

  lemma NoTriggerNoRun(p: Policy, s: seq<Point>, a: int, b: int)
    requires p.minStep > 0.0 && MaximalSegment(p, s, a, b)
    requires forall j :: a < j <= b ==> !Trigger(p, s, j)
    ensures forall r :: r in Scan(p, s, 1) ==> r.peak <= a || b <= r.start
  {
    ScanIsExact(p, s);
    forall r | r in Scan(p, s, 1) ensures r.peak <= a || b <= r.start {
      if a < r.peak && r.start < b { SegmentHolds(p, s, r, a, b); }
    }
  }

  // ----- runs on their own and next to each other -----

  lemma {:induction false} Climb(p: Policy, s: seq<Point>, i: int, j: int)
    requires 0 <= i < j < |s| && RisesThrough(p, s, i + 1, j)
    ensures s[i].probability < s[j].probability
    decreases j - i
  {
    assert Rises(p, s, j);
    if i + 1 < j {
      Climb(p, s, i, j - 1);
    }
  }

  /** The peak is the strict maximum of the run. */
  lemma PeakIsStrictMaximum(p: Policy, s: seq<Point>, r: Run, i: nat)
    requires p.minStep > 0.0 && r in Scan(p, s, 1) && r.start <= i < r.peak
    ensures s[i].probability < s[r.peak].probability
  {
    ScanIsExact(p, s);
    Climb(p, s, i, r.peak);
  }

  /** Successive runs have disjoint rows, and share a source row only when the earlier one ended on a
      row that did not rise and the later one starts at that very row. */
  lemma RunsAreDisjoint(p: Policy, s: seq<Point>, i: nat, j: nat)
    requires p.minStep > 0.0 && i < j < |Scan(p, s, 1)|
    ensures var a, b := Scan(p, s, 1)[i], Scan(p, s, 1)[j];
      && a.peak < b.start
      && SourceStop(a) <= b.start + 1
      && (SourceStop(a) == b.start + 1 ==> a.cause == NonIncrease && b.start == a.peak + 1)
  {
    ScanIsExact(p, s);
  }
}
