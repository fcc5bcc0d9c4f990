/** The report over the run records: overall and per-case counters. */
module LunaTallies {
  import opened Wrappers
  import opened Counting
  import opened LunaRuns

  datatype Bucket = Bucket(caseLabel: string, runs: nat, accepted: nat, failures: map<string, nat>)

  datatype Report = Report(
    completedRuns: nat,
    validRuns: nat,
    transportRuns: nat,
    acceptedRuns: nat,
    failureCounts: map<string, nat>,
    byCase: map<nat, Bucket>)

  /** The rows of a case, or of all cases, that are not transport errors. */
  predicate Within(r: Record, input: Option<nat>) {
    !IsTransient(r) && (input.Some? ==> r.item.inputIndex == input.value)
  }

  function IsWithin(input: Option<nat>): Record -> bool {
    (r: Record) => Within(r, input)
  }

  function IsAccepted(input: Option<nat>): Record -> bool {
    (r: Record) => Within(r, input) && r.accepted == Some(true)
  }

  function IsTransport(): Record -> bool {
    (r: Record) => IsTransient(r)
  }

  /** Everything a row is blamed for, with repetitions. */
  function Tags(r: Record): seq<string> {
    r.contractErrors + r.extraErrors + if r.errorType != "" then [r.errorType] else []
  }

  function Is(tag: string): string -> bool {
    (s: string) => s == tag
  }

  /** How often the rows are blamed for this tag. */
  function Failures(rows: seq<Record>, input: Option<nat>, tag: string): nat {
    if rows == [] then 0
    else
      var last := rows[|rows| - 1];
      Failures(rows[..|rows| - 1], input, tag) + if Within(last, input) then Count(Tags(last), Is(tag)) else 0
  }

  function Get(m: map<string, nat>, tag: string): nat {
    if tag in m then m[tag] else 0
  }

  predicate BucketTallies(rows: seq<Record>, input: nat, b: Bucket) {
    && b.runs == Count(rows, IsWithin(Some(input)))
    && b.accepted == Count(rows, IsAccepted(Some(input)))
  }

  ghost predicate FailuresTally(rows: seq<Record>, input: Option<nat>, m: map<string, nat>) {
    forall tag: string :: Get(m, tag) == Failures(rows, input, tag)
  }

  const NO_RUNS := Bucket("", 0, 0, map[])

  function BucketOf(byCase: map<nat, Bucket>, input: nat): Bucket {
    if input in byCase then byCase[input] else NO_RUNS
  }

  ghost predicate CasesTally(rows: seq<Record>, byCase: map<nat, Bucket>) {
    forall input: nat ::
      BucketTallies(rows, input, BucketOf(byCase, input)) && FailuresTally(rows, Some(input), BucketOf(byCase, input).failures)
  }

  ghost predicate Tallies(rows: seq<Record>, report: Report) {
    && report.completedRuns == |rows|
    && report.validRuns == Count(rows, IsWithin(None))
    && report.transportRuns == Count(rows, IsTransport())
    && report.acceptedRuns == Count(rows, IsAccepted(None))
    && FailuresTally(rows, None, report.failureCounts)
    && CasesTally(rows, report.byCase)
  }

  method AddTags(m: map<string, nat>, tags: seq<string>) returns (r: map<string, nat>)
    ensures forall tag :: Get(r, tag) == Get(m, tag) + Count(tags, Is(tag))
  {
    r := m;
    for i := 0 to |tags|
      invariant forall tag :: Get(r, tag) == Get(m, tag) + Count(tags[..i], Is(tag))
    {
      forall tag ensures Count(tags[..i + 1], Is(tag)) == Count(tags[..i], Is(tag)) + if tags[i] == tag then 1 else 0 {
        CountOneMore(tags[..i], tags[i], Is(tag));
        assert tags[..i + 1] == tags[..i] + [tags[i]];
      }
      r := r[tags[i] := Get(r, tags[i]) + 1];
    }
    assert tags[..|tags|] == tags;
  }

  lemma OneMoreRow(rows: seq<Record>, i: nat, input: Option<nat>)
    requires i < |rows|
    ensures var w := Within(rows[i], input);
      && Count(rows[..i + 1], IsWithin(input)) == Count(rows[..i], IsWithin(input)) + (if w then 1 else 0)
      && Count(rows[..i + 1], IsAccepted(input)) == Count(rows[..i], IsAccepted(input)) + (if w && rows[i].accepted == Some(true) then 1 else 0)
      && (forall tag :: Failures(rows[..i + 1], input, tag) == Failures(rows[..i], input, tag) + if w then Count(Tags(rows[i]), Is(tag)) else 0)
  {
    assert rows[..i + 1][..i] == rows[..i];
  }

  ghost predicate LabelsFrom(rows: seq<Record>, byCase: map<nat, Bucket>) {
    forall input :: input in byCase ==> LabelFrom(rows, input, byCase[input].caseLabel)
  }

  /** The label of a case is that of its first row. */
  ghost predicate LabelFrom(rows: seq<Record>, input: nat, caseLabel: string) {
    exists i: nat :: FirstOfCase(rows, input, i) && rows[i].item.caseLabel == caseLabel
  }

  ghost predicate FirstOfCase(rows: seq<Record>, input: nat, i: nat) {
    i < |rows| && Within(rows[i], Some(input)) && forall h: nat :: h < i ==> !Within(rows[h], Some(input))
  }

  lemma LabelsStay(rows: seq<Record>, i: nat, byCase: map<nat, Bucket>)
    requires i < |rows| && LabelsFrom(rows[..i], byCase)
    ensures LabelsFrom(rows[..i + 1], byCase)
  {
    forall input | input in byCase ensures LabelFrom(rows[..i + 1], input, byCase[input].caseLabel) {
      var h: nat :| FirstOfCase(rows[..i], input, h) && rows[..i][h].item.caseLabel == byCase[input].caseLabel;
      assert FirstOfCase(rows[..i + 1], input, h);
    }
  }

  /** A case has a bucket as soon as it has a row. */
  lemma NoRowYet(rows: seq<Record>, byCase: map<nat, Bucket>, input: nat)
    requires CasesTally(rows, byCase) && input !in byCase
    ensures forall h: nat :: h < |rows| ==> !Within(rows[h], Some(input))
  {
    assert BucketTallies(rows, input, BucketOf(byCase, input));
    forall h: nat | h < |rows| ensures !Within(rows[h], Some(input)) {
      if Within(rows[h], Some(input)) { CountedSome(rows, IsWithin(Some(input)), h); }
    }
  }

  lemma {:induction false} CountedSome(rows: seq<Record>, p: Record -> bool, h: nat)
    requires h < |rows| && p(rows[h])
    ensures Count(rows, p) > 0
  {
    if h < |rows| - 1 { CountedSome(rows[..|rows| - 1], p, h); }
  }

  /** The bucket of a case with one more row. */
  method AddRow(b: Bucket, row: Record) returns (r: Bucket)
    ensures r.caseLabel == b.caseLabel && r.runs == b.runs + 1
    ensures r.accepted == b.accepted + if row.accepted == Some(true) then 1 else 0
    ensures forall tag :: Get(r.failures, tag) == Get(b.failures, tag) + Count(Tags(row), Is(tag))
  {
    var failures := AddTags(b.failures, Tags(row));
    r := Bucket(b.caseLabel, b.runs + 1, b.accepted + (if row.accepted == Some(true) then 1 else 0), failures);
  }

  lemma CasesStep(rows: seq<Record>, i: nat, byCase: map<nat, Bucket>, bucket: Bucket)
    requires i < |rows| && CasesTally(rows[..i], byCase) && !IsTransient(rows[i])
    requires var b := BucketOf(byCase, rows[i].item.inputIndex);
      && bucket.runs == b.runs + 1
      && bucket.accepted == b.accepted + (if rows[i].accepted == Some(true) then 1 else 0)
      && forall tag :: Get(bucket.failures, tag) == Get(b.failures, tag) + Count(Tags(rows[i]), Is(tag))
    ensures CasesTally(rows[..i + 1], byCase[rows[i].item.inputIndex := bucket])
  {
    var after := byCase[rows[i].item.inputIndex := bucket];
    forall input: nat
      ensures BucketTallies(rows[..i + 1], input, BucketOf(after, input))
      ensures FailuresTally(rows[..i + 1], Some(input), BucketOf(after, input).failures)
    {
      OneMoreRow(rows, i, Some(input));
      var before := BucketOf(byCase, input);
      assert BucketTallies(rows[..i], input, before) && FailuresTally(rows[..i], Some(input), before.failures);
    }
  }

  lemma TransportStep(rows: seq<Record>, i: nat, byCase: map<nat, Bucket>)
    requires i < |rows| && CasesTally(rows[..i], byCase) && IsTransient(rows[i])
    ensures CasesTally(rows[..i + 1], byCase)
  {
    forall input: nat
      ensures BucketTallies(rows[..i + 1], input, BucketOf(byCase, input))
      ensures FailuresTally(rows[..i + 1], Some(input), BucketOf(byCase, input).failures)
    {
      OneMoreRow(rows, i, Some(input));
      var before := BucketOf(byCase, input);
      assert BucketTallies(rows[..i], input, before) && FailuresTally(rows[..i], Some(input), before.failures);
    }
  }

  /** The per-case counters. */
  method TallyCases(rows: seq<Record>) returns (byCase: map<nat, Bucket>)
    ensures CasesTally(rows, byCase) && LabelsFrom(rows, byCase)
  {
    byCase := map[];
    for i := 0 to |rows|
      invariant CasesTally(rows[..i], byCase) && LabelsFrom(rows[..i], byCase)
    {
      var row := rows[i];
      LabelsStay(rows, i, byCase);
      if IsTransient(row) {
        TransportStep(rows, i, byCase);
      } else {
        var key := row.item.inputIndex;
        var bucket := if key in byCase then byCase[key] else Bucket(row.item.caseLabel, 0, 0, map[]);
        bucket := AddRow(bucket, row);
        CasesStep(rows, i, byCase, bucket);
        assert LabelFrom(rows[..i + 1], key, bucket.caseLabel) by {
          if key !in byCase {
            NoRowYet(rows[..i], byCase, key);
            assert FirstOfCase(rows[..i + 1], key, i);
          }
        }
        byCase := byCase[key := bucket];
      }
    }
    assert rows[..|rows|] == rows;
  }

  method Aggregate(rows: seq<Record>) returns (report: Report)
    ensures Tallies(rows, report)
    ensures report.validRuns + report.transportRuns == report.completedRuns
  {
    var byCase := TallyCases(rows);
    var failures: map<string, nat> := map[];
    var valid, transport, accepted := 0, 0, 0;
    for i := 0 to |rows|
      invariant valid == Count(rows[..i], IsWithin(None)) && transport == Count(rows[..i], IsTransport())
      invariant accepted == Count(rows[..i], IsAccepted(None)) && valid + transport == i
      invariant FailuresTally(rows[..i], None, failures)
    {
      OneMoreRow(rows, i, None);
      assert rows[..i + 1] == rows[..i] + [rows[i]];
      CountOneMore(rows[..i], rows[i], IsTransport());
      if IsTransient(rows[i]) {
        transport := transport + 1;
      } else {
        valid := valid + 1;
        accepted := accepted + if rows[i].accepted == Some(true) then 1 else 0;
        failures := AddTags(failures, Tags(rows[i]));
      }
    }
    assert rows[..|rows|] == rows;
    report := Report(|rows|, valid, transport, accepted, failures, byCase);
  }

  // ----- the cases sum to the whole -----

  function SumTo(k: nat, f: nat -> nat): nat {
    if k == 0 then 0 else SumTo(k - 1, f) + f(k)
  }

  lemma {:induction false} SumToPoint(k: nat, f: nat -> nat, g: nat -> nat, at: nat, v: nat)
    requires forall c: nat :: 1 <= c <= k ==> g(c) == f(c) + if c == at then v else 0
    ensures SumTo(k, g) == SumTo(k, f) + if 1 <= at <= k then v else 0
  {
    if k > 0 { SumToPoint(k - 1, f, g, at, v); }
  }

  lemma {:induction false} SumToSame(k: nat, f: nat -> nat, g: nat -> nat)
    requires forall c: nat :: 1 <= c <= k ==> g(c) == f(c)
    ensures SumTo(k, g) == SumTo(k, f)
  {
    if k > 0 { SumToSame(k - 1, f, g); }
  }

  lemma {:induction false} SumToZero(k: nat, f: nat -> nat)
    requires forall c: nat :: 1 <= c <= k ==> f(c) == 0
    ensures SumTo(k, f) == 0
  {
    if k > 0 { SumToZero(k - 1, f); }
  }

  ghost predicate InputsUpTo(rows: seq<Record>, k: nat) {
    forall i :: 0 <= i < |rows| ==> 1 <= rows[i].item.inputIndex <= k
  }

  lemma {:induction false} CountsSum(rows: seq<Record>, k: nat)
    requires InputsUpTo(rows, k)
    ensures SumTo(k, (c: nat) => Count(rows, IsWithin(Some(c)))) == Count(rows, IsWithin(None))
    ensures SumTo(k, (c: nat) => Count(rows, IsAccepted(Some(c)))) == Count(rows, IsAccepted(None))
  {
    var runs, accepted := (c: nat) => Count(rows, IsWithin(Some(c))), (c: nat) => Count(rows, IsAccepted(Some(c)));
    if rows == [] {
      SumToZero(k, runs);
      SumToZero(k, accepted);
    } else {
      var last := |rows| - 1;
      var row, rest := rows[last], rows[..last];
      CountsSum(rest, k);
      var w := if IsTransient(row) then 0 else 1;
      var a := if !IsTransient(row) && row.accepted == Some(true) then 1 else 0;
      SumToPoint(k, (c: nat) => Count(rest, IsWithin(Some(c))), runs, row.item.inputIndex, w);
      SumToPoint(k, (c: nat) => Count(rest, IsAccepted(Some(c))), accepted, row.item.inputIndex, a);
    }
  }

  lemma {:induction false} FailuresSum(rows: seq<Record>, k: nat, tag: string)
    requires InputsUpTo(rows, k)
    ensures SumTo(k, (c: nat) => Failures(rows, Some(c), tag)) == Failures(rows, None, tag)
  {
    var failures := (c: nat) => Failures(rows, Some(c), tag);
    if rows == [] {
      SumToZero(k, failures);
    } else {
      var last := |rows| - 1;
      var row, rest := rows[last], rows[..last];
      FailuresSum(rest, k, tag);
      var v := if IsTransient(row) then 0 else Count(Tags(row), Is(tag));
      SumToPoint(k, (c: nat) => Failures(rest, Some(c), tag), failures, row.item.inputIndex, v);
    }
  }

  /** The per-case runs, acceptances and failure tags of a report sum to its overall figures. */
  lemma CasesSumToOverall(rows: seq<Record>, report: Report, k: nat, tag: string)
    requires Tallies(rows, report) && InputsUpTo(rows, k)
    ensures SumTo(k, (c: nat) => BucketOf(report.byCase, c).runs) == report.validRuns
    ensures SumTo(k, (c: nat) => BucketOf(report.byCase, c).accepted) == report.acceptedRuns
    ensures SumTo(k, (c: nat) => Get(BucketOf(report.byCase, c).failures, tag)) == Get(report.failureCounts, tag)
  {
    CountsSum(rows, k);
    FailuresSum(rows, k, tag);
    var byCase := report.byCase;
    assert forall c: nat :: BucketTallies(rows, c, BucketOf(byCase, c)) && FailuresTally(rows, Some(c), BucketOf(byCase, c).failures);
    SumToSame(k, (c: nat) => Count(rows, IsWithin(Some(c))), (c: nat) => BucketOf(byCase, c).runs);
    SumToSame(k, (c: nat) => Count(rows, IsAccepted(Some(c))), (c: nat) => BucketOf(byCase, c).accepted);
    SumToSame(k, (c: nat) => Failures(rows, Some(c), tag), (c: nat) => Get(BucketOf(byCase, c).failures, tag));
  }
}
