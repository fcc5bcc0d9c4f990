/** Reliability rows: which combinations the row builder accepts, and what its checks mean for the aggregate. */
module ReliabilityRows {
  import opened Wrappers
  import opened Counting

  /** The fields of a row that the checks look at. */
  datatype Row = Row(
    status: string,
    iteration: int,
    retryCount: int,
    attemptCount: int,
    reused: bool,
    fallback: bool,
    reason: Option<string>,
    runningConflict: bool,
    blocked: bool)

  const RUN_STATUSES: set<string> := {"created", "reused", "running_conflict", "fallback", "failed", "blocked"}

  /** An absent and an empty text count as no reason. */
  predicate HasReason(row: Row) {
    row.reason.Some? && row.reason.value != ""
  }

  /** The row builder: the first check that fails raises. */
  function MakeRow(row: Row): Result<Row, string> {
    if row.status !in RUN_STATUSES then Err("unsupported run_status")
    else if row.iteration < 1 then Err("iteration must be >= 1")
    else if row.retryCount < 0 then Err("retry_count must be >= 0")
    else if row.attemptCount < 0 then Err("attempt_count must be >= 0")
    else if row.reused && row.status != "reused" then Err("reused rows must use run_status='reused'")
    else if row.fallback && row.status != "fallback" then Err("fallback rows must use run_status='fallback'")
    else if row.fallback != HasReason(row) then Err("fallback and fallback_reason must be reported together")
    else if row.runningConflict && row.status != "running_conflict" then Err("running_conflict rows must use matching run_status")
    else if row.blocked && row.status != "blocked" then Err("blocked side effects must use run_status='blocked'")
    else Ok(row)
  }

  /** The nine checks in their order. */
  ghost predicate Meets(row: Row, check: nat) {
    var s := row.status;
    match check
    case 0 => s == "created" || s == "reused" || s == "running_conflict" || s == "fallback" || s == "failed" || s == "blocked"
    case 1 => row.iteration >= 1
    case 2 => row.retryCount >= 0
    case 3 => row.attemptCount >= 0
    case 4 => !row.reused || s == "reused"
    case 5 => !row.fallback || s == "fallback"
    case 6 => row.fallback <==> row.reason.Some? && |row.reason.value| > 0
    case 7 => !row.runningConflict || s == "running_conflict"
    case _ => !row.blocked || s == "blocked"
  }

  const COMPLAINTS: seq<string> := [
    "unsupported run_status", "iteration must be >= 1", "retry_count must be >= 0", "attempt_count must be >= 0",
    "reused rows must use run_status='reused'", "fallback rows must use run_status='fallback'",
    "fallback and fallback_reason must be reported together", "running_conflict rows must use matching run_status",
    "blocked side effects must use run_status='blocked'"]

  /** The first check that a row fails raises its complaint. */
  lemma FirstFailureRaises(row: Row, check: nat)
    requires check < 9 && !Meets(row, check) && forall earlier: nat :: earlier < check ==> Meets(row, earlier)
    ensures MakeRow(row) == Err(COMPLAINTS[check])
  {
    assert check > 0 ==> Meets(row, 0);
    assert check > 1 ==> Meets(row, 1);
    assert check > 2 ==> Meets(row, 2);
    assert check > 3 ==> Meets(row, 3);
    assert check > 4 ==> Meets(row, 4);
    assert check > 5 ==> Meets(row, 5);
    assert check > 6 ==> Meets(row, 6);
    assert check > 7 ==> Meets(row, 7);
  }

  /** A row that meets every check is accepted as it is, and then sets at most one flag. */
  lemma AcceptedIfAllMet(row: Row)
    requires forall check: nat :: check < 9 ==> Meets(row, check)
    ensures MakeRow(row) == Ok(row)
    ensures (if row.reused then 1 else 0) + (if row.fallback then 1 else 0)
      + (if row.runningConflict then 1 else 0) + (if row.blocked then 1 else 0) <= 1
  {
    assert Meets(row, 0) && Meets(row, 1) && Meets(row, 2) && Meets(row, 3) && Meets(row, 4);
    assert Meets(row, 5) && Meets(row, 6) && Meets(row, 7) && Meets(row, 8);
  }

  /** A row is accepted exactly when it meets every check. */
  lemma {:induction false} AcceptedExactly(row: Row)
    ensures MakeRow(row).Ok? <==> forall check: nat :: check < 9 ==> Meets(row, check)
  {
    if forall check: nat :: check < 9 ==> Meets(row, check) {
      AcceptedIfAllMet(row);
    } else {
      var check := 0;
      while Meets(row, check)
        invariant check < 9 && forall earlier: nat :: earlier < check ==> Meets(row, earlier)
        decreases 9 - check
      {
        check := check + 1;
      }
      FirstFailureRaises(row, check);
    }
  }

  // ----- rows made from a summary -----

  /** What the service says about the summary it delivered. */
  datatype Materialization = Materialization(status: string, reused: bool, reason: Option<string>)

  /** The caller's row, with the run status and the reuse flag given or derived. */
  function SummaryRow(m: Materialization, status: Option<string>, reused: Option<bool>): Row {
    var run :=
      if status.Some? && status.value != "" then status.value
      else if m.status == "fallback" then "fallback"
      else if m.reused then "reused"
      else "created";
    Row(run, 1, 0, 1, if reused.None? then m.reused else reused.value, run == "fallback",
        if run == "fallback" then m.reason else None, false, false)
  }

  /** Which summaries make an accepted row, for every status and reuse flag that is given or left open: a given status
      must be known, only a reuse may be flagged as one, and a fallback needs a reason. */
  lemma SummaryRowAccepted(m: Materialization, status: Option<string>, reused: Option<bool>)
    ensures var flagged := if reused.Some? then reused.value else m.reused;
      var explained := m.reason.Some? && m.reason.value != "";
      MakeRow(SummaryRow(m, status, reused)).Ok? <==>
        if status.Some? && status.value != "" then
          status.value in RUN_STATUSES && (flagged ==> status.value == "reused") && (status.value == "fallback" ==> explained)
        else if m.status == "fallback" then !flagged && explained
        else flagged ==> m.reused
  {
    assert "fallback" in RUN_STATUSES && "reused" in RUN_STATUSES && "created" in RUN_STATUSES;
  }

  /** What is said of the summary in its row: a given status wins, then the fallback, then the reuse; only a row with the
      fallback status is flagged as one and gives the reason. */
  lemma SummaryRowIsTold(m: Materialization, status: Option<string>, reused: Option<bool>)
    ensures var row := SummaryRow(m, status, reused);
      && (forall s :: status == Some(s) && |s| > 0 ==> row.status == s)
      && (status == None || status == Some("") ==>
            && (row.status == "fallback" <==> m.status == "fallback")
            && (row.status == "reused" <==> m.status != "fallback" && m.reused)
            && (row.status == "created" <==> m.status != "fallback" && !m.reused))
      && (forall flag :: reused == Some(flag) ==> row.reused == flag) && (reused == None ==> row.reused == m.reused)
      && (row.fallback <==> row.status == "fallback") && row.reason == (if row.status == "fallback" then m.reason else None)
      && row.iteration == 1 && row.attemptCount == 1 && row.retryCount == 0 && !row.runningConflict && !row.blocked
  {
  }

  // ----- the aggregate -----

  function WithStatus(status: string): Row -> bool {
    (row: Row) => row.status == status
  }

  function IsReused(): Row -> bool {
    (row: Row) => row.reused
  }

  function IsFallback(): Row -> bool {
    (row: Row) => row.fallback
  }

  function IsConflict(): Row -> bool {
    (row: Row) => row.runningConflict
  }

  function IsBlocked(): Row -> bool {
    (row: Row) => row.blocked
  }

  /** A status that stands for a flag which the row does not set: accepted, but in none of the six counters. */
  predicate LacksFlag(row: Row) {
    || (row.status == "reused" && !row.reused)
    || (row.status == "fallback" && !row.fallback)
    || (row.status == "running_conflict" && !row.runningConflict)
    || (row.status == "blocked" && !row.blocked)
  }

  function Unflagged(): Row -> bool {
    (row: Row) => LacksFlag(row)
  }

  /** The six counters of the aggregate. */
  function Counters(rows: seq<Row>): nat {
    Count(rows, WithStatus("created")) + Count(rows, WithStatus("failed")) + Count(rows, IsReused())
    + Count(rows, IsFallback()) + Count(rows, IsConflict()) + Count(rows, IsBlocked())
  }

  /** The reasons of the fallback rows, each as often as it occurs. */
  function Reasons(rows: seq<Row>): multiset<string> {
    if rows == [] then multiset{}
    else
      var row := rows[|rows| - 1];
      Reasons(rows[..|rows| - 1]) + if row.fallback && HasReason(row) then multiset{row.reason.value} else multiset{}
  }

  /** The row fell back and gives this reason. */
  function FellBackFor(text: string): Row -> bool {
    (row: Row) => row.fallback && row.reason == Some(text)
  }

  /** Each reason, the empty one apart, is counted once for every fallback row that gives it. */
  lemma {:induction false} ReasonsAreCounted(rows: seq<Row>, text: string)
    ensures Reasons(rows)[text] == if text == "" then 0 else Count(rows, FellBackFor(text))
  {
    if rows != [] { ReasonsAreCounted(rows[..|rows| - 1], text); }
  }

  ghost predicate Accepted(rows: seq<Row>) {
    forall i :: 0 <= i < |rows| ==> MakeRow(rows[i]).Ok?
  }

  /** An accepted row is counted once, or not at all if it lacks its flag. */
  lemma CountedOnce(row: Row)
    requires MakeRow(row).Ok?
    ensures (if row.status == "created" then 1 else 0) + (if row.status == "failed" then 1 else 0) + (if row.reused then 1 else 0)
      + (if row.fallback then 1 else 0) + (if row.runningConflict then 1 else 0) + (if row.blocked then 1 else 0)
      == if LacksFlag(row) then 0 else 1
  {
    assert row.status in RUN_STATUSES;
  }

  /** For any list of accepted rows the reasons add up to the fallbacks, and the six counters to the rows except those
      that lack the flag of their status. */
  lemma {:induction false} AggregateAddsUp(rows: seq<Row>)
    requires Accepted(rows)
    ensures |Reasons(rows)| == Count(rows, IsFallback())
    ensures Counters(rows) + Count(rows, Unflagged()) == |rows|
  {
    if rows != [] {
      var last := |rows| - 1;
      AggregateAddsUp(rows[..last]);
      CountedOnce(rows[last]);
    }
  }
}
