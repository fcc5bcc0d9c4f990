/** What the decision procedure is told, and what the log says about starts and outcomes: all of it by the calendar and the
    log alone. */
module SchedulerDecisions {
  import opened Wrappers
  import opened Counting
  import opened GenerationPolicy
  import opened Scheduler
  import opened SchedulerLog
  import opened SchedulerSummary
  import opened SchedulerQueries

  /** The fingerprint that was current before the latest change at or before `u`. */
  function PreviousAt(changes: map<int, Change>, u: nat): Option<Key> {
    if u in changes then
      if u == 0 then None
      else
        var before := CurrentAt(changes, u - 1);
        if before.Some? then Some(before.value.key) else None
    else if u == 0 then None
    else PreviousAt(changes, u - 1)
  }

  /** The calendar entry that a job which ends at `time` was started for. */
  function StartedFor(cfg: Config, time: int): Option<Change> {
    if time - cfg.latency >= 0 then CurrentAt(cfg.changes, time - cfg.latency) else None
  }

  /** The entry of the last job completed at or before `time`. */
  ghost function LastCompleted(cfg: Config, rows: seq<Row>, time: int): Option<Change> {
    if rows == [] then None
    else
      var r := rows[|rows| - 1];
      if r.Ended? && r.outcome == Completed && r.time <= time then StartedFor(cfg, r.time)
      else LastCompleted(cfg, rows[..|rows| - 1], time)
  }

  /** Did a job for the key fail at or before `time`? */
  ghost predicate FailedBy(rows: seq<Row>, k: Key, time: int) {
    exists i :: 0 <= i < |rows| && rows[i].Ended? && rows[i].outcome == Failure && rows[i].key == k && rows[i].time <= time
  }

  /** The inquiry of a source at a time, by the calendar and the log. */
  ghost function InquiryAt(cfg: Config, rows: seq<Row>, time: nat, source: Source): Inquiry
    requires CurrentAt(cfg.changes, time).Some?
  {
    var c := CurrentAt(cfg.changes, time).value;
    Inquiry(c, PreviousAt(cfg.changes, time), CompletedBy(rows, c.key, time), source == Refresh, LastCompleted(cfg, rows, time))
  }

  /** The decision is about the entry current at its time, and was made on what calendar and log say. */
  ghost predicate Told(cfg: Config, rows: seq<Row>, d: DecisionRow)
    requires cfg.watcherPeriod >= 1
  {
    && d.time >= 0 && Active(cfg, d.source, d.time)
    && var c := CurrentAt(cfg.changes, d.time);
    && c.Some? && d.step == c.value.step && d.key == c.value.key
    && d.trace == cfg.decide(InquiryAt(cfg, rows, d.time, d.source))
  }

  ghost predicate AllTold(cfg: Config, rows: seq<Row>, decisions: seq<DecisionRow>)
    requires cfg.watcherPeriod >= 1
  {
    forall d :: d in decisions ==> Told(cfg, rows, d)
  }

  /** A start names the entry that is current at its time; it is a retry if the watcher makes it after a failure. */
  ghost predicate StartTold(cfg: Config, rows: seq<Row>, r: Row) {
    r.Started? ==>
      && r.time >= 0
      && var c := CurrentAt(cfg.changes, r.time);
      && c.Some? && r.step == c.value.step && r.key == c.value.key
      && (r.retry <==> r.source == Watcher && FailedBy(rows, r.key, r.time))
  }

  /** An outcome is that of a job started one latency earlier; it fails exactly if it is a first attempt at a step that
      fails first. */
  ghost predicate EndTold(cfg: Config, r: Row) {
    r.Ended? ==>
      && var c := StartedFor(cfg, r.time);
      && c.Some? && r.key == c.value.key
      && (r.outcome == Failure <==> r.attempt == 1 && c.value.step in cfg.failFirst)
  }

  ghost predicate RowsTold(cfg: Config, rows: seq<Row>) {
    forall i :: 0 <= i < |rows| ==> StartTold(cfg, rows, rows[i]) && EndTold(cfg, rows[i])
  }

  // ----- the state behind the log -----

  /** A job carries the entry it was started for, and fails if it is a first attempt at a step that fails first. */
  ghost predicate JobTold(cfg: Config, j: Job) {
    && StartedFor(cfg, j.due) == Some(j.change) && j.key == j.change.key
    && (j.fail <==> j.attempt == 1 && j.change.step in cfg.failFirst)
  }

  ghost predicate JobsTold(cfg: Config, running: seq<Job>) {
    forall j :: j in running ==> JobTold(cfg, j)
  }

  /** The keys with a backoff are those that have failed. */
  ghost predicate RetriesTold(rows: seq<Row>, retryAfter: map<Key, int>, now: int) {
    forall k :: k in retryAfter <==> FailedBy(rows, k, now)
  }

  ghost predicate RowsBy(rows: seq<Row>, now: int) {
    forall i :: 0 <= i < |rows| ==> rows[i].time <= now
  }

  ghost predicate DecisionsBy(decisions: seq<DecisionRow>, now: int) {
    forall d :: d in decisions ==> d.time <= now
  }

  /** The state at `now`, after the change of that tick. */
  ghost predicate ToldInv(cfg: Config, st: State, now: nat)
    requires cfg.watcherPeriod >= 1
  {
    && st.current == CurrentAt(cfg.changes, now) && st.previous == PreviousAt(cfg.changes, now)
    && st.baseline == LastCompleted(cfg, st.rows, now)
    && RetriesTold(st.rows, st.retryAfter, now) && JobsTold(cfg, st.running)
    && RowsBy(st.rows, now) && DecisionsBy(st.decisions, now)
    && AllTold(cfg, st.rows, st.decisions) && RowsTold(cfg, st.rows)
  }

  /** A row that leaves every earlier answer as it is. */
  ghost predicate Later(r: Row, time: int) {
    r.time > time || !r.Ended?
  }

  lemma AnswersStay(cfg: Config, rows: seq<Row>, r: Row, k: Key, time: int)
    requires Later(r, time)
    ensures CompletedBy(rows + [r], k, time) <==> CompletedBy(rows, k, time)
    ensures LastCompleted(cfg, rows + [r], time) == LastCompleted(cfg, rows, time)
    ensures FailedBy(rows + [r], k, time) <==> FailedBy(rows, k, time)
  {
    assert (rows + [r])[..|rows|] == rows;
    if i :| 0 <= i < |rows| && rows[i].Ended? && rows[i].outcome == Failure && rows[i].key == k && rows[i].time <= time {
      assert (rows + [r])[i] == rows[i];
    }
  }

  lemma FailedGrows(rows: seq<Row>, r: Row, k: Key, time: int)
    ensures FailedBy(rows + [r], k, time) <==>
      FailedBy(rows, k, time) || (r.Ended? && r.outcome == Failure && r.key == k && r.time <= time)
  {
    var all := rows + [r];
    assert all[|rows|] == r;
    if i :| 0 <= i < |rows| && rows[i].Ended? && rows[i].outcome == Failure && rows[i].key == k && rows[i].time <= time {
      assert all[i] == rows[i];
    }
  }

  lemma ToldStays(cfg: Config, rows: seq<Row>, r: Row, d: DecisionRow)
    requires cfg.watcherPeriod >= 1 && Told(cfg, rows, d) && Later(r, d.time)
    ensures Told(cfg, rows + [r], d)
  {
    AnswersStay(cfg, rows, r, d.key, d.time);
  }

  lemma AllToldStays(cfg: Config, rows: seq<Row>, r: Row, decisions: seq<DecisionRow>)
    requires cfg.watcherPeriod >= 1 && AllTold(cfg, rows, decisions) && forall d :: d in decisions ==> Later(r, d.time)
    ensures AllTold(cfg, rows + [r], decisions)
  {
    forall d | d in decisions ensures Told(cfg, rows + [r], d) { ToldStays(cfg, rows, r, d); }
  }

  /** One more row, later than the starts before it or no outcome. */
  lemma RowsToldGrow(cfg: Config, rows: seq<Row>, r: Row)
    requires RowsTold(cfg, rows) && EndTold(cfg, r) && StartTold(cfg, rows + [r], r)
    requires forall i :: 0 <= i < |rows| && rows[i].Started? ==> Later(r, rows[i].time)
    ensures RowsTold(cfg, rows + [r])
  {
    var all := rows + [r];
    forall i | 0 <= i < |all| ensures StartTold(cfg, all, all[i]) && EndTold(cfg, all[i]) {
      if i < |rows| {
        assert all[i] == rows[i];
        if rows[i].Started? { AnswersStay(cfg, rows, r, rows[i].key, rows[i].time); }
      }
    }
  }

  // ----- one tick -----

  /** The state before tick `n`. */
  ghost predicate Before(cfg: Config, st: State, n: nat)
    requires cfg.watcherPeriod >= 1
  {
    && st.current == (if n == 0 then None else CurrentAt(cfg.changes, n - 1))
    && st.previous == (if n == 0 then None else PreviousAt(cfg.changes, n - 1))
    && st.baseline == LastCompleted(cfg, st.rows, n)
    && RetriesTold(st.rows, st.retryAfter, n) && JobsTold(cfg, st.running)
    && Unasked(st, n) && RowsBy(st.rows, n - 1)
    && AllTold(cfg, st.rows, st.decisions) && RowsTold(cfg, st.rows)
  }

  /** Nothing has been asked or started at `now` yet. */
  ghost predicate Unasked(st: State, now: int) {
    && (forall d :: d in st.decisions ==> d.time < now)
    && (forall i :: 0 <= i < |st.rows| && st.rows[i].Started? ==> st.rows[i].time < now)
  }

  lemma ChangeTold(cfg: Config, st: State, now: nat)
    requires cfg.watcherPeriod >= 1 && Before(cfg, st, now)
    ensures var next := ApplyChange(cfg, st, now); ToldInv(cfg, next, now) && Unasked(next, now)
  {
    if now in cfg.changes {
      var c, next := cfg.changes[now], ApplyChange(cfg, st, now);
      var r := Changed(now, c.step, c.key);
      assert RetriesTold(next.rows, next.retryAfter, now) by {
        forall k ensures FailedBy(st.rows + [r], k, now) <==> FailedBy(st.rows, k, now) { AnswersStay(cfg, st.rows, r, k, now); }
      }
      assert next.baseline == LastCompleted(cfg, next.rows, now) by { AnswersStay(cfg, st.rows, r, c.key, now); }
      assert AllTold(cfg, next.rows, next.decisions) by { AllToldStays(cfg, st.rows, r, st.decisions); }
      assert RowsTold(cfg, next.rows) by { RowsToldGrow(cfg, st.rows, r); }
      OneMoreBy(st.rows, r, now);
      assert Unasked(next, now);
    }
  }

  lemma OneMoreBy(rows: seq<Row>, r: Row, now: int)
    requires RowsBy(rows, now) && r.time <= now
    ensures RowsBy(rows + [r], now)
  {
  }

  /** The backoff that a completion starts. */
  lemma RetriesGrow(rows: seq<Row>, r: Row, retryAfter: map<Key, int>, now: int, until: int)
    requires RetriesTold(rows, retryAfter, now) && r.Ended? && r.time == now
    ensures RetriesTold(rows + [r], if r.outcome == Failure then retryAfter[r.key := until] else retryAfter, now)
  {
    forall k ensures FailedBy(rows + [r], k, now) <==> FailedBy(rows, k, now) || (r.outcome == Failure && r.key == k) {
      FailedGrows(rows, r, k, now);
    }
  }

  lemma LastGrows(cfg: Config, rows: seq<Row>, r: Row, now: int)
    ensures LastCompleted(cfg, rows + [r], now)
         == if r.Ended? && r.outcome == Completed && r.time <= now then StartedFor(cfg, r.time) else LastCompleted(cfg, rows, now)
  {
    assert (rows + [r])[..|rows|] == rows;
  }

  lemma FinishTold(cfg: Config, st: State, job: Job, now: nat)
    requires cfg.watcherPeriod >= 1 && ToldInv(cfg, st, now) && Unasked(st, now) && JobTold(cfg, job) && job.due == now
    ensures var next := Finish(cfg, st, job, now); ToldInv(cfg, next, now) && Unasked(next, now)
  {
    var r, next := Ended(now, OutcomeOf(st, job), job.key, job.attempt), Finish(cfg, st, job, now);
    assert next.rows == st.rows + [r];
    assert RetriesTold(next.rows, next.retryAfter, now) by { RetriesGrow(st.rows, r, st.retryAfter, now, now + cfg.backoff); }
    assert next.baseline == LastCompleted(cfg, next.rows, now) by { LastGrows(cfg, st.rows, r, now); }
    assert AllTold(cfg, next.rows, next.decisions) by { AllToldStays(cfg, st.rows, r, st.decisions); }
    assert RowsTold(cfg, next.rows) by { RowsToldGrow(cfg, st.rows, r); }
    assert JobsTold(cfg, next.running) by { WithoutIncluded(st.running, job.key); }
    OneMoreBy(st.rows, r, now);
    assert Unasked(next, now);
  }

  lemma {:induction false} FinishDueTold(cfg: Config, st: State, todo: seq<Job>, now: nat)
    requires cfg.watcherPeriod >= 1 && ToldInv(cfg, st, now) && Unasked(st, now) && forall j :: j in todo ==> JobTold(cfg, j)
    ensures var next := FinishDue(cfg, st, todo, now); ToldInv(cfg, next, now) && Unasked(next, now)
    decreases |todo|
  {
    if todo != [] {
      assert todo[0] in todo && forall j :: j in todo[1..] ==> j in todo;
      if todo[0].due == now { FinishTold(cfg, st, todo[0], now); }
      FinishDueTold(cfg, if todo[0].due == now then Finish(cfg, st, todo[0], now) else st, todo[1..], now);
    }
  }

  /** What the state answers is what calendar and log say. */
  lemma InquiryIsTold(cfg: Config, st: State, source: Source, now: nat)
    requires cfg.watcherPeriod >= 1 && ToldInv(cfg, st, now) && LogInv(st, now) && st.current.Some?
    ensures InquiryFor(st, source) == InquiryAt(cfg, st.rows, now, source)
  {
    StoredIsLogged(st.rows, st.current.value.key, now);
  }

  lemma OneMoreTold(cfg: Config, rows: seq<Row>, decisions: seq<DecisionRow>, d: DecisionRow)
    requires cfg.watcherPeriod >= 1 && AllTold(cfg, rows, decisions) && Told(cfg, rows, d)
    ensures AllTold(cfg, rows, decisions + [d])
  {
  }

  lemma DecisionIsTold(cfg: Config, st: State, d: DecisionRow, now: nat)
    requires cfg.watcherPeriod >= 1 && ToldInv(cfg, st, now) && LogInv(st, now)
    requires st.current.Some? && Active(cfg, d.source, now) && d.time == now
    requires d.step == st.current.value.step && d.key == st.current.value.key && d.trace == cfg.decide(InquiryFor(st, d.source))
    ensures AllTold(cfg, st.rows, st.decisions + [d])
  {
    InquiryIsTold(cfg, st, d.source, now);
    OneMoreTold(cfg, st.rows, st.decisions, d);
  }

  /** A decision more, and perhaps a cleared counter. */
  lemma AskedTold(cfg: Config, st: State, next: State, d: DecisionRow, now: nat)
    requires cfg.watcherPeriod >= 1 && ToldInv(cfg, st, now) && AllTold(cfg, st.rows, st.decisions + [d]) && d.time == now
    requires next == st.(decisions := st.decisions + [d], attempts := next.attempts)
    ensures ToldInv(cfg, next, now)
  {
  }

  /** The row of a start for the entry that is current. */
  ghost predicate StartsNow(st: State, r: Row, now: int) {
    && st.current.Some? && r.Started? && r.time == now && r.step == st.current.value.step && r.key == st.current.value.key
    && (r.retry <==> r.source == Watcher && r.key in st.retryAfter)
  }

  lemma RetriesStay(rows: seq<Row>, r: Row, retryAfter: map<Key, int>, now: int)
    requires RetriesTold(rows, retryAfter, now) && !r.Ended?
    ensures RetriesTold(rows + [r], retryAfter, now)
  {
    forall k ensures FailedBy(rows + [r], k, now) <==> FailedBy(rows, k, now) { FailedGrows(rows, r, k, now); }
  }

  lemma NewStartTold(cfg: Config, st: State, r: Row, now: nat)
    requires st.current == CurrentAt(cfg.changes, now) && RetriesTold(st.rows + [r], st.retryAfter, now) && StartsNow(st, r, now)
    ensures StartTold(cfg, st.rows + [r], r)
  {
    assert FailedBy(st.rows + [r], r.key, now) <==> r.key in st.retryAfter;
  }

  /** A start more. */
  lemma StartedTold(cfg: Config, st: State, next: State, job: Job, r: Row, now: nat)
    requires cfg.watcherPeriod >= 1 && ToldInv(cfg, st, now) && StartsNow(st, r, now) && JobTold(cfg, job)
    requires next == st.(attempts := next.attempts, running := st.running + [job], rows := st.rows + [r])
    ensures ToldInv(cfg, next, now)
  {
    RetriesStay(st.rows, r, st.retryAfter, now);
    assert next.baseline == LastCompleted(cfg, next.rows, now) by { LastGrows(cfg, st.rows, r, now); }
    assert AllTold(cfg, next.rows, next.decisions) by { AllToldStays(cfg, st.rows, r, st.decisions); }
    assert RowsTold(cfg, next.rows) by {
      NewStartTold(cfg, st, r, now);
      RowsToldGrow(cfg, st.rows, r);
    }
    assert JobsTold(cfg, next.running);
    OneMoreBy(st.rows, r, now);
  }

  lemma ConsultTold(cfg: Config, st: State, source: Source, now: nat)
    requires cfg.watcherPeriod >= 1 && ToldInv(cfg, st, now) && LogInv(st, now)
    requires st.current.Some? && Active(cfg, source, now)
    ensures ToldInv(cfg, Consult(cfg, st, source, now), now)
  {
    var c, next := st.current.value, Consult(cfg, st, source, now);
    var d := DecisionRow(now, source, c.step, c.key, cfg.decide(InquiryFor(st, source)), Generates(cfg, st, source) && Blocked(cfg, st, source, now));
    DecisionIsTold(cfg, st, d, now);
    var asked := st.(decisions := st.decisions + [d]);
    AskedTold(cfg, st, asked, d, now);
    if Generates(cfg, st, source) && !Blocked(cfg, st, source, now) {
      var job := NewJob(cfg, st, source, now);
      assert JobTold(cfg, job);
      StartedTold(cfg, asked, next, job, Started(now, source, c.step, c.key, job.attempt, source == Watcher && c.key in st.retryAfter), now);
    } else {
      AskedTold(cfg, st, next, d, now);
    }
  }

  lemma PollTold(cfg: Config, st: State, source: Source, now: nat)
    requires cfg.watcherPeriod >= 1 && ToldInv(cfg, st, now) && LogInv(st, now)
    ensures ToldInv(cfg, Poll(cfg, st, source, now), now)
  {
    if Active(cfg, source, now) && st.current.Some? { ConsultTold(cfg, st, source, now); }
  }

  /** Between two ticks nothing is completed or fails. */
  lemma {:induction false} NothingAhead(cfg: Config, rows: seq<Row>, now: int, k: Key)
    requires forall i :: 0 <= i < |rows| ==> rows[i].time <= now
    ensures LastCompleted(cfg, rows, now + 1) == LastCompleted(cfg, rows, now)
    ensures FailedBy(rows, k, now + 1) <==> FailedBy(rows, k, now)
  {
    if rows != [] {
      var front := rows[..|rows| - 1];
      NothingAhead(cfg, front, now, k);
    }
  }

  lemma TickTold(cfg: Config, st: State, now: nat)
    requires cfg.watcherPeriod >= 1 && Before(cfg, st, now) && LogInv(st, now) && Answered(st.rows, st.queries, now)
    ensures Before(cfg, Tick(cfg, st, now), now + 1)
  {
    var changed, settled := ApplyChange(cfg, st, now), Settled(cfg, st, now);
    ChangeTold(cfg, st, now);
    ChangeKeeps(cfg, st, now);
    FinishDueTold(cfg, changed, changed.running, now);
    FinishDueKeeps(cfg, changed, changed.running, now);
    PollTold(cfg, settled, Watcher, now);
    PollKeeps(cfg, settled, Watcher, now);
    var watched := Poll(cfg, settled, Watcher, now);
    PollTold(cfg, watched, Refresh, now);
    TickEnds(cfg, Poll(cfg, watched, Refresh, now), now);
  }

  lemma TickEnds(cfg: Config, st: State, now: nat)
    requires cfg.watcherPeriod >= 1 && ToldInv(cfg, st, now)
    ensures Before(cfg, Query(cfg, st, now), now + 1)
  {
    forall k ensures FailedBy(st.rows, k, now + 1) <==> FailedBy(st.rows, k, now) { NothingAhead(cfg, st.rows, now, k); }
    NothingAhead(cfg, st.rows, now, "");
  }

  // ----- whole runs -----

  ghost predicate RunIsTold(cfg: Config, n: nat)
    requires cfg.watcherPeriod >= 1
  {
    Before(cfg, After(cfg, n), n)
  }

  lemma InitialTold(cfg: Config)
    requires cfg.watcherPeriod >= 1
    ensures RunIsTold(cfg, 0)
  {
    assert INITIAL.rows == [] && INITIAL.running == [] && INITIAL.decisions == [];
  }

  lemma NextTold(cfg: Config, n: nat)
    requires cfg.watcherPeriod >= 1 && RunIsTold(cfg, n)
    ensures RunIsTold(cfg, n + 1)
  {
    var st := After(cfg, n);
    LogInvariant(cfg, n);
    LogBefore(st, n);
    TickTold(cfg, st, n);
    assert After(cfg, n + 1) == Tick(cfg, st, n);
  }

  ghost function ToldAt(cfg: Config): nat -> bool
    requires cfg.watcherPeriod >= 1
  {
    (n: nat) => RunIsTold(cfg, n)
  }

  lemma RunTold(cfg: Config, n: nat)
    requires cfg.watcherPeriod >= 1
    ensures RunIsTold(cfg, n)
  {
    InitialTold(cfg);
    forall k: nat | ToldAt(cfg)(k) ensures ToldAt(cfg)(k + 1) { NextTold(cfg, k); }
    StepByStep(ToldAt(cfg), n);
    assert ToldAt(cfg)(n);
  }

  lemma LogBefore(st: State, n: nat)
    requires LogInv(st, n - 1)
    ensures LogInv(st, n)
  {
  }

  /** Every decision is about the entry that the calendar makes current at its time, and was made by the decision
      procedure on that entry, the fingerprint before its change, whether the log holds a completion of it, whether it is a
      refresh, and the entry of the last job completed. */
  lemma DecisionsAreTold(cfg: Config, n: nat, d: DecisionRow)
    requires cfg.watcherPeriod >= 1 && d in After(cfg, n).decisions
    ensures 0 <= d.time < n && Active(cfg, d.source, d.time)
    ensures var rows, c := After(cfg, n).rows, CurrentAt(cfg.changes, d.time);
      && c.Some? && d.step == c.value.step && d.key == c.value.key
      && d.trace == cfg.decide(Inquiry(
           c.value,
           PreviousAt(cfg.changes, d.time),
           exists i :: 0 <= i < |rows| && Completes(rows[i], d.key, d.time),
           d.source == Refresh,
           LastCompleted(cfg, rows, d.time)))
  {
    RunTold(cfg, n);
    CompletedMeans(After(cfg, n).rows, d.key, d.time);
  }

  lemma RunRowsTold(cfg: Config, n: nat)
    requires cfg.watcherPeriod >= 1
    ensures RowsTold(cfg, After(cfg, n).rows)
    ensures forall i :: 0 <= i < |After(cfg, n).rows| ==> After(cfg, n).rows[i].time < n
  {
    RunTold(cfg, n);
  }

  /** Every start names the entry current at its time, and is a retry exactly if the watcher makes it after a failure. */
  lemma StartsAreTold(cfg: Config, n: nat, i: nat)
    requires cfg.watcherPeriod >= 1 && i < |After(cfg, n).rows| && After(cfg, n).rows[i].Started?
    ensures var rows := After(cfg, n).rows;
      var r := rows[i];
      && 0 <= r.time < n
      && var c := CurrentAt(cfg.changes, r.time);
      && c.Some? && r.step == c.value.step && r.key == c.value.key
      && (r.retry <==> r.source == Watcher && FailedBy(rows, r.key, r.time))
  {
    RunRowsTold(cfg, n);
    assert StartTold(cfg, After(cfg, n).rows, After(cfg, n).rows[i]);
  }

  /** Every outcome is that of a job started one latency earlier for the entry current then, and is a failure exactly for a
      first attempt at a step that fails first. */
  lemma OutcomesAreTold(cfg: Config, n: nat, rows: seq<Row>, i: nat)
    requires cfg.watcherPeriod >= 1 && rows == After(cfg, n).rows && i < |rows| && rows[i].Ended?
    ensures rows[i].time < n && rows[i].time - cfg.latency >= 0
    ensures var r, c := rows[i], CurrentAt(cfg.changes, rows[i].time - cfg.latency);
      c.Some? && r.key == c.value.key && (r.outcome == Failure <==> r.attempt == 1 && c.value.step in cfg.failFirst)
  {
    RunRowsTold(cfg, n);
    OutcomeIsTold(cfg, rows, i);
  }

  lemma OutcomeIsTold(cfg: Config, rows: seq<Row>, i: nat)
    requires RowsTold(cfg, rows) && i < |rows| && rows[i].Ended?
    ensures rows[i].time - cfg.latency >= 0
    ensures var r, c := rows[i], CurrentAt(cfg.changes, rows[i].time - cfg.latency);
      c.Some? && r.key == c.value.key && (r.outcome == Failure <==> r.attempt == 1 && c.value.step in cfg.failFirst)
  {
    assert EndTold(cfg, rows[i]);
  }

  // ----- when decisions are made -----

  /** The sources that the calendar makes ask at `u`, in order. */
  function PollsAt(cfg: Config, u: nat): seq<(int, Source)>
    requires cfg.watcherPeriod >= 1
  {
    if CurrentAt(cfg.changes, u).None? then []
    else (if u % cfg.watcherPeriod == 0 then [(u, Watcher)] else []) + (if u in cfg.refreshes then [(u, Refresh)] else [])
  }

  function Polls(cfg: Config, n: nat): seq<(int, Source)>
    requires cfg.watcherPeriod >= 1
  {
    if n == 0 then [] else Polls(cfg, n - 1) + PollsAt(cfg, n - 1)
  }

  function Asked(decisions: seq<DecisionRow>): seq<(int, Source)> {
    seq(|decisions|, i requires 0 <= i < |decisions| => (decisions[i].time, decisions[i].source))
  }

  lemma AskedOneMore(decisions: seq<DecisionRow>, d: DecisionRow)
    ensures Asked(decisions + [d]) == Asked(decisions) + [(d.time, d.source)]
  {
  }

  lemma PollAsks(cfg: Config, st: State, source: Source, now: int)
    requires cfg.watcherPeriod >= 1
    ensures var next := Poll(cfg, st, source, now);
      && next.current == st.current
      && Asked(next.decisions) == Asked(st.decisions) + if st.current.Some? && Active(cfg, source, now) then [(now, source)] else []
  {
    if Active(cfg, source, now) && st.current.Some? {
      var c := st.current.value;
      AskedOneMore(st.decisions, DecisionRow(now, source, c.step, c.key, cfg.decide(InquiryFor(st, source)),
        Generates(cfg, st, source) && Blocked(cfg, st, source, now)));
    }
  }

  lemma CurrentFollows(cfg: Config, n: nat)
    requires cfg.watcherPeriod >= 1
    ensures ApplyChange(cfg, After(cfg, n), n).current == CurrentAt(cfg.changes, n)
  {
    RunOnCalendar(cfg, n);
  }

  lemma TickAsks(cfg: Config, st: State, now: nat)
    requires cfg.watcherPeriod >= 1 && ApplyChange(cfg, st, now).current == CurrentAt(cfg.changes, now)
    ensures Asked(Tick(cfg, st, now).decisions) == Asked(st.decisions) + PollsAt(cfg, now)
  {
    var changed, settled := ApplyChange(cfg, st, now), Settled(cfg, st, now);
    FinishDueLeaves(cfg, changed, changed.running, now);
    PollAsks(cfg, settled, Watcher, now);
    PollAsks(cfg, Poll(cfg, settled, Watcher, now), Refresh, now);
  }

  ghost function FollowsAt(cfg: Config): nat -> bool
    requires cfg.watcherPeriod >= 1
  {
    (n: nat) => FollowsCalendar(cfg, n)
  }

  ghost predicate FollowsCalendar(cfg: Config, n: nat)
    requires cfg.watcherPeriod >= 1
  {
    Asked(After(cfg, n).decisions) == Polls(cfg, n)
  }

  lemma NextFollows(cfg: Config, n: nat)
    requires cfg.watcherPeriod >= 1 && FollowsCalendar(cfg, n)
    ensures FollowsCalendar(cfg, n + 1)
  {
    CurrentFollows(cfg, n);
    TickAsks(cfg, After(cfg, n), n);
    assert After(cfg, n + 1) == Tick(cfg, After(cfg, n), n);
  }

  /** The decisions of a run are made exactly at the times and by the sources of the calendar, in that order. */
  lemma DecisionsFollowCalendar(cfg: Config, n: nat)
    requires cfg.watcherPeriod >= 1
    ensures Asked(After(cfg, n).decisions) == Polls(cfg, n)
  {
    assert FollowsCalendar(cfg, 0);
    forall k: nat | FollowsAt(cfg)(k) ensures FollowsAt(cfg)(k + 1) { NextFollows(cfg, k); }
    StepByStep(FollowsAt(cfg), n);
    assert FollowsAt(cfg)(n);
  }

  // ----- the real decision procedure -----

  /** No watcher start in the log is for a key completed before it. */
  ghost predicate NoRepeats(rows: seq<Row>) {
    rows == [] ||
    var front, r := rows[..|rows| - 1], rows[|rows| - 1];
      NoRepeats(front) && (r.Started? && r.source == Watcher ==> r.key !in Replay(front).stored)
  }

  lemma NoRepeatsGrow(rows: seq<Row>, r: Row)
    requires NoRepeats(rows) && (r.Started? && r.source == Watcher ==> r.key !in Replay(rows).stored)
    ensures NoRepeats(rows + [r])
  {
    assert (rows + [r])[..|rows|] == rows;
  }

  lemma {:induction false} FinishDueRepeatsNone(cfg: Config, st: State, todo: seq<Job>, now: int)
    requires NoRepeats(st.rows)
    ensures NoRepeats(FinishDue(cfg, st, todo, now).rows)
    decreases |todo|
  {
    if todo != [] {
      if todo[0].due == now { NoRepeatsGrow(st.rows, Ended(now, OutcomeOf(st, todo[0]), todo[0].key, todo[0].attempt)); }
      FinishDueRepeatsNone(cfg, if todo[0].due == now then Finish(cfg, st, todo[0], now) else st, todo[1..], now);
    }
  }

  lemma PollRepeatsNone(cfg: Config, policy: Policy, material: (Change, Option<Change>) -> bool, st: State, source: Source, now: int)
    requires cfg.watcherPeriod >= 1 && cfg.decide == PolicyDecider(policy, material)
    requires LogInv(st, now) && NoRepeats(st.rows)
    ensures NoRepeats(Poll(cfg, st, source, now).rows)
  {
    if Active(cfg, source, now) && st.current.Some? {
      var c, q := st.current.value, InquiryFor(st, source);
      GeneratesExactlyWhen(policy, q.exact, q.refresh, material(q.current, q.baseline), q.current.valid);
      if Generates(cfg, st, source) && !Blocked(cfg, st, source, now) {
        NoRepeatsGrow(st.rows, Started(now, source, c.step, c.key, NewJob(cfg, st, source, now).attempt, source == Watcher && c.key in st.retryAfter));
      }
    }
  }

  lemma {:induction false} RunRepeatsNone(cfg: Config, policy: Policy, material: (Change, Option<Change>) -> bool, n: nat)
    requires cfg.watcherPeriod >= 1 && cfg.decide == PolicyDecider(policy, material)
    ensures NoRepeats(After(cfg, n).rows)
  {
    if n > 0 {
      RunRepeatsNone(cfg, policy, material, n - 1);
      LogInvariant(cfg, n - 1);
      LogBefore(After(cfg, n - 1), n - 1);
      TickRepeatsNone(cfg, policy, material, After(cfg, n - 1), n - 1);
    }
  }

  lemma TickRepeatsNone(cfg: Config, policy: Policy, material: (Change, Option<Change>) -> bool, st: State, now: int)
    requires cfg.watcherPeriod >= 1 && cfg.decide == PolicyDecider(policy, material)
    requires LogInv(st, now) && Answered(st.rows, st.queries, now) && NoRepeats(st.rows)
    ensures NoRepeats(Tick(cfg, st, now).rows)
  {
    var changed, settled := ApplyChange(cfg, st, now), Settled(cfg, st, now);
    if now in cfg.changes { NoRepeatsGrow(st.rows, Changed(now, cfg.changes[now].step, cfg.changes[now].key)); }
    ChangeKeeps(cfg, st, now);
    FinishDueRepeatsNone(cfg, changed, changed.running, now);
    FinishDueKeeps(cfg, changed, changed.running, now);
    PollRepeatsNone(cfg, policy, material, settled, Watcher, now);
    PollKeeps(cfg, settled, Watcher, now);
    PollRepeatsNone(cfg, policy, material, Poll(cfg, settled, Watcher, now), Refresh, now);
  }

  lemma {:induction false} NoRepeatsAt(rows: seq<Row>, i: nat)
    requires NoRepeats(rows) && i < |rows| && rows[i].Started? && rows[i].source == Watcher
    ensures rows[i].key !in Replay(rows[..i]).stored
  {
    var last := |rows| - 1;
    if i < last {
      NoRepeatsAt(rows[..last], i);
      assert rows[..last][..i] == rows[..i];
    }
  }

  lemma {:induction false} CompletedIsStored(rows: seq<Row>, j: nat)
    requires j < |rows| && rows[j].Ended? && rows[j].outcome == Completed
    ensures rows[j].key in Replay(rows).stored
  {
    if j < |rows| - 1 { CompletedIsStored(rows[..|rows| - 1], j); }
  }

  /** Under every policy the watcher never starts a generation for a fingerprint that an earlier row completed. */
  lemma PolicyRepeatsNothing(cfg: Config, policy: Policy, material: (Change, Option<Change>) -> bool, n: nat, j: nat, i: nat)
    requires cfg.watcherPeriod >= 1 && cfg.decide == PolicyDecider(policy, material)
    requires var rows := After(cfg, n).rows;
      j < i < |rows| && rows[j].Ended? && rows[j].outcome == Completed && rows[i].Started? && rows[i].source == Watcher
    ensures After(cfg, n).rows[i].key != After(cfg, n).rows[j].key
  {
    var rows := After(cfg, n).rows;
    RunRepeatsNone(cfg, policy, material, n);
    NoRepeatsAt(rows, i);
    CompletedIsStored(rows[..i], j);
  }
}
