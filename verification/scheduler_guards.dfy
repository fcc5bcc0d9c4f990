/** When a decision to generate is held back, and which attempt a start is, told from the decisions made before it. */
module SchedulerGuards {
  import opened Wrappers
  import opened GenerationPolicy
  import opened Scheduler
  import opened SchedulerLiveness
  import Safety = SchedulerSafety

  // ----- what the decisions before say about a fingerprint -----

  /** A decision that started a job for the key. */
  predicate Grants(d: DecisionRow, k: Key) {
    d.key == k && d.trace.action == Generate && !d.guarded
  }

  ghost function LastStart(ds: seq<DecisionRow>, k: Key): Option<int> {
    if ds == [] then None
    else if Grants(ds[|ds| - 1], k) then Some(ds[|ds| - 1].time)
    else LastStart(ds[..|ds| - 1], k)
  }

  /** The last job started for the key has not ended by `time`; without latency no job ever does. */
  ghost predicate Flying(cfg: Config, ds: seq<DecisionRow>, k: Key, time: int) {
    LastStart(ds, k).Some? && (cfg.latency <= 0 || time < LastStart(ds, k).value + cfg.latency)
  }

  /** A refresh that is to generate while nothing is in flight starts the count of attempts anew. */
  ghost predicate StartsAnew(cfg: Config, ds: seq<DecisionRow>, d: DecisionRow) {
    d.trace.action == Generate && d.source == Refresh && !Flying(cfg, ds, d.key, d.time)
  }

  /** The attempts made on the key since the count last started anew. */
  ghost function Spent(cfg: Config, ds: seq<DecisionRow>, k: Key): int
    decreases |ds|, 0
  {
    if ds == [] then 0
    else
      var front, d := ds[..|ds| - 1], ds[|ds| - 1];
      if d.key != k then Spent(cfg, front, k) else SpentBefore(cfg, front, d) + if Grants(d, k) then 1 else 0
  }

  ghost function SpentBefore(cfg: Config, ds: seq<DecisionRow>, d: DecisionRow): int
    decreases |ds|, 1
  {
    if StartsAnew(cfg, ds, d) then 0 else Spent(cfg, ds, d.key)
  }

  /** The end of the backoff after the last start that was a first attempt at a step that fails first. */
  ghost function RetryFrom(cfg: Config, ds: seq<DecisionRow>, k: Key): int {
    if ds == [] then 0
    else
      var d := ds[|ds| - 1];
      if Grants(d, k) && Spent(cfg, ds, k) == 1 && d.step in cfg.failFirst then d.time + cfg.latency + cfg.backoff
      else RetryFrom(cfg, ds[..|ds| - 1], k)
  }

  /** A decision to generate is held back exactly while a job is in flight, during the backoff, or when the attempts are
      used up. */
  ghost predicate GuardTold(cfg: Config, ds: seq<DecisionRow>, d: DecisionRow) {
    d.guarded <==>
      && d.trace.action == Generate
      && (Flying(cfg, ds, d.key, d.time) || d.time < RetryFrom(cfg, ds, d.key) || SpentBefore(cfg, ds, d) + 1 > cfg.maxAttempts)
  }

  ghost predicate AllGuarded(cfg: Config, ds: seq<DecisionRow>) {
    ds == [] || (AllGuarded(cfg, ds[..|ds| - 1]) && GuardTold(cfg, ds[..|ds| - 1], ds[|ds| - 1]))
  }

  /** The starts that the decisions make: when, from where, for which step and key, and as which attempt. */
  ghost function GrantedAs(cfg: Config, ds: seq<DecisionRow>): seq<(int, Source, nat, Key, int)> {
    if ds == [] then []
    else
      var d := ds[|ds| - 1];
      GrantedAs(cfg, ds[..|ds| - 1]) + if Grants(d, d.key) then [(d.time, d.source, d.step, d.key, Spent(cfg, ds, d.key))] else []
  }

  ghost function StartedAs(rows: seq<Row>): seq<(int, Source, nat, Key, int)> {
    if rows == [] then []
    else
      var r := rows[|rows| - 1];
      StartedAs(rows[..|rows| - 1]) + if r.Started? then [(r.time, r.source, r.step, r.key, r.attempt)] else []
  }

  // ----- the state behind it -----

  /** The job in flight is that of the last start, and what it will leave behind is known. */
  ghost predicate Carries(cfg: Config, s: Slot, ds: seq<DecisionRow>, k: Key, job: Job)
    requires LastStart(ds, k).Some?
  {
    && s.jobs == {job} && job.key == k && job.due == LastStart(ds, k).value + cfg.latency
    && RetryFrom(cfg, ds, k) == if job.fail then job.due + cfg.backoff else s.retryAfter
  }

  ghost predicate Matches(cfg: Config, s: Slot, ds: seq<DecisionRow>, k: Key, time: int) {
    && s.attempts == Spent(cfg, ds, k)
    && (LastStart(ds, k).Some? ==> LastStart(ds, k).value <= time)
    && (if Flying(cfg, ds, k, time) then exists job :: Carries(cfg, s, ds, k, job)
        else s.jobs == {} && s.retryAfter == RetryFrom(cfg, ds, k))
  }

  /** The state after the completions of tick `time`. */
  ghost predicate InStep(cfg: Config, st: State, time: int) {
    && Safety.DistinctKeys(st.running)
    && (forall k :: Matches(cfg, SlotOf(st, k), st.decisions, k, time))
    && AllGuarded(cfg, st.decisions) && StartedAs(st.rows) == GrantedAs(cfg, st.decisions)
  }

  // ----- completions -----

  lemma {:induction false} FinishDueLands(cfg: Config, st: State, todo: seq<Job>, job: Job)
    requires Safety.DistinctKeys(todo) && job in todo
    ensures var s, next := SlotOf(st, job.key), SlotOf(FinishDue(cfg, st, todo, job.due), job.key);
      next.jobs == {} && next.attempts == s.attempts && next.retryAfter == if job.fail then job.due + cfg.backoff else s.retryAfter
    decreases |todo|
  {
    Safety.RestDistinct(todo);
    if todo[0] == job {
      Safety.WithoutMembers(st.running, job.key);
      FinishDueOthers(cfg, Finish(cfg, st, job, job.due), todo[1..], job.due, job.key);
    } else {
      Safety.MemberOfRest(todo, job);
      if todo[0].due == job.due {
        FinishOther(cfg, st, todo[0], job.due, job.key);
        FinishDueLands(cfg, Finish(cfg, st, todo[0], job.due), todo[1..], job);
      } else {
        FinishDueLands(cfg, st, todo[1..], job);
      }
    }
  }

  lemma OneMoreStarted(rows: seq<Row>, r: Row)
    ensures StartedAs(rows + [r]) == StartedAs(rows) + if r.Started? then [(r.time, r.source, r.step, r.key, r.attempt)] else []
  {
    assert (rows + [r])[..|rows|] == rows;
  }

  lemma {:induction false} FinishDueStarts(cfg: Config, st: State, todo: seq<Job>, now: int)
    ensures var next := FinishDue(cfg, st, todo, now); StartedAs(next.rows) == StartedAs(st.rows)
    decreases |todo|
  {
    if todo != [] {
      if todo[0].due == now { OneMoreStarted(st.rows, Ended(now, OutcomeOf(st, todo[0]), todo[0].key, todo[0].attempt)); }
      FinishDueStarts(cfg, if todo[0].due == now then Finish(cfg, st, todo[0], now) else st, todo[1..], now);
    }
  }

  /** The completions of a tick end the job of a key exactly when it is no longer flying. */
  lemma SlotSettles(cfg: Config, st: State, k: Key, now: int)
    requires Safety.DistinctKeys(st.running) && Matches(cfg, SlotOf(st, k), st.decisions, k, now - 1)
    ensures Matches(cfg, SlotOf(FinishDue(cfg, st, st.running, now), k), st.decisions, k, now)
  {
    var s, ds := SlotOf(st, k), st.decisions;
    if Flying(cfg, ds, k, now - 1) {
      var job :| Carries(cfg, s, ds, k, job);
      assert job in s.jobs;
      if job.due == now {
        FinishDueLands(cfg, st, st.running, job);
      } else {
        forall j | j in st.running && j.key == k ensures j.due != now { assert j in s.jobs; }
        FinishDueOthers(cfg, st, st.running, now, k);
        assert Carries(cfg, s, ds, k, job);
      }
    } else {
      assert forall j :: j in st.running && j.key == k ==> j in s.jobs;
      FinishDueOthers(cfg, st, st.running, now, k);
    }
  }

  lemma Settles(cfg: Config, st: State, now: int)
    requires InStep(cfg, st, now - 1)
    ensures InStep(cfg, Settled(cfg, st, now), now)
  {
    var changed := ApplyChange(cfg, st, now);
    if now in cfg.changes { OneMoreStarted(st.rows, Changed(now, cfg.changes[now].step, cfg.changes[now].key)); }
    FinishDueLeaves(cfg, changed, changed.running, now);
    FinishDueStarts(cfg, changed, changed.running, now);
    Safety.FinishDueDistinct(cfg, changed, changed.running, now);
    forall k ensures Matches(cfg, SlotOf(Settled(cfg, st, now), k), st.decisions, k, now) {
      assert SlotOf(changed, k) == SlotOf(st, k);
      SlotSettles(cfg, changed, k, now);
    }
  }

  // ----- decisions -----

  lemma OneMoreDecision(cfg: Config, ds: seq<DecisionRow>, d: DecisionRow, k: Key)
    ensures var all := ds + [d];
      && LastStart(all, k) == (if Grants(d, k) then Some(d.time) else LastStart(ds, k))
      && Spent(cfg, all, k) == (if d.key != k then Spent(cfg, ds, k) else SpentBefore(cfg, ds, d) + if Grants(d, k) then 1 else 0)
      && RetryFrom(cfg, all, k) ==
         (if Grants(d, k) && Spent(cfg, all, k) == 1 && d.step in cfg.failFirst then d.time + cfg.latency + cfg.backoff else RetryFrom(cfg, ds, k))
      && (AllGuarded(cfg, all) <==> AllGuarded(cfg, ds) && GuardTold(cfg, ds, d))
      && GrantedAs(cfg, all) == GrantedAs(cfg, ds) + if Grants(d, d.key) then [(d.time, d.source, d.step, d.key, Spent(cfg, all, d.key))] else []
  {
    var all := ds + [d];
    assert all[..|all| - 1] == ds && all[|all| - 1] == d;
  }

  /** The row that a consultation adds to the decisions. */
  function NewRow(cfg: Config, st: State, source: Source, now: int): DecisionRow
    requires st.current.Some?
  {
    var c := st.current.value;
    DecisionRow(now, source, c.step, c.key, cfg.decide(InquiryFor(st, source)), Generates(cfg, st, source) && Blocked(cfg, st, source, now))
  }

  lemma SlotIsFlying(cfg: Config, st: State, k: Key, now: int)
    requires Matches(cfg, SlotOf(st, k), st.decisions, k, now)
    ensures InFlight(st.running, k) <==> Flying(cfg, st.decisions, k, now)
    ensures !Flying(cfg, st.decisions, k, now) ==> Lookup(st.retryAfter, k) == RetryFrom(cfg, st.decisions, k)
    ensures Lookup(st.attempts, k) == Spent(cfg, st.decisions, k)
  {
    InFlightSlot(st, k);
  }

  /** The decision sees the counter that the decisions before it make. */
  lemma CounterIsSpent(cfg: Config, st: State, source: Source, now: int)
    requires st.current.Some? && Matches(cfg, SlotOf(st, st.current.value.key), st.decisions, st.current.value.key, now)
    requires Generates(cfg, st, source)
    ensures var k := st.current.value.key;
      Lookup(AttemptsAt(cfg, st, source), k) == SpentBefore(cfg, st.decisions, NewRow(cfg, st, source, now))
  {
    SlotIsFlying(cfg, st, st.current.value.key, now);
  }

  lemma NewGuard(cfg: Config, st: State, source: Source, now: int)
    requires st.current.Some? && Matches(cfg, SlotOf(st, st.current.value.key), st.decisions, st.current.value.key, now)
    ensures GuardTold(cfg, st.decisions, NewRow(cfg, st, source, now))
  {
    SlotIsFlying(cfg, st, st.current.value.key, now);
    if Generates(cfg, st, source) { CounterIsSpent(cfg, st, source, now); }
  }

  lemma OtherSlot(cfg: Config, st: State, source: Source, now: int, k: Key)
    requires st.current.Some? && st.current.value.key != k && Matches(cfg, SlotOf(st, k), st.decisions, k, now)
    ensures Matches(cfg, SlotOf(Consult(cfg, st, source, now), k), st.decisions + [NewRow(cfg, st, source, now)], k, now)
  {
    var next, d, s := Consult(cfg, st, source, now), NewRow(cfg, st, source, now), SlotOf(st, k);
    OneMoreDecision(cfg, st.decisions, d, k);
    assert SlotOf(next, k) == s by { assert SlotOf(next, k).jobs == s.jobs; }
    if job :| Flying(cfg, st.decisions, k, now) && Carries(cfg, s, st.decisions, k, job) {
      assert Carries(cfg, s, st.decisions + [d], k, job);
    }
  }

  lemma OwnSlot(cfg: Config, st: State, source: Source, now: int)
    requires st.current.Some? && Matches(cfg, SlotOf(st, st.current.value.key), st.decisions, st.current.value.key, now)
    ensures var k := st.current.value.key;
      Matches(cfg, SlotOf(Consult(cfg, st, source, now), k), st.decisions + [NewRow(cfg, st, source, now)], k, now)
  {
    var next, d, k := Consult(cfg, st, source, now), NewRow(cfg, st, source, now), st.current.value.key;
    var s := SlotOf(st, k);
    OneMoreDecision(cfg, st.decisions, d, k);
    SlotIsFlying(cfg, st, k, now);
    if Generates(cfg, st, source) { CounterIsSpent(cfg, st, source, now); }
    if Generates(cfg, st, source) && !Blocked(cfg, st, source, now) {
      var job := NewJob(cfg, st, source, now);
      assert SlotOf(next, k).jobs == {job} by { assert forall j :: j in next.running <==> j in st.running || j == job; }
      assert Carries(cfg, SlotOf(next, k), st.decisions + [d], k, job);
    } else {
      assert SlotOf(next, k).jobs == s.jobs;
      if job :| Flying(cfg, st.decisions, k, now) && Carries(cfg, s, st.decisions, k, job) {
        assert Carries(cfg, SlotOf(next, k), st.decisions + [d], k, job);
      }
    }
  }

  lemma NewStart(cfg: Config, st: State, source: Source, now: int)
    requires st.current.Some? && InStep(cfg, st, now)
    ensures var next := Consult(cfg, st, source, now); StartedAs(next.rows) == GrantedAs(cfg, st.decisions + [NewRow(cfg, st, source, now)])
  {
    var c, d := st.current.value, NewRow(cfg, st, source, now);
    assert Matches(cfg, SlotOf(st, c.key), st.decisions, c.key, now);
    OneMoreDecision(cfg, st.decisions, d, c.key);
    if Generates(cfg, st, source) && !Blocked(cfg, st, source, now) {
      CounterIsSpent(cfg, st, source, now);
      OneMoreStarted(st.rows, Started(now, source, c.step, c.key, NewJob(cfg, st, source, now).attempt, source == Watcher && c.key in st.retryAfter));
    }
  }

  lemma ConsultInStep(cfg: Config, st: State, source: Source, now: int)
    requires st.current.Some? && InStep(cfg, st, now) && Safety.DistinctKeys(Consult(cfg, st, source, now).running)
    ensures InStep(cfg, Consult(cfg, st, source, now), now)
  {
    var next, d, k := Consult(cfg, st, source, now), NewRow(cfg, st, source, now), st.current.value.key;
    assert next.decisions == st.decisions + [d];
    assert Matches(cfg, SlotOf(st, k), st.decisions, k, now);
    NewGuard(cfg, st, source, now);
    OneMoreDecision(cfg, st.decisions, d, k);
    NewStart(cfg, st, source, now);
    forall x ensures Matches(cfg, SlotOf(next, x), next.decisions, x, now) {
      assert Matches(cfg, SlotOf(st, x), st.decisions, x, now);
      if x == k { OwnSlot(cfg, st, source, now); } else { OtherSlot(cfg, st, source, now, x); }
    }
  }

  lemma PollInStep(cfg: Config, st: State, source: Source, now: int)
    requires cfg.watcherPeriod >= 1 && InStep(cfg, st, now)
    ensures InStep(cfg, Poll(cfg, st, source, now), now)
  {
    Safety.PollDistinct(cfg, st, source, now);
    if Active(cfg, source, now) && st.current.Some? { ConsultInStep(cfg, st, source, now); }
  }

  lemma TickInStep(cfg: Config, st: State, now: int)
    requires cfg.watcherPeriod >= 1 && InStep(cfg, st, now - 1)
    ensures InStep(cfg, Tick(cfg, st, now), now)
  {
    var settled := Settled(cfg, st, now);
    Settles(cfg, st, now);
    PollInStep(cfg, settled, Watcher, now);
    var watched := Poll(cfg, settled, Watcher, now);
    PollInStep(cfg, watched, Refresh, now);
    QueryInStep(cfg, Poll(cfg, watched, Refresh, now), now);
  }

  lemma QueryInStep(cfg: Config, st: State, now: int)
    requires InStep(cfg, st, now)
    ensures InStep(cfg, Query(cfg, st, now), now)
  {
    var next := Query(cfg, st, now);
    forall k ensures Matches(cfg, SlotOf(next, k), next.decisions, k, now) {
      assert SlotOf(next, k) == SlotOf(st, k);
      assert Matches(cfg, SlotOf(st, k), st.decisions, k, now);
    }
  }

  // ----- whole runs -----

  ghost predicate RunInStep(cfg: Config, n: nat)
    requires cfg.watcherPeriod >= 1
  {
    InStep(cfg, After(cfg, n), n - 1)
  }

  lemma InitialInStep(cfg: Config)
    requires cfg.watcherPeriod >= 1
    ensures RunInStep(cfg, 0)
  {
    assert INITIAL.running == [] && INITIAL.decisions == [] && INITIAL.rows == [];
    forall k ensures Matches(cfg, SlotOf(INITIAL, k), INITIAL.decisions, k, -1) { UntouchedAtFirst(k); }
  }

  lemma NextInStep(cfg: Config, n: nat)
    requires cfg.watcherPeriod >= 1 && RunInStep(cfg, n)
    ensures RunInStep(cfg, n + 1)
  {
    TickInStep(cfg, After(cfg, n), n);
    assert After(cfg, n + 1) == Tick(cfg, After(cfg, n), n);
  }

  lemma {:induction false} RunStaysInStep(cfg: Config, n: nat)
    requires cfg.watcherPeriod >= 1
    ensures RunInStep(cfg, n)
  {
    if n == 0 {
      InitialInStep(cfg);
    } else {
      RunStaysInStep(cfg, n - 1);
      NextInStep(cfg, n - 1);
    }
  }

  lemma {:induction false} GuardAt(cfg: Config, ds: seq<DecisionRow>, i: nat)
    requires AllGuarded(cfg, ds) && i < |ds|
    ensures GuardTold(cfg, ds[..i], ds[i])
  {
    var last := |ds| - 1;
    if i < last {
      GuardAt(cfg, ds[..last], i);
      assert ds[..last][..i] == ds[..i];
    }
  }

  /** A decision to generate is held back exactly when, by the decisions before it, a job for its fingerprint is in flight,
      the backoff after a failed first attempt is not over, or the attempts since the last refresh are used up. */
  lemma GuardsAreTold(cfg: Config, n: nat, i: nat)
    requires cfg.watcherPeriod >= 1 && i < |After(cfg, n).decisions|
    ensures var ds := After(cfg, n).decisions;
      var d := ds[i];
      d.guarded <==>
        && d.trace.action == Generate
        && (Flying(cfg, ds[..i], d.key, d.time) || d.time < RetryFrom(cfg, ds[..i], d.key) || SpentBefore(cfg, ds[..i], d) + 1 > cfg.maxAttempts)
  {
    RunStaysInStep(cfg, n);
    GuardAt(cfg, After(cfg, n).decisions, i);
  }

  /** The starts of the log are those the decisions make, in order, each with the number of attempts made since the last
      refresh that started anew. */
  lemma AttemptsAreTold(cfg: Config, n: nat)
    requires cfg.watcherPeriod >= 1
    ensures StartedAs(After(cfg, n).rows) == GrantedAs(cfg, After(cfg, n).decisions)
  {
    RunStaysInStep(cfg, n);
  }
}
