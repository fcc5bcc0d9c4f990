/** What the log of the scheduler determines of its state, and that every tick keeps the two in step. */
module SchedulerLog {
  import opened Wrappers
  import opened Scheduler

  /** The part of the state that the log determines. */
  datatype Memory = Memory(stored: set<Key>, current: Option<Key>, completed: Option<Key>)

  ghost function Replay(rows: seq<Row>): Memory {
    if rows == [] then Memory({}, None, None)
    else
      var m := Replay(rows[..|rows| - 1]);
      match rows[|rows| - 1]
      case Changed(_, _, k) => m.(current := Some(k))
      case Ended(_, Completed, k, _) => m.(stored := m.stored + {k}, completed := Some(k))
      case _ => m
  }

  ghost function KeyOf(c: Option<Change>): Option<Key> {
    if c.Some? then Some(c.value.key) else None
  }

  ghost predicate Completes(r: Row, k: Key, time: int) {
    r.Ended? && r.outcome == Completed && r.key == k && r.time <= time
  }

  /** The log has a completion of `k` dated at or before `time`. */
  ghost predicate CompletedBy(rows: seq<Row>, k: Key, time: int) {
    rows != [] && (Completes(rows[|rows| - 1], k, time) || CompletedBy(rows[..|rows| - 1], k, time))
  }

  lemma {:induction false} CompletedMeans(rows: seq<Row>, k: Key, time: int)
    ensures CompletedBy(rows, k, time) <==> exists i :: 0 <= i < |rows| && Completes(rows[i], k, time)
  {
    if rows != [] {
      var front := rows[..|rows| - 1];
      CompletedMeans(front, k, time);
      assert forall i :: 0 <= i < |front| ==> front[i] == rows[i];
    }
  }

  /** Only the key that is current is started or completed; a stale success is discarded. */
  ghost predicate Fits(before: seq<Row>, r: Row) {
    var current := Replay(before).current;
    && (r.Started? ==> current == Some(r.key))
    && (r.Ended? && r.outcome != Failure ==> (r.outcome == Completed <==> current == Some(r.key)))
  }

  /** Every row fits the rows before it. */
  ghost predicate Honest(rows: seq<Row>) {
    rows == [] || (Honest(rows[..|rows| - 1]) && Fits(rows[..|rows| - 1], rows[|rows| - 1]))
  }

  ghost predicate Answered(rows: seq<Row>, queries: seq<QueryRow>, now: int) {
    forall q :: q in queries ==>
      q.time < now && (q.hit <==> q.key.Some? && CompletedBy(rows, q.key.value, q.time))
  }

  ghost predicate Named(running: seq<Job>) {
    forall j :: j in running ==> j.key == j.change.key
  }

  ghost predicate LogInv(st: State, now: int) {
    && Replay(st.rows) == Memory(st.stored, KeyOf(st.current), KeyOf(st.baseline))
    && Honest(st.rows)
    && (forall i :: 0 <= i < |st.rows| ==> st.rows[i].time <= now)
    && Named(st.running)
  }

  lemma {:induction false} HonestAt(rows: seq<Row>, i: nat)
    requires Honest(rows) && i < |rows|
    ensures Fits(rows[..i], rows[i])
  {
    var last := |rows| - 1;
    if i < last {
      HonestAt(rows[..last], i);
      assert rows[..last][..i] == rows[..i];
    }
  }

  lemma HonestRow(rows: seq<Row>, r: Row)
    requires Honest(rows) && Fits(rows, r)
    ensures Honest(rows + [r])
  {
    assert (rows + [r])[..|rows|] == rows;
  }

  lemma ReplayRow(rows: seq<Row>, r: Row)
    ensures Replay(rows + [r]) == match r
      case Changed(_, _, k) => Replay(rows).(current := Some(k))
      case Ended(_, Completed, k, _) => Replay(rows).(stored := Replay(rows).stored + {k}, completed := Some(k))
      case _ => Replay(rows)
  {
    assert (rows + [r])[..|rows + [r]| - 1] == rows;
  }

  lemma AnsweredRow(rows: seq<Row>, r: Row, queries: seq<QueryRow>, now: int)
    requires Answered(rows, queries, now) && now <= r.time
    ensures Answered(rows + [r], queries, now)
  {
    assert (rows + [r])[..|rows|] == rows;
  }

  lemma {:induction false} StoredIsLogged(rows: seq<Row>, k: Key, now: int)
    requires forall i :: 0 <= i < |rows| ==> rows[i].time <= now
    ensures k in Replay(rows).stored <==> CompletedBy(rows, k, now)
  {
    if rows != [] {
      StoredIsLogged(rows[..|rows| - 1], k, now);
    }
  }

  // ----- one tick -----

  lemma ChangeKeeps(cfg: Config, st: State, now: int)
    requires LogInv(st, now) && Answered(st.rows, st.queries, now)
    ensures var next := ApplyChange(cfg, st, now);
      LogInv(next, now) && Answered(next.rows, next.queries, now) && next.queries == st.queries && st.rows <= next.rows
  {
    if now in cfg.changes {
      var r := Changed(now, cfg.changes[now].step, cfg.changes[now].key);
      ReplayRow(st.rows, r);
      HonestRow(st.rows, r);
      AnsweredRow(st.rows, r, st.queries, now);
    }
  }

  lemma FinishKeeps(cfg: Config, st: State, job: Job, now: int)
    requires LogInv(st, now) && Answered(st.rows, st.queries, now) && job.key == job.change.key
    ensures var next := Finish(cfg, st, job, now);
      LogInv(next, now) && Answered(next.rows, next.queries, now) && next.queries == st.queries && st.rows <= next.rows
  {
    var r := Ended(now, OutcomeOf(st, job), job.key, job.attempt);
    ReplayRow(st.rows, r);
    HonestRow(st.rows, r);
    AnsweredRow(st.rows, r, st.queries, now);
    WithoutIncluded(st.running, job.key);
  }

  lemma {:induction false} WithoutIncluded(running: seq<Job>, k: Key)
    ensures forall j :: j in Without(running, k) ==> j in running
  {
    if running != [] {
      WithoutIncluded(running[..|running| - 1], k);
    }
  }

  lemma {:induction false} FinishDueKeeps(cfg: Config, st: State, todo: seq<Job>, now: int)
    requires LogInv(st, now) && Answered(st.rows, st.queries, now) && Named(todo)
    ensures var next := FinishDue(cfg, st, todo, now);
      LogInv(next, now) && Answered(next.rows, next.queries, now) && next.queries == st.queries && st.rows <= next.rows
    decreases |todo|
  {
    if todo != [] {
      if todo[0].due == now {
        FinishKeeps(cfg, st, todo[0], now);
        FinishDueKeeps(cfg, Finish(cfg, st, todo[0], now), todo[1..], now);
      } else {
        FinishDueKeeps(cfg, st, todo[1..], now);
      }
    }
  }

  lemma ConsultKeeps(cfg: Config, st: State, source: Source, now: int)
    requires LogInv(st, now) && Answered(st.rows, st.queries, now) && st.current.Some?
    ensures var next := Consult(cfg, st, source, now);
      LogInv(next, now) && Answered(next.rows, next.queries, now) && next.queries == st.queries && st.rows <= next.rows
  {
    if Generates(cfg, st, source) && !Blocked(cfg, st, source, now) {
      var c := st.current.value;
      var job := NewJob(cfg, st, source, now);
      var r := Started(now, source, c.step, c.key, job.attempt, source == Watcher && c.key in st.retryAfter);
      StartKeeps(st, job, r, now);
    }
  }

  /** A start changes neither what is current nor what is stored. */
  lemma StartKeeps(st: State, job: Job, r: Row, now: int)
    requires LogInv(st, now) && Answered(st.rows, st.queries, now) && IsCurrent(st, r.key)
    requires r.Started? && r.time == now && job.key == job.change.key
    ensures LogInv(st.(rows := st.rows + [r], running := st.running + [job]), now)
    ensures Answered(st.rows + [r], st.queries, now)
  {
    ReplayRow(st.rows, r);
    HonestRow(st.rows, r);
    AnsweredRow(st.rows, r, st.queries, now);
  }

  lemma PollKeeps(cfg: Config, st: State, source: Source, now: int)
    requires LogInv(st, now) && Answered(st.rows, st.queries, now) && cfg.watcherPeriod >= 1
    ensures var next := Poll(cfg, st, source, now);
      LogInv(next, now) && Answered(next.rows, next.queries, now) && next.queries == st.queries && st.rows <= next.rows
  {
    if Active(cfg, source, now) && st.current.Some? {
      ConsultKeeps(cfg, st, source, now);
    }
  }

  lemma TickKeeps(cfg: Config, st: State, now: int)
    requires LogInv(st, now) && Answered(st.rows, st.queries, now) && cfg.watcherPeriod >= 1
    ensures var next := Tick(cfg, st, now);
      LogInv(next, now) && Answered(next.rows, next.queries, now + 1) && st.rows <= next.rows
  {
    ChangeKeeps(cfg, st, now);
    var changed := ApplyChange(cfg, st, now);
    FinishDueKeeps(cfg, changed, changed.running, now);
    var settled := Settled(cfg, st, now);
    PollKeeps(cfg, settled, Watcher, now);
    var watched := Poll(cfg, settled, Watcher, now);
    PollKeeps(cfg, watched, Refresh, now);
    var polled := Poll(cfg, watched, Refresh, now);
    QueryAnswers(cfg, polled, now);
  }

  lemma QueryAnswers(cfg: Config, st: State, now: int)
    requires LogInv(st, now) && Answered(st.rows, st.queries, now)
    ensures var next := Query(cfg, st, now);
      LogInv(next, now) && Answered(next.rows, next.queries, now + 1) && next.rows == st.rows
  {
    if st.current.Some? {
      StoredIsLogged(st.rows, st.current.value.key, now);
    }
  }

  lemma {:induction false} LogInvariant(cfg: Config, n: nat)
    requires cfg.watcherPeriod >= 1
    ensures LogInv(After(cfg, n), n - 1) && Answered(After(cfg, n).rows, After(cfg, n).queries, n)
  {
    if n == 0 {
      assert INITIAL.rows == [] && INITIAL.running == [];
    } else {
      LogInvariant(cfg, n - 1);
      TickKeeps(cfg, After(cfg, n - 1), n - 1);
    }
  }
}
