/** What holds of every run of the scheduler, for every calendar and every decision procedure. */
module SchedulerSafety {
  import opened Wrappers
  import opened GenerationPolicy
  import opened Scheduler

  /** One started generation: when it started, for which key, as which attempt. */
  datatype Token = Token(start: int, key: Key, attempt: int)

  ghost predicate StartsToken(r: Row, t: Token) {
    r.Started? && r.time == t.start && r.key == t.key && r.attempt == t.attempt
  }

  /** An outcome settles the start that lies one latency back. */
  ghost predicate SettlesToken(r: Row, t: Token, latency: int) {
    r.Ended? && r.time == t.start + latency && r.key == t.key && r.attempt == t.attempt
  }

  ghost predicate CarriesToken(j: Job, t: Token, latency: int) {
    j.due == t.start + latency && j.key == t.key && j.attempt == t.attempt
  }

  ghost function Starts(rows: seq<Row>, t: Token): nat {
    if rows == [] then 0
    else Starts(rows[..|rows| - 1], t) + (if StartsToken(rows[|rows| - 1], t) then 1 else 0)
  }

  ghost function Settlements(rows: seq<Row>, t: Token, latency: int): nat {
    if rows == [] then 0
    else Settlements(rows[..|rows| - 1], t, latency) + (if SettlesToken(rows[|rows| - 1], t, latency) then 1 else 0)
  }

  ghost function Pending(running: seq<Job>, t: Token, latency: int): nat {
    if running == [] then 0
    else Pending(running[..|running| - 1], t, latency) + (if CarriesToken(running[|running| - 1], t, latency) then 1 else 0)
  }

  ghost predicate DistinctKeys(running: seq<Job>) {
    forall i, j :: 0 <= i < j < |running| ==> running[i].key != running[j].key
  }

  /** Two starts of one key lie at least a latency apart. */
  ghost predicate Spaced(rows: seq<Row>, latency: int) {
    forall i, j :: 0 <= i < j < |rows| && rows[i].Started? && rows[j].Started? && rows[i].key == rows[j].key
      ==> rows[i].time + latency <= rows[j].time
  }

  ghost predicate StartsBy(rows: seq<Row>, k: Key, time: int) {
    forall i :: 0 <= i < |rows| && rows[i].Started? && rows[i].key == k ==> rows[i].time <= time
  }

  ghost predicate Failed(r: Row) {
    r.Ended? && r.outcome == Failure
  }

  /** A start is either at or before the attempt that failed, or after the failure by the backoff. */
  ghost predicate BacksOff(rows: seq<Row>, latency: int, backoff: int) {
    forall i, j :: 0 <= i < |rows| && 0 <= j < |rows| && Failed(rows[i]) && rows[j].Started? && rows[i].key == rows[j].key
      ==> rows[j].time + latency <= rows[i].time || rows[i].time + backoff <= rows[j].time
  }

  ghost predicate Remembers(rows: seq<Row>, retryAfter: map<Key, int>, backoff: int) {
    forall i :: 0 <= i < |rows| && Failed(rows[i])
      ==> rows[i].key in retryAfter && rows[i].time + backoff <= retryAfter[rows[i].key]
  }

  ghost predicate Dated(rows: seq<Row>, now: int) {
    forall i :: 0 <= i < |rows| ==> rows[i].time <= now
  }

  ghost predicate DueWithin(running: seq<Job>, lo: int, hi: int) {
    forall j :: j in running ==> lo <= j.due <= hi
  }

  /** Every start is settled or pending, and nothing else is. */
  ghost predicate Balanced(rows: seq<Row>, running: seq<Job>, latency: int) {
    forall t :: Starts(rows, t) == Settlements(rows, t, latency) + Pending(running, t, latency)
  }

  /** The invariant between two phases of tick `now`: jobs fall due from `lo` on. */
  ghost predicate Inv(cfg: Config, st: State, now: int, lo: int) {
    && DistinctKeys(st.running)
    && DueWithin(st.running, lo, now + cfg.latency)
    && Dated(st.rows, now)
    && Balanced(st.rows, st.running, cfg.latency)
    && Spaced(st.rows, cfg.latency)
    && BacksOff(st.rows, cfg.latency, cfg.backoff)
    && Remembers(st.rows, st.retryAfter, cfg.backoff)
  }

  // ----- counting tokens -----

  lemma AppendRow(rows: seq<Row>, r: Row, t: Token, latency: int)
    ensures Starts(rows + [r], t) == Starts(rows, t) + (if StartsToken(r, t) then 1 else 0)
    ensures Settlements(rows + [r], t, latency) == Settlements(rows, t, latency) + (if SettlesToken(r, t, latency) then 1 else 0)
  {
    assert (rows + [r])[..|rows + [r]| - 1] == rows;
  }

  lemma AppendJob(running: seq<Job>, j: Job, t: Token, latency: int)
    ensures Pending(running + [j], t, latency) == Pending(running, t, latency) + (if CarriesToken(j, t, latency) then 1 else 0)
  {
    assert (running + [j])[..|running + [j]| - 1] == running;
  }

  lemma {:induction false} StartInLog(rows: seq<Row>, i: nat, t: Token)
    requires i < |rows| && StartsToken(rows[i], t)
    ensures Starts(rows, t) > 0
  {
    if i < |rows| - 1 {
      StartInLog(rows[..|rows| - 1], i, t);
    }
  }

  lemma {:induction false} LogOfStart(rows: seq<Row>, t: Token) returns (i: nat)
    requires Starts(rows, t) > 0
    ensures i < |rows| && StartsToken(rows[i], t)
  {
    i := |rows| - 1;
    if !StartsToken(rows[i], t) {
      i := LogOfStart(rows[..|rows| - 1], t);
    }
  }

  lemma {:induction false} LogOfSettlement(rows: seq<Row>, t: Token, latency: int) returns (i: nat)
    requires Settlements(rows, t, latency) > 0
    ensures i < |rows| && SettlesToken(rows[i], t, latency)
  {
    i := |rows| - 1;
    if !SettlesToken(rows[i], t, latency) {
      i := LogOfSettlement(rows[..|rows| - 1], t, latency);
    }
  }

  lemma {:induction false} JobOfPending(running: seq<Job>, t: Token, latency: int) returns (j: Job)
    requires Pending(running, t, latency) > 0
    ensures j in running && CarriesToken(j, t, latency)
  {
    j := running[|running| - 1];
    if !CarriesToken(j, t, latency) {
      j := JobOfPending(running[..|running| - 1], t, latency);
    }
  }

  lemma {:induction false} WithoutAbsent(running: seq<Job>, k: Key)
    requires !InFlight(running, k)
    ensures Without(running, k) == running
  {
    if running != [] {
      var front, last := running[..|running| - 1], running[|running| - 1];
      assert !InFlight(front, k);
      WithoutAbsent(front, k);
      assert running == front + [last];
    }
  }

  lemma {:induction false} WithoutMembers(running: seq<Job>, k: Key)
    ensures forall j :: j in Without(running, k) <==> j in running && j.key != k
  {
    if running != [] {
      assert running == running[..|running| - 1] + [running[|running| - 1]];
      WithoutMembers(running[..|running| - 1], k);
    }
  }

  lemma DistinctAppend(running: seq<Job>, job: Job)
    requires DistinctKeys(running) && forall j :: j in running ==> j.key != job.key
    ensures DistinctKeys(running + [job])
  {
  }

  lemma RestDistinct(running: seq<Job>)
    requires running != [] && DistinctKeys(running)
    ensures DistinctKeys(running[1..])
    ensures forall j :: j in running[1..] ==> j.key != running[0].key
  {
    var rest := running[1..];
    forall i, j | 0 <= i < j < |rest| ensures rest[i].key != rest[j].key {
      assert rest[i] == running[i + 1] && rest[j] == running[j + 1];
    }
    forall i | 0 <= i < |rest| ensures rest[i].key != running[0].key {
      assert rest[i] == running[i + 1];
    }
  }

  lemma MemberOfRest(running: seq<Job>, job: Job)
    requires job in running && job != running[0]
    ensures job in running[1..]
  {
    assert running == [running[0]] + running[1..];
  }

  lemma {:induction false} WithoutDistinct(running: seq<Job>, k: Key)
    requires DistinctKeys(running)
    ensures DistinctKeys(Without(running, k))
  {
    if running != [] {
      var front, last := running[..|running| - 1], running[|running| - 1];
      WithoutDistinct(front, k);
      WithoutMembers(front, k);
      if last.key != k {
        DistinctAppend(Without(front, k), last);
      }
    }
  }

  /** Key `running[i].key` occurs at position `i` only. */
  ghost predicate OnlyAt(running: seq<Job>, i: nat) {
    i < |running| && forall j :: 0 <= j < |running| && j != i ==> running[j].key != running[i].key
  }

  lemma OnlyAtFront(running: seq<Job>, i: nat)
    requires OnlyAt(running, i) && i < |running| - 1
    ensures var front := running[..|running| - 1];
      OnlyAt(front, i) && front[i] == running[i] && running[|running| - 1].key != running[i].key
  {
  }

  lemma {:induction false} WithoutAt(running: seq<Job>, i: nat, t: Token, latency: int)
    requires OnlyAt(running, i)
    ensures var rest := Without(running, running[i].key);
      && |rest| == |running| - 1
      && Pending(running, t, latency) == Pending(rest, t, latency) + (if CarriesToken(running[i], t, latency) then 1 else 0)
  {
    var front, last := running[..|running| - 1], running[|running| - 1];
    if i == |running| - 1 {
      WithoutAbsent(front, last.key);
    } else {
      OnlyAtFront(running, i);
      WithoutAt(front, i, t, latency);
      AppendJob(Without(front, running[i].key), last, t, latency);
    }
  }

  lemma PositionOf(running: seq<Job>, job: Job) returns (i: nat)
    requires DistinctKeys(running) && job in running
    ensures OnlyAt(running, i) && running[i] == job
  {
    i :| 0 <= i < |running| && running[i] == job;
  }

  // ----- one more row -----

  lemma SpacedNeutral(rows: seq<Row>, r: Row, latency: int)
    requires Spaced(rows, latency) && !r.Started?
    ensures Spaced(rows + [r], latency)
  {
  }

  lemma SpacedStart(rows: seq<Row>, r: Row, latency: int)
    requires Spaced(rows, latency) && r.Started?
    requires StartsBy(rows, r.key, r.time - latency)
    ensures Spaced(rows + [r], latency)
  {
  }

  lemma BacksOffRow(rows: seq<Row>, r: Row, latency: int, backoff: int)
    requires BacksOff(rows, latency, backoff)
    requires Failed(r) ==> StartsBy(rows, r.key, r.time - latency)
    requires r.Started? ==>
      forall i :: 0 <= i < |rows| && Failed(rows[i]) && rows[i].key == r.key ==> rows[i].time + backoff <= r.time
    ensures BacksOff(rows + [r], latency, backoff)
  {
    var all := rows + [r];
    forall i, j | 0 <= i < |all| && 0 <= j < |all| && Failed(all[i]) && all[j].Started? && all[i].key == all[j].key
      ensures all[j].time + latency <= all[i].time || all[i].time + backoff <= all[j].time
    {
      if i < |rows| && j < |rows| {
        assert all[i] == rows[i] && all[j] == rows[j];
      }
    }
  }

  lemma RemembersRow(rows: seq<Row>, r: Row, before: map<Key, int>, after: map<Key, int>, now: int, backoff: int)
    requires Remembers(rows, before, backoff) && Dated(rows, now) && r.time == now
    requires after == if Failed(r) then before[r.key := now + backoff] else before
    ensures Remembers(rows + [r], after, backoff) && Dated(rows + [r], now)
  {
  }

  // ----- every phase keeps the invariant -----

  lemma ChangeKeeps(cfg: Config, st: State, now: int)
    requires Inv(cfg, st, now, now)
    ensures Inv(cfg, ApplyChange(cfg, st, now), now, now)
  {
    if now in cfg.changes {
      var r := Changed(now, cfg.changes[now].step, cfg.changes[now].key);
      BalancedOther(st.rows, r, st.running, cfg.latency);
      SpacedNeutral(st.rows, r, cfg.latency);
      BacksOffRow(st.rows, r, cfg.latency, cfg.backoff);
      RemembersRow(st.rows, r, st.retryAfter, st.retryAfter, now, cfg.backoff);
    }
  }

  /** Every logged start is settled already or still pending. */
  lemma StartAccounted(cfg: Config, st: State, now: int, lo: int, i: nat)
    requires Inv(cfg, st, now, lo)
    requires i < |st.rows| && st.rows[i].Started?
    ensures
      || st.rows[i].time + cfg.latency <= now
      || exists j :: j in st.running && j.key == st.rows[i].key && j.due == st.rows[i].time + cfg.latency
  {
    var t := Token(st.rows[i].time, st.rows[i].key, st.rows[i].attempt);
    StartInLog(st.rows, i, t);
    if Settlements(st.rows, t, cfg.latency) > 0 {
      var e := LogOfSettlement(st.rows, t, cfg.latency);
    } else {
      var j := JobOfPending(st.running, t, cfg.latency);
    }
  }

  lemma SameKeySameJob(running: seq<Job>, a: Job, b: Job)
    requires DistinctKeys(running) && a in running && b in running && a.key == b.key
    ensures a == b
  {
  }

  /** The starts of the key of a job that is due now lie at least a latency back. */
  lemma StartsBeforeDue(cfg: Config, st: State, job: Job, now: int)
    requires Inv(cfg, st, now, now) && job in st.running && job.due == now
    ensures StartsBy(st.rows, job.key, now - cfg.latency)
  {
    forall i | 0 <= i < |st.rows| && st.rows[i].Started? && st.rows[i].key == job.key
      ensures st.rows[i].time + cfg.latency <= now
    {
      StartAccounted(cfg, st, now, now, i);
      if j :| j in st.running && j.key == st.rows[i].key && j.due == st.rows[i].time + cfg.latency {
        SameKeySameJob(st.running, j, job);
      }
    }
  }

  lemma StartsWhenIdle(cfg: Config, st: State, k: Key, now: int)
    requires Inv(cfg, st, now, now + 1) && !InFlight(st.running, k)
    ensures StartsBy(st.rows, k, now - cfg.latency)
  {
    forall i | 0 <= i < |st.rows| && st.rows[i].Started? && st.rows[i].key == k
      ensures st.rows[i].time + cfg.latency <= now
    {
      StartAccounted(cfg, st, now, now + 1, i);
    }
  }

  lemma BalancedEnd(rows: seq<Row>, r: Row, running: seq<Job>, i: nat, latency: int)
    requires Balanced(rows, running, latency) && OnlyAt(running, i)
    requires r.Ended? && r.time == running[i].due && r.key == running[i].key && r.attempt == running[i].attempt
    ensures Balanced(rows + [r], Without(running, running[i].key), latency)
  {
    forall t ensures Starts(rows + [r], t) == Settlements(rows + [r], t, latency) + Pending(Without(running, running[i].key), t, latency) {
      WithoutAt(running, i, t, latency);
      AppendRow(rows, r, t, latency);
    }
  }

  lemma BalancedStart(rows: seq<Row>, r: Row, running: seq<Job>, job: Job, latency: int)
    requires Balanced(rows, running, latency)
    requires r.Started? && r.time == job.due - latency && r.key == job.key && r.attempt == job.attempt
    ensures Balanced(rows + [r], running + [job], latency)
  {
    forall t ensures Starts(rows + [r], t) == Settlements(rows + [r], t, latency) + Pending(running + [job], t, latency) {
      AppendJob(running, job, t, latency);
      AppendRow(rows, r, t, latency);
    }
  }

  lemma BalancedOther(rows: seq<Row>, r: Row, running: seq<Job>, latency: int)
    requires Balanced(rows, running, latency) && r.Changed?
    ensures Balanced(rows + [r], running, latency)
  {
    forall t ensures Starts(rows + [r], t) == Settlements(rows + [r], t, latency) + Pending(running, t, latency) {
      AppendRow(rows, r, t, latency);
    }
  }

  lemma FinishKeeps(cfg: Config, st: State, job: Job, now: int)
    requires Inv(cfg, st, now, now)
    requires job in st.running && job.due == now
    ensures Inv(cfg, Finish(cfg, st, job, now), now, now)
  {
    var r := Ended(now, OutcomeOf(st, job), job.key, job.attempt);
    var next := Finish(cfg, st, job, now);
    assert DistinctKeys(next.running) by { WithoutDistinct(st.running, job.key); }
    assert DueWithin(next.running, now, now + cfg.latency) by { WithoutMembers(st.running, job.key); }
    assert Balanced(next.rows, next.running, cfg.latency) by {
      var i := PositionOf(st.running, job);
      BalancedEnd(st.rows, r, st.running, i, cfg.latency);
    }
    assert Spaced(next.rows, cfg.latency) by { SpacedNeutral(st.rows, r, cfg.latency); }
    assert BacksOff(next.rows, cfg.latency, cfg.backoff) by {
      StartsBeforeDue(cfg, st, job, now);
      BacksOffRow(st.rows, r, cfg.latency, cfg.backoff);
    }
    RemembersRow(st.rows, r, st.retryAfter, next.retryAfter, now, cfg.backoff);
  }

  lemma {:induction false} FinishDueKeeps(cfg: Config, st: State, todo: seq<Job>, now: int)
    requires Inv(cfg, st, now, now)
    requires DistinctKeys(todo)
    requires forall j :: j in todo ==> j in st.running
    requires forall j :: j in st.running && j.due == now ==> j in todo
    ensures Inv(cfg, FinishDue(cfg, st, todo, now), now, now + 1)
    decreases |todo|
  {
    if todo != [] {
      assert todo == [todo[0]] + todo[1..];
      RestDistinct(todo);
      if todo[0].due == now {
        FinishKeeps(cfg, st, todo[0], now);
        WithoutMembers(st.running, todo[0].key);
        FinishDueKeeps(cfg, Finish(cfg, st, todo[0], now), todo[1..], now);
      } else {
        FinishDueKeeps(cfg, st, todo[1..], now);
      }
    }
  }

  lemma ConsultKeeps(cfg: Config, st: State, source: Source, now: int)
    requires Inv(cfg, st, now, now + 1) && cfg.latency >= 1 && st.current.Some?
    ensures Inv(cfg, Consult(cfg, st, source, now), now, now + 1)
  {
    if Generates(cfg, st, source) && !Blocked(cfg, st, source, now) {
      var c := st.current.value;
      var job := NewJob(cfg, st, source, now);
      var r := Started(now, source, c.step, c.key, job.attempt, source == Watcher && c.key in st.retryAfter);
      var next := Consult(cfg, st, source, now);
      assert DistinctKeys(next.running) by { DistinctAppend(st.running, job); }
      assert DueWithin(next.running, now + 1, now + cfg.latency);
      assert Balanced(next.rows, next.running, cfg.latency) by {
        BalancedStart(st.rows, r, st.running, job, cfg.latency);
      }
      assert Spaced(next.rows, cfg.latency) by {
        StartsWhenIdle(cfg, st, c.key, now);
        SpacedStart(st.rows, r, cfg.latency);
      }
      BacksOffRow(st.rows, r, cfg.latency, cfg.backoff);
      RemembersRow(st.rows, r, st.retryAfter, st.retryAfter, now, cfg.backoff);
    }
  }

  lemma PollKeeps(cfg: Config, st: State, source: Source, now: int)
    requires Inv(cfg, st, now, now + 1) && cfg.latency >= 1 && cfg.watcherPeriod >= 1
    ensures Inv(cfg, Poll(cfg, st, source, now), now, now + 1)
  {
    if Active(cfg, source, now) && st.current.Some? {
      ConsultKeeps(cfg, st, source, now);
    }
  }

  lemma TickKeeps(cfg: Config, st: State, now: int)
    requires Inv(cfg, st, now, now) && cfg.latency >= 1 && cfg.watcherPeriod >= 1
    ensures Inv(cfg, Tick(cfg, st, now), now, now + 1)
  {
    ChangeKeeps(cfg, st, now);
    var changed := ApplyChange(cfg, st, now);
    FinishDueKeeps(cfg, changed, changed.running, now);
    var settled := Settled(cfg, st, now);
    PollKeeps(cfg, settled, Watcher, now);
    var watched := Poll(cfg, settled, Watcher, now);
    PollKeeps(cfg, watched, Refresh, now);
    var polled := Poll(cfg, watched, Refresh, now);
    assert Query(cfg, polled, now) == polled.(queries := Query(cfg, polled, now).queries);
  }

  lemma Later(cfg: Config, st: State, now: int)
    requires Inv(cfg, st, now, now + 1)
    ensures Inv(cfg, st, now + 1, now + 1)
  {
  }

  lemma {:induction false} Invariant(cfg: Config, n: nat)
    requires cfg.latency >= 1 && cfg.watcherPeriod >= 1
    ensures Inv(cfg, After(cfg, n), n - 1, n)
  {
    if n == 0 {
      assert INITIAL.rows == [] && INITIAL.running == [];
    } else {
      Invariant(cfg, n - 1);
      Later(cfg, After(cfg, n - 1), n - 2);
      TickKeeps(cfg, After(cfg, n - 1), n - 1);
    }
  }

  // ----- conservation -----

  ghost function CountStarted(rows: seq<Row>): nat {
    if rows == [] then 0 else CountStarted(rows[..|rows| - 1]) + (if rows[|rows| - 1].Started? then 1 else 0)
  }

  ghost function CountEnded(rows: seq<Row>, outcome: Outcome): nat {
    if rows == [] then 0
    else
      var r := rows[|rows| - 1];
      CountEnded(rows[..|rows| - 1], outcome) + (if r.Ended? && r.outcome == outcome then 1 else 0)
  }

  ghost predicate Conserved(rows: seq<Row>, running: seq<Job>) {
    CountStarted(rows) ==
    CountEnded(rows, Completed) + CountEnded(rows, Failure) + CountEnded(rows, StaleDiscarded) + |running|
  }

  lemma CountRow(rows: seq<Row>, r: Row)
    ensures CountStarted(rows + [r]) == CountStarted(rows) + (if r.Started? then 1 else 0)
    ensures forall o :: CountEnded(rows + [r], o) == CountEnded(rows, o) + (if r.Ended? && r.outcome == o then 1 else 0)
  {
    assert (rows + [r])[..|rows + [r]| - 1] == rows;
  }

  lemma {:induction false} FinishDueConserves(cfg: Config, st: State, todo: seq<Job>, now: int)
    requires DistinctKeys(st.running) && DistinctKeys(todo) && Conserved(st.rows, st.running)
    requires forall j :: j in todo ==> j in st.running
    ensures var next := FinishDue(cfg, st, todo, now); Conserved(next.rows, next.running)
    decreases |todo|
  {
    if todo != [] {
      assert todo == [todo[0]] + todo[1..];
      RestDistinct(todo);
      if todo[0].due == now {
        FinishConserves(cfg, st, todo[0], now);
        WithoutDistinct(st.running, todo[0].key);
        WithoutMembers(st.running, todo[0].key);
        FinishDueConserves(cfg, Finish(cfg, st, todo[0], now), todo[1..], now);
      } else {
        FinishDueConserves(cfg, st, todo[1..], now);
      }
    }
  }

  lemma FinishConserves(cfg: Config, st: State, job: Job, now: int)
    requires DistinctKeys(st.running) && job in st.running && Conserved(st.rows, st.running)
    ensures var next := Finish(cfg, st, job, now); Conserved(next.rows, next.running)
  {
    var i := PositionOf(st.running, job);
    WithoutAt(st.running, i, Token(0, job.key, 0), cfg.latency);
    CountRow(st.rows, Ended(now, OutcomeOf(st, job), job.key, job.attempt));
  }

  lemma ConsultConserves(cfg: Config, st: State, source: Source, now: int)
    requires st.current.Some? && Conserved(st.rows, st.running)
    ensures var next := Consult(cfg, st, source, now); Conserved(next.rows, next.running)
  {
    if Generates(cfg, st, source) && !Blocked(cfg, st, source, now) {
      var c := st.current.value;
      var job := NewJob(cfg, st, source, now);
      CountRow(st.rows, Started(now, source, c.step, c.key, job.attempt, source == Watcher && c.key in st.retryAfter));
    }
  }

  lemma PollConserves(cfg: Config, st: State, source: Source, now: int)
    requires cfg.watcherPeriod >= 1 && Conserved(st.rows, st.running)
    ensures var next := Poll(cfg, st, source, now); Conserved(next.rows, next.running)
  {
    if Active(cfg, source, now) && st.current.Some? {
      ConsultConserves(cfg, st, source, now);
    }
  }

  lemma TickConserves(cfg: Config, st: State, now: int)
    requires cfg.watcherPeriod >= 1 && DistinctKeys(st.running) && Conserved(st.rows, st.running)
    ensures var next := Tick(cfg, st, now); Conserved(next.rows, next.running)
  {
    var changed := ApplyChange(cfg, st, now);
    if now in cfg.changes {
      CountRow(st.rows, Changed(now, cfg.changes[now].step, cfg.changes[now].key));
    }
    FinishDueConserves(cfg, changed, changed.running, now);
    var settled := Settled(cfg, st, now);
    PollConserves(cfg, settled, Watcher, now);
    PollConserves(cfg, Poll(cfg, settled, Watcher, now), Refresh, now);
  }

  lemma {:induction false} FinishDueDistinct(cfg: Config, st: State, todo: seq<Job>, now: int)
    requires DistinctKeys(st.running)
    ensures DistinctKeys(FinishDue(cfg, st, todo, now).running)
    decreases |todo|
  {
    if todo != [] {
      WithoutDistinct(st.running, todo[0].key);
      FinishDueDistinct(cfg, if todo[0].due == now then Finish(cfg, st, todo[0], now) else st, todo[1..], now);
    }
  }

  lemma PollDistinct(cfg: Config, st: State, source: Source, now: int)
    requires cfg.watcherPeriod >= 1 && DistinctKeys(st.running)
    ensures DistinctKeys(Poll(cfg, st, source, now).running)
  {
    if Active(cfg, source, now) && st.current.Some? {
      if Generates(cfg, st, source) && !Blocked(cfg, st, source, now) {
        DistinctAppend(st.running, NewJob(cfg, st, source, now));
      }
    }
  }

  lemma TickDistinct(cfg: Config, st: State, now: int)
    requires cfg.watcherPeriod >= 1 && DistinctKeys(st.running)
    ensures DistinctKeys(Tick(cfg, st, now).running)
  {
    var changed := ApplyChange(cfg, st, now);
    FinishDueDistinct(cfg, changed, changed.running, now);
    var settled := Settled(cfg, st, now);
    PollDistinct(cfg, settled, Watcher, now);
    PollDistinct(cfg, Poll(cfg, settled, Watcher, now), Refresh, now);
  }

  ghost predicate Sound(st: State) {
    DistinctKeys(st.running) && Conserved(st.rows, st.running)
  }

  lemma TickSound(cfg: Config, st: State, now: int)
    requires cfg.watcherPeriod >= 1 && Sound(st)
    ensures Sound(Tick(cfg, st, now))
  {
    TickDistinct(cfg, st, now);
    TickConserves(cfg, st, now);
  }

  /** No generation is lost or counted twice, and no fingerprint is ever in flight twice, whatever the latency. */
  lemma {:induction false} Conservation(cfg: Config, n: nat)
    requires cfg.watcherPeriod >= 1
    ensures Conserved(After(cfg, n).rows, After(cfg, n).running) && DistinctKeys(After(cfg, n).running)
  {
    if n == 0 {
      assert INITIAL.rows == [] && INITIAL.running == [];
    } else {
      Conservation(cfg, n - 1);
      TickSound(cfg, After(cfg, n - 1), n - 1);
    }
  }

  lemma {:induction false} StartedOnce(rows: seq<Row>, t: Token, latency: int)
    requires Spaced(rows, latency) && latency >= 1
    ensures Starts(rows, t) <= 1
  {
    if rows != [] {
      var front := rows[..|rows| - 1];
      StartedOnce(front, t, latency);
      if StartsToken(rows[|rows| - 1], t) && Starts(front, t) > 0 {
        var i := LogOfStart(front, t);
        assert false;
      }
    }
  }

  /** Each job has exactly one outcome, dated exactly one latency after its start, as soon as that
      instant lies inside the horizon; before that it is in flight and has no outcome. */
  lemma OneOutcomePerJob(cfg: Config, n: nat, t: Token)
    requires cfg.latency >= 1 && cfg.watcherPeriod >= 1
    ensures var st := After(cfg, n);
      && Starts(st.rows, t) <= 1
      && Settlements(st.rows, t, cfg.latency) == (if t.start + cfg.latency < n then Starts(st.rows, t) else 0)
      && Pending(st.running, t, cfg.latency) == (if t.start + cfg.latency < n then 0 else Starts(st.rows, t))
  {
    Invariant(cfg, n);
    OutcomeWhenDue(cfg, After(cfg, n), n - 1, t);
  }

  lemma OutcomeWhenDue(cfg: Config, st: State, now: int, t: Token)
    requires Inv(cfg, st, now, now + 1) && cfg.latency >= 1
    ensures Starts(st.rows, t) <= 1
    ensures Settlements(st.rows, t, cfg.latency) == if t.start + cfg.latency <= now then Starts(st.rows, t) else 0
    ensures Pending(st.running, t, cfg.latency) == if t.start + cfg.latency <= now then 0 else Starts(st.rows, t)
  {
    StartedOnce(st.rows, t, cfg.latency);
    assert Starts(st.rows, t) == Settlements(st.rows, t, cfg.latency) + Pending(st.running, t, cfg.latency);
    if Settlements(st.rows, t, cfg.latency) > 0 {
      var i := LogOfSettlement(st.rows, t, cfg.latency);
    }
    if Pending(st.running, t, cfg.latency) > 0 {
      var j := JobOfPending(st.running, t, cfg.latency);
    }
  }

  /** No fingerprint ever has two jobs in flight, starts of one fingerprint are a latency apart, and a
      start that follows a failed one lies at least latency + backoff after it. */
  lemma StartSpacing(cfg: Config, n: nat)
    requires cfg.latency >= 1 && cfg.watcherPeriod >= 1
    ensures var st := After(cfg, n);
      && DistinctKeys(st.running)
      && Spaced(st.rows, cfg.latency)
      && (forall i, j, e :: 0 <= i < j < |st.rows| && 0 <= e < |st.rows| && st.rows[i].Started? && st.rows[j].Started?
            && Failed(st.rows[e]) && st.rows[i].key == st.rows[j].key == st.rows[e].key
            && st.rows[e].time == st.rows[i].time + cfg.latency
            ==> st.rows[i].time + cfg.latency + cfg.backoff <= st.rows[j].time)
  {
    Invariant(cfg, n);
  }

  // ----- without latency -----

  /** Nothing has ended, and every running job has missed its instant. */
  ghost predicate NothingEnds(st: State, now: int) {
    && st.stored == {} && st.baseline == None && st.retryAfter == map[]
    && (forall j :: j in st.running ==> j.due < now)
    && (forall r :: r in st.rows ==> !r.Ended?)
  }

  lemma {:induction false} NoneDue(cfg: Config, st: State, todo: seq<Job>, now: int)
    requires forall j :: j in todo ==> j.due < now
    ensures FinishDue(cfg, st, todo, now) == st
    decreases |todo|
  {
    if todo != [] {
      assert todo[0] in todo && forall j :: j in todo[1..] ==> j in todo;
      NoneDue(cfg, st, todo[1..], now);
    }
  }

  lemma ConsultEndsNothing(cfg: Config, st: State, source: Source, now: int)
    requires cfg.latency <= 0 && st.current.Some? && NothingEnds(st, now + 1)
    ensures NothingEnds(Consult(cfg, st, source, now), now + 1)
  {
    if Generates(cfg, st, source) && !Blocked(cfg, st, source, now) {
      assert NewJob(cfg, st, source, now).due < now + 1;
    }
  }

  lemma PollEndsNothing(cfg: Config, st: State, source: Source, now: int)
    requires cfg.latency <= 0 && cfg.watcherPeriod >= 1 && NothingEnds(st, now + 1)
    ensures NothingEnds(Poll(cfg, st, source, now), now + 1)
  {
    if Active(cfg, source, now) && st.current.Some? { ConsultEndsNothing(cfg, st, source, now); }
  }

  lemma TickEndsNothing(cfg: Config, st: State, now: int)
    requires cfg.latency <= 0 && cfg.watcherPeriod >= 1 && NothingEnds(st, now)
    ensures NothingEnds(Tick(cfg, st, now), now + 1)
  {
    var changed := ApplyChange(cfg, st, now);
    NoneDue(cfg, changed, changed.running, now);
    PollEndsNothing(cfg, changed, Watcher, now);
    PollEndsNothing(cfg, Poll(cfg, changed, Watcher, now), Refresh, now);
  }

  /** A latency of zero or less starts jobs that never end: completions are looked for before the starts of
      the same tick, and only at the very instant they are due. Nothing is ever stored. */
  lemma {:induction false} NoOutcomeWithoutLatency(cfg: Config, n: nat)
    requires cfg.latency <= 0 && cfg.watcherPeriod >= 1
    ensures NothingEnds(After(cfg, n), n)
  {
    if n > 0 {
      NoOutcomeWithoutLatency(cfg, n - 1);
      TickEndsNothing(cfg, After(cfg, n - 1), n - 1);
    }
  }

  lemma {:induction false} FinishDueGrows(cfg: Config, st: State, todo: seq<Job>, now: int)
    ensures st.rows <= FinishDue(cfg, st, todo, now).rows
    decreases |todo|
  {
    if todo != [] {
      FinishDueGrows(cfg, if todo[0].due == now then Finish(cfg, st, todo[0], now) else st, todo[1..], now);
    }
  }

  lemma TickGrows(cfg: Config, st: State, now: int)
    requires cfg.watcherPeriod >= 1
    ensures st.rows <= Tick(cfg, st, now).rows
  {
    var changed := ApplyChange(cfg, st, now);
    FinishDueGrows(cfg, changed, changed.running, now);
    var watched := Poll(cfg, Settled(cfg, st, now), Watcher, now);
    assert Settled(cfg, st, now).rows <= watched.rows <= Poll(cfg, watched, Refresh, now).rows;
  }

  /** The first change of a run at a watcher tick, with a decision to generate and an attempt to spend. */
  ghost predicate StartsAtOnce(cfg: Config) {
    && cfg.watcherPeriod >= 1 && cfg.maxAttempts >= 1 && 0 in cfg.changes
    && forall q :: cfg.decide(q).action == Generate
  }

  lemma FirstTickStarts(cfg: Config)
    requires StartsAtOnce(cfg)
    ensures |After(cfg, 1).rows| >= 2 && After(cfg, 1).rows[1].Started?
  {
    var settled := Settled(cfg, INITIAL, 0);
    var c := cfg.changes[0];
    assert settled == ApplyChange(cfg, INITIAL, 0);
    assert settled.rows == [Changed(0, c.step, c.key)] && settled.running == [];
    var watched := Poll(cfg, settled, Watcher, 0);
    assert 0 % cfg.watcherPeriod == 0;
    assert watched.rows == settled.rows + [Started(0, Watcher, c.step, c.key, 1, false)];
    assert watched.rows[1].Started? && watched.rows <= Tick(cfg, INITIAL, 0).rows;
    assert After(cfg, 1) == Tick(cfg, After(cfg, 0), 0);
  }

  lemma {:induction false} StartStaysLogged(cfg: Config, n: nat)
    requires StartsAtOnce(cfg) && n >= 1
    ensures |After(cfg, n).rows| >= 2 && After(cfg, n).rows[1].Started?
  {
    if n == 1 {
      FirstTickStarts(cfg);
    } else {
      StartStaysLogged(cfg, n - 1);
      TickGrows(cfg, After(cfg, n - 1), n - 1);
    }
  }

  /** Without latency such a run starts a generation, never ends one and never stores anything, however long it is. */
  lemma ZeroLatencyLosesTheStart(cfg: Config, n: nat)
    requires StartsAtOnce(cfg) && cfg.latency == 0 && n >= 1
    ensures |After(cfg, n).rows| >= 2 && After(cfg, n).rows[1].Started?
    ensures (forall r :: r in After(cfg, n).rows ==> !r.Ended?) && After(cfg, n).stored == {}
  {
    StartStaysLogged(cfg, n);
    NoOutcomeWithoutLatency(cfg, n);
  }
}
