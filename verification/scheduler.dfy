/** The discrete-time generation scheduler: one tick is change, completion, watcher, refresh, query. */
module Scheduler {
  import opened Wrappers
  import opened GenerationPolicy

  type Key = string

  /** One entry of the change calendar: the snapshot that becomes current, with its fingerprint. */
  datatype Change = Change(step: nat, key: Key, valid: bool, packet: string)

  datatype Source = Watcher | Refresh

  datatype Outcome = Failure | Completed | StaleDiscarded

  datatype Job = Job(key: Key, due: int, attempt: int, fail: bool, change: Change)

  datatype Row =
    | Changed(time: int, step: nat, key: Key)
    | Ended(time: int, outcome: Outcome, key: Key, attempt: int)
    | Started(time: int, source: Source, step: nat, key: Key, attempt: int, retry: bool)

  datatype DecisionRow = DecisionRow(time: int, source: Source, step: nat, key: Key, trace: Trace, guarded: bool)

  datatype QueryRow = QueryRow(time: int, key: Option<Key>, hit: bool)

  /** The arguments of one decision. */
  datatype Inquiry = Inquiry(
    current: Change,
    previous: Option<Key>,
    exact: bool,
    refresh: bool,
    baseline: Option<Change>)

  /** Calendars, timing and profile of one scenario. `decide` is any decision procedure. */
  datatype Config = Config(
    changes: map<int, Change>,
    refreshes: set<int>,
    queries: set<int>,
    watcherPeriod: int,
    backoff: int,
    maxAttempts: int,
    latency: int,
    failFirst: set<nat>,
    decide: Inquiry -> Trace)

  /** `running` lists the jobs in the order they were started; no key occurs twice. */
  datatype State = State(
    stored: set<Key>,
    running: seq<Job>,
    attempts: map<Key, int>,
    retryAfter: map<Key, int>,
    current: Option<Change>,
    previous: Option<Key>,
    baseline: Option<Change>,
    rows: seq<Row>,
    decisions: seq<DecisionRow>,
    queries: seq<QueryRow>)

  const INITIAL := State({}, [], map[], map[], None, None, None, [], [], [])

  /** The decision procedure the evaluation plugs in. */
  function PolicyDecider(policy: Policy, material: (Change, Option<Change>) -> bool): Inquiry -> Trace {
    (q: Inquiry) => Decide(policy, SimulatorFacts(q.exact, q.refresh, material(q.current, q.baseline), q.current.valid))
  }

  function Lookup(m: map<Key, int>, k: Key): int {
    if k in m then m[k] else 0
  }

  predicate InFlight(running: seq<Job>, k: Key) {
    exists i :: 0 <= i < |running| && running[i].key == k
  }

  function Without(running: seq<Job>, k: Key): seq<Job> {
    if running == [] then []
    else
      var rest := Without(running[..|running| - 1], k);
      if running[|running| - 1].key == k then rest else rest + [running[|running| - 1]]
  }

  predicate IsCurrent(st: State, k: Key) {
    st.current.Some? && st.current.value.key == k
  }

  function OutcomeOf(st: State, job: Job): Outcome {
    if job.fail then Failure else if IsCurrent(st, job.key) then Completed else StaleDiscarded
  }

  function ApplyChange(cfg: Config, st: State, now: int): State {
    if now !in cfg.changes then st
    else
      var c := cfg.changes[now];
      st.(previous := if st.current.Some? then Some(st.current.value.key) else None,
          current := Some(c),
          rows := st.rows + [Changed(now, c.step, c.key)])
  }

  function Finish(cfg: Config, st: State, job: Job, now: int): State {
    var outcome := OutcomeOf(st, job);
    st.(running := Without(st.running, job.key),
        stored := if outcome == Completed then st.stored + {job.key} else st.stored,
        baseline := if outcome == Completed then Some(job.change) else st.baseline,
        retryAfter := if outcome == Failure then st.retryAfter[job.key := now + cfg.backoff] else st.retryAfter,
        rows := st.rows + [Ended(now, outcome, job.key, job.attempt)])
  }

  function FinishDue(cfg: Config, st: State, todo: seq<Job>, now: int): State
    decreases |todo|
  {
    if todo == [] then st
    else FinishDue(cfg, if todo[0].due == now then Finish(cfg, st, todo[0], now) else st, todo[1..], now)
  }

  function InquiryFor(st: State, source: Source): Inquiry
    requires st.current.Some?
  {
    var c := st.current.value;
    Inquiry(c, st.previous, c.key in st.stored, source == Refresh, st.baseline)
  }

  predicate Generates(cfg: Config, st: State, source: Source)
    requires st.current.Some?
  {
    cfg.decide(InquiryFor(st, source)).action == Generate
  }

  /** A refresh that is granted while nothing is in flight for the key clears its attempt counter. */
  predicate Resets(cfg: Config, st: State, source: Source, k: Key) {
    IsCurrent(st, k) && Generates(cfg, st, source) && source == Refresh && !InFlight(st.running, k)
  }

  function AttemptsAt(cfg: Config, st: State, source: Source): map<Key, int>
    requires st.current.Some?
  {
    var k := st.current.value.key;
    if Resets(cfg, st, source, k) then st.attempts[k := 0] else st.attempts
  }

  predicate Blocked(cfg: Config, st: State, source: Source, now: int)
    requires st.current.Some?
  {
    var k := st.current.value.key;
    || InFlight(st.running, k)
    || now < Lookup(st.retryAfter, k)
    || Lookup(AttemptsAt(cfg, st, source), k) + 1 > cfg.maxAttempts
  }

  function NewJob(cfg: Config, st: State, source: Source, now: int): Job
    requires st.current.Some?
  {
    var c := st.current.value;
    var attempt := Lookup(AttemptsAt(cfg, st, source), c.key) + 1;
    Job(c.key, now + cfg.latency, attempt, attempt == 1 && c.step in cfg.failFirst, c)
  }

  function Consult(cfg: Config, st: State, source: Source, now: int): State
    requires st.current.Some?
  {
    var c := st.current.value;
    var generates := Generates(cfg, st, source);
    var guarded := generates && Blocked(cfg, st, source, now);
    var row := DecisionRow(now, source, c.step, c.key, cfg.decide(InquiryFor(st, source)), guarded);
    var asked := st.(decisions := st.decisions + [row]);
    if !generates then asked
    else if guarded then asked.(attempts := AttemptsAt(cfg, st, source))
    else
      var job := NewJob(cfg, st, source, now);
      asked.(
        attempts := AttemptsAt(cfg, st, source)[c.key := job.attempt],
        running := st.running + [job],
        rows := st.rows + [Started(now, source, c.step, c.key, job.attempt, source == Watcher && c.key in st.retryAfter)])
  }

  predicate Active(cfg: Config, source: Source, now: int)
    requires cfg.watcherPeriod >= 1
  {
    if source == Watcher then now % cfg.watcherPeriod == 0 else now in cfg.refreshes
  }

  function Poll(cfg: Config, st: State, source: Source, now: int): State
    requires cfg.watcherPeriod >= 1
  {
    if Active(cfg, source, now) && st.current.Some? then Consult(cfg, st, source, now) else st
  }

  function Query(cfg: Config, st: State, now: int): State {
    if now !in cfg.queries then st
    else
      var key := if st.current.Some? then Some(st.current.value.key) else None;
      st.(queries := st.queries + [QueryRow(now, key, key.Some? && key.value in st.stored)])
  }

  function Settled(cfg: Config, st: State, now: int): State {
    var changed := ApplyChange(cfg, st, now);
    FinishDue(cfg, changed, changed.running, now)
  }

  function Tick(cfg: Config, st: State, now: int): State
    requires cfg.watcherPeriod >= 1
  {
    Query(cfg, Poll(cfg, Poll(cfg, Settled(cfg, st, now), Watcher, now), Refresh, now), now)
  }

  /** A query before the first change reads a step that is not set yet, and raises. */
  predicate RaisesAt(cfg: Config, st: State, now: int) {
    now in cfg.queries && ApplyChange(cfg, st, now).current.None?
  }

  /** The state after the ticks 0 .. n-1. */
  function After(cfg: Config, n: nat): State
    requires cfg.watcherPeriod >= 1
  {
    if n == 0 then INITIAL else Tick(cfg, After(cfg, n - 1), n - 1)
  }

  /** No query before tick `n` raises. */
  ghost predicate NoneRaises(cfg: Config, n: nat)
    requires cfg.watcherPeriod >= 1
  {
    n > 0 ==> NoneRaises(cfg, n - 1) && !RaisesAt(cfg, After(cfg, n - 1), n - 1)
  }

  /** Completions change neither the current entry nor the decisions and queries made so far. */
  lemma {:induction false} FinishDueLeaves(cfg: Config, st: State, todo: seq<Job>, now: int)
    ensures var next := FinishDue(cfg, st, todo, now);
      next.current == st.current && next.decisions == st.decisions && next.queries == st.queries
    decreases |todo|
  {
    if todo != [] {
      FinishDueLeaves(cfg, if todo[0].due == now then Finish(cfg, st, todo[0], now) else st, todo[1..], now);
    }
  }

  /** The mutable simulation; every method is the corresponding state function. */
  class Simulation {
    const cfg: Config
    var stored: set<Key>
    var running: seq<Job>
    var attempts: map<Key, int>
    var retryAfter: map<Key, int>
    var current: Option<Change>
    var previous: Option<Key>
    var baseline: Option<Change>
    var rows: seq<Row>
    var decisions: seq<DecisionRow>
    var queries: seq<QueryRow>

    ghost function View(): State
      reads this
    {
      State(stored, running, attempts, retryAfter, current, previous, baseline, rows, decisions, queries)
    }

    constructor (cfg: Config)
      ensures this.cfg == cfg && View() == INITIAL
    {
      this.cfg := cfg;
      stored, running, attempts, retryAfter := {}, [], map[], map[];
      current, previous, baseline := None, None, None;
      rows, decisions, queries := [], [], [];
    }

    /** The loop over the jobs that were running when the tick began. */
    method CompleteDue(now: int)
      modifies this
      ensures View() == FinishDue(cfg, old(View()), old(running), now)
    {
      var todo := running;
      var i := 0;
      while i < |todo|
        invariant 0 <= i <= |todo|
        invariant FinishDue(cfg, View(), todo[i..], now) == FinishDue(cfg, old(View()), todo, now)
      {
        var job := todo[i];
        assert todo[i..][1..] == todo[i + 1..];
        if job.due == now {
          var outcome := if job.fail then Failure
                         else if current.Some? && current.value.key == job.key then Completed
                         else StaleDiscarded;
          running := Without(running, job.key);
          if outcome == Completed {
            stored := stored + {job.key};
            baseline := Some(job.change);
          }
          if outcome == Failure {
            retryAfter := retryAfter[job.key := now + cfg.backoff];
          }
          rows := rows + [Ended(now, outcome, job.key, job.attempt)];
        }
        i := i + 1;
      }
    }

    method Ask(source: Source, now: int)
      requires current.Some?
      modifies this
      ensures View() == Consult(cfg, old(View()), source, now)
    {
      var c := current.value;
      var trace := cfg.decide(Inquiry(c, previous, c.key in stored, source == Refresh, baseline));
      var guarded := false;
      if trace.action == Generate {
        var inFlight := InFlight(running, c.key);
        if source == Refresh && !inFlight {
          attempts := attempts[c.key := 0];
        }
        var attempt := Lookup(attempts, c.key) + 1;
        if inFlight || now < Lookup(retryAfter, c.key) || attempt > cfg.maxAttempts {
          guarded := true;
        } else {
          attempts := attempts[c.key := attempt];
          running := running + [Job(c.key, now + cfg.latency, attempt, attempt == 1 && c.step in cfg.failFirst, c)];
          rows := rows + [Started(now, source, c.step, c.key, attempt, source == Watcher && c.key in retryAfter)];
        }
      }
      decisions := decisions + [DecisionRow(now, source, c.step, c.key, trace, guarded)];
    }

    method Change(now: int)
      modifies this
      ensures View() == ApplyChange(cfg, old(View()), now)
    {
      if now in cfg.changes {
        var c := cfg.changes[now];
        previous := if current.Some? then Some(current.value.key) else None;
        current := Some(c);
        rows := rows + [Changed(now, c.step, c.key)];
      }
    }

    method AskQuery(now: int) returns (raised: bool)
      modifies this
      ensures raised == (now in cfg.queries && old(current).None?)
      ensures View() == if raised then old(View()) else Query(cfg, old(View()), now)
    {
      if now in cfg.queries {
        if current.None? { return true; }
        var key := current.value.key;
        queries := queries + [QueryRow(now, Some(key), key in stored)];
      }
      return false;
    }

    method Advance(now: int) returns (raised: bool)
      requires cfg.watcherPeriod >= 1
      modifies this
      ensures raised == RaisesAt(cfg, old(View()), now)
      ensures !raised ==> View() == Tick(cfg, old(View()), now)
    {
      Change(now);
      FinishDueLeaves(cfg, View(), running, now);
      CompleteDue(now);
      if now % cfg.watcherPeriod == 0 && current.Some? {
        Ask(Watcher, now);
      }
      if now in cfg.refreshes && current.Some? {
        Ask(Refresh, now);
      }
      raised := AskQuery(now);
    }

    /** The whole run, or the tick at which a query raises. */
    method Run(endSeconds: nat) returns (raisedAt: Option<nat>)
      requires cfg.watcherPeriod >= 1
      requires View() == INITIAL
      modifies this
      ensures raisedAt.None? ==> View() == After(cfg, endSeconds + 1) && NoneRaises(cfg, endSeconds + 1)
      ensures raisedAt.Some? ==>
        raisedAt.value <= endSeconds && NoneRaises(cfg, raisedAt.value) && RaisesAt(cfg, After(cfg, raisedAt.value), raisedAt.value)
    {
      for now := 0 to endSeconds + 1
        invariant View() == After(cfg, now) && NoneRaises(cfg, now)
      {
        var raised := Advance(now);
        if raised { return Some(now); }
      }
      return None;
    }
  }
}
