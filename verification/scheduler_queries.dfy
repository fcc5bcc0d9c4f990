/** The queries of a run: when they are made, what they ask for and what they find. */
module SchedulerQueries {
  import opened Wrappers
  import opened Scheduler
  import opened SchedulerLog
  import opened SchedulerReplay
  import opened SchedulerSummary

  /** The query rows are, in order, one for each query time below `n`, each for the key current at that time. */
  ghost predicate FollowCalendar(cfg: Config, queries: seq<QueryRow>, n: nat) {
    if n == 0 then queries == []
    else if n - 1 !in cfg.queries then FollowCalendar(cfg, queries, n - 1)
    else
      && queries != []
      && FollowCalendar(cfg, queries[..|queries| - 1], n - 1)
      && queries[|queries| - 1].time == n - 1
      && queries[|queries| - 1].key == KeyOf(CurrentAt(cfg.changes, n - 1))
  }

  lemma PollLeaves(cfg: Config, st: State, source: Source, now: int)
    requires cfg.watcherPeriod >= 1
    ensures Poll(cfg, st, source, now).queries == st.queries && Poll(cfg, st, source, now).current == st.current
  {
  }

  /** A tick asks one query, for the entry that is current after its change, if the calendar has one then. */
  lemma TickQueries(cfg: Config, st: State, now: int)
    requires cfg.watcherPeriod >= 1
    ensures var next, key := Tick(cfg, st, now), KeyOf(ApplyChange(cfg, st, now).current);
      && next.current == ApplyChange(cfg, st, now).current
      && (if now in cfg.queries then next.queries == st.queries + [QueryRow(now, key, key.Some? && key.value in next.stored)]
          else next.queries == st.queries)
  {
    var changed := ApplyChange(cfg, st, now);
    FinishDueLeaves(cfg, changed, changed.running, now);
    var settled := Settled(cfg, st, now);
    PollLeaves(cfg, settled, Watcher, now);
    PollLeaves(cfg, Poll(cfg, settled, Watcher, now), Refresh, now);
  }

  ghost predicate OnCalendar(cfg: Config, st: State, n: nat) {
    && st.current == (if n == 0 then None else CurrentAt(cfg.changes, n - 1))
    && FollowCalendar(cfg, st.queries, n)
  }

  lemma TickOnCalendar(cfg: Config, st: State, n: nat)
    requires cfg.watcherPeriod >= 1 && OnCalendar(cfg, st, n)
    ensures OnCalendar(cfg, Tick(cfg, st, n), n + 1)
  {
    TickQueries(cfg, st, n);
    if n in cfg.queries {
      var next := Tick(cfg, st, n);
      assert next.queries[..|next.queries| - 1] == st.queries;
    }
  }

  lemma {:induction false} RunOnCalendar(cfg: Config, n: nat)
    requires cfg.watcherPeriod >= 1
    ensures OnCalendar(cfg, After(cfg, n), n)
  {
    if n > 0 {
      RunOnCalendar(cfg, n - 1);
      TickOnCalendar(cfg, After(cfg, n - 1), n - 1);
    }
  }

  /** What following the calendar means: every row is at a query time and for the key current then, and every query
      time has a row. */
  lemma {:induction false} CalendarMeans(cfg: Config, queries: seq<QueryRow>, n: nat)
    requires FollowCalendar(cfg, queries, n)
    ensures forall q :: q in queries ==> 0 <= q.time < n && q.time in cfg.queries && q.key == KeyOf(CurrentAt(cfg.changes, q.time))
    ensures forall u: nat :: u < n && u in cfg.queries ==> exists q :: q in queries && q.time == u
  {
    if n > 0 && n - 1 in cfg.queries {
      var last := |queries| - 1;
      CalendarMeans(cfg, queries[..last], n - 1);
      assert queries == queries[..last] + [queries[last]];
      assert queries[last] in queries;
    } else if n > 0 {
      CalendarMeans(cfg, queries, n - 1);
    }
  }

  lemma QueryRowMeans(cfg: Config, n: nat, q: QueryRow)
    requires cfg.watcherPeriod >= 1 && q in After(cfg, n).queries
    ensures 0 <= q.time < n && q.time in cfg.queries && q.key == KeyOf(CurrentAt(cfg.changes, q.time))
  {
    RunOnCalendar(cfg, n);
    CalendarMeans(cfg, After(cfg, n).queries, n);
  }

  lemma EveryQueryHasARow(cfg: Config, n: nat, u: nat) returns (q: QueryRow)
    requires cfg.watcherPeriod >= 1 && u < n && u in cfg.queries
    ensures q in After(cfg, n).queries && q.time == u
  {
    RunOnCalendar(cfg, n);
    CalendarMeans(cfg, After(cfg, n).queries, n);
    q :| q in After(cfg, n).queries && q.time == u;
  }

  /** A query made at a time of the calendar asks for the key current then, and hits exactly when the log holds a
      completion of that key at or before that time. */
  lemma HitsAreLoggedCompletions(cfg: Config, n: nat, q: QueryRow)
    requires cfg.watcherPeriod >= 1 && q in After(cfg, n).queries
    ensures 0 <= q.time < n && q.time in cfg.queries
    ensures var current := CurrentAt(cfg.changes, q.time);
      && q.key == KeyOf(current)
      && (q.hit <==> current.Some? && exists i ::
            0 <= i < |After(cfg, n).rows| && Completes(After(cfg, n).rows[i], current.value.key, q.time))
  {
    QueryRowMeans(cfg, n, q);
    LoggedHits(cfg, n, q);
    if q.key.Some? { CompletedMeans(After(cfg, n).rows, q.key.value, q.time); }
  }

  /** The run raises exactly at the queries that come before every change. */
  lemma RaisesBeforeFirstChange(cfg: Config, u: nat)
    requires cfg.watcherPeriod >= 1
    ensures RaisesAt(cfg, After(cfg, u), u) <==> u in cfg.queries && forall t: nat :: t <= u ==> t !in cfg.changes
  {
    RunOnCalendar(cfg, u);
    NoneCurrent(cfg.changes, u);
    if u > 0 { NoneCurrent(cfg.changes, u - 1); }
  }

  lemma {:induction false} NoneCurrent(changes: map<int, Change>, u: nat)
    ensures CurrentAt(changes, u).None? <==> forall t: nat :: t <= u ==> t !in changes
  {
    if u > 0 { NoneCurrent(changes, u - 1); }
  }

  /** A run gets through without an exception exactly when no query comes before every change. */
  lemma CompletesExactlyWhen(cfg: Config, n: nat)
    requires cfg.watcherPeriod >= 1
    ensures NoneRaises(cfg, n) <==>
      forall u: nat :: u < n && u in cfg.queries ==> CurrentAt(cfg.changes, u).Some?
  {
    RaisesWithoutStep(cfg, n);
    EachFindsStep(cfg, n);
  }

  /** Every query below `n` finds a current step. */
  ghost predicate FindsSteps(cfg: Config, n: nat) {
    n == 0 || (FindsSteps(cfg, n - 1) && (n - 1 in cfg.queries ==> CurrentAt(cfg.changes, n - 1).Some?))
  }

  lemma {:induction false} EachFindsStep(cfg: Config, n: nat)
    ensures FindsSteps(cfg, n) <==> forall u: nat :: u < n && u in cfg.queries ==> CurrentAt(cfg.changes, u).Some?
  {
    if n > 0 { EachFindsStep(cfg, n - 1); }
  }

  lemma RaisesHere(cfg: Config, u: nat)
    requires cfg.watcherPeriod >= 1
    ensures RaisesAt(cfg, After(cfg, u), u) <==> u in cfg.queries && CurrentAt(cfg.changes, u).None?
  {
    RaisesBeforeFirstChange(cfg, u);
    NoneCurrent(cfg.changes, u);
  }

  lemma {:induction false} RaisesWithoutStep(cfg: Config, n: nat)
    requires cfg.watcherPeriod >= 1
    ensures NoneRaises(cfg, n) <==> FindsSteps(cfg, n)
  {
    if n > 0 {
      RaisesWithoutStep(cfg, n - 1);
      RaisesHere(cfg, n - 1);
    }
  }
}
