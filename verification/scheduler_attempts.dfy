/** How often one fingerprint is attempted. */
module SchedulerAttempts {
  import opened Scheduler

  ghost function StartsOf(rows: seq<Row>, k: Key): nat {
    if rows == [] then 0
    else
      var r := rows[|rows| - 1];
      StartsOf(rows[..|rows| - 1], k) + (if r.Started? && r.key == k then 1 else 0)
  }

  /** Does the refresh of tick `now` clear the attempt counter of `k`? */
  ghost predicate ResetAt(cfg: Config, st: State, now: int, k: Key)
    requires cfg.watcherPeriod >= 1
  {
    var watched := Poll(cfg, Settled(cfg, st, now), Watcher, now);
    Active(cfg, Refresh, now) && Resets(cfg, watched, Refresh, k)
  }

  ghost function ResetCount(cfg: Config, n: nat, k: Key): nat
    requires cfg.watcherPeriod >= 1
  {
    if n == 0 then 0 else ResetCount(cfg, n - 1, k) + (if ResetAt(cfg, After(cfg, n - 1), n - 1, k) then 1 else 0)
  }

  ghost function Allowance(cfg: Config): nat {
    if cfg.maxAttempts < 0 then 0 else cfg.maxAttempts
  }

  /** `spent` attempts belong to counters that have been cleared since. */
  ghost predicate Budget(cfg: Config, st: State, k: Key, spent: int) {
    StartsOf(st.rows, k) <= spent + Lookup(st.attempts, k) && 0 <= Lookup(st.attempts, k) <= Allowance(cfg)
  }

  lemma StartsOfRow(rows: seq<Row>, r: Row, k: Key)
    ensures StartsOf(rows + [r], k) == StartsOf(rows, k) + (if r.Started? && r.key == k then 1 else 0)
  {
    assert (rows + [r])[..|rows + [r]| - 1] == rows;
  }

  lemma {:induction false} FinishDueSpends(cfg: Config, st: State, todo: seq<Job>, now: int, k: Key)
    ensures var next := FinishDue(cfg, st, todo, now);
      next.attempts == st.attempts && StartsOf(next.rows, k) == StartsOf(st.rows, k)
    decreases |todo|
  {
    if todo != [] {
      if todo[0].due == now {
        StartsOfRow(st.rows, Ended(now, OutcomeOf(st, todo[0]), todo[0].key, todo[0].attempt), k);
        FinishDueSpends(cfg, Finish(cfg, st, todo[0], now), todo[1..], now, k);
      } else {
        FinishDueSpends(cfg, st, todo[1..], now, k);
      }
    }
  }

  lemma SettledSpends(cfg: Config, st: State, now: int, k: Key)
    ensures var next := Settled(cfg, st, now);
      next.attempts == st.attempts && StartsOf(next.rows, k) == StartsOf(st.rows, k)
  {
    var changed := ApplyChange(cfg, st, now);
    if now in cfg.changes {
      StartsOfRow(st.rows, Changed(now, cfg.changes[now].step, cfg.changes[now].key), k);
    }
    FinishDueSpends(cfg, changed, changed.running, now, k);
  }

  /** A reset clears the counter of its key and no other. */
  lemma CounterAfterReset(cfg: Config, st: State, source: Source, k: Key)
    requires st.current.Some? && Generates(cfg, st, source)
    ensures Lookup(AttemptsAt(cfg, st, source), k) == if Resets(cfg, st, source, k) then 0 else Lookup(st.attempts, k)
  {
  }

  /** What a consultation does to the attempts and the starts of a key: nothing, a reset, or a start within the limit. */
  lemma ConsultCounts(cfg: Config, st: State, source: Source, now: int, k: Key)
    requires st.current.Some?
    ensures var next := Consult(cfg, st, source, now);
      var kept := if Resets(cfg, st, source, k) then 0 else Lookup(st.attempts, k);
      || (StartsOf(next.rows, k) == StartsOf(st.rows, k) && Lookup(next.attempts, k) == kept)
      || (StartsOf(next.rows, k) == StartsOf(st.rows, k) + 1 && Lookup(next.attempts, k) == kept + 1 <= cfg.maxAttempts)
  {
    if Generates(cfg, st, source) {
      CounterAfterReset(cfg, st, source, k);
      if !Blocked(cfg, st, source, now) {
        var c, job := st.current.value, NewJob(cfg, st, source, now);
        StartsOfRow(st.rows, Started(now, source, c.step, c.key, job.attempt, source == Watcher && c.key in st.retryAfter), k);
      }
    }
  }

  lemma ConsultSpends(cfg: Config, st: State, source: Source, now: int, k: Key, spent: int)
    requires st.current.Some? && Budget(cfg, st, k, spent)
    ensures Budget(cfg, Consult(cfg, st, source, now), k, spent + if Resets(cfg, st, source, k) then Allowance(cfg) else 0)
  {
    ConsultCounts(cfg, st, source, now, k);
  }

  lemma PollSpends(cfg: Config, st: State, source: Source, now: int, k: Key, spent: int)
    requires cfg.watcherPeriod >= 1 && Budget(cfg, st, k, spent)
    ensures var reset := Active(cfg, source, now) && Resets(cfg, st, source, k);
      Budget(cfg, Poll(cfg, st, source, now), k, spent + if reset then Allowance(cfg) else 0)
  {
    if Active(cfg, source, now) && st.current.Some? {
      ConsultSpends(cfg, st, source, now, k, spent);
    }
  }

  lemma TickSpends(cfg: Config, st: State, now: int, k: Key, spent: int)
    requires cfg.watcherPeriod >= 1 && Budget(cfg, st, k, spent)
    ensures Budget(cfg, Tick(cfg, st, now), k, spent + if ResetAt(cfg, st, now, k) then Allowance(cfg) else 0)
  {
    SettledSpends(cfg, st, now, k);
    var settled := Settled(cfg, st, now);
    PollSpends(cfg, settled, Watcher, now, k, spent);
    var watched := Poll(cfg, settled, Watcher, now);
    PollSpends(cfg, watched, Refresh, now, k, spent);
    var polled := Poll(cfg, watched, Refresh, now);
    assert Query(cfg, polled, now) == polled.(queries := Query(cfg, polled, now).queries);
  }

  /** The attempts that refresh resets have given back so far. */
  ghost function Returned(cfg: Config, n: nat, k: Key): nat
    requires cfg.watcherPeriod >= 1
  {
    if n == 0 then 0
    else Returned(cfg, n - 1, k) + (if ResetAt(cfg, After(cfg, n - 1), n - 1, k) then Allowance(cfg) else 0)
  }

  lemma Distribute(a: int, r: int)
    ensures a * (r + 1) == a * r + a
  {
  }

  lemma {:induction false} ReturnedProduct(cfg: Config, n: nat, k: Key)
    requires cfg.watcherPeriod >= 1
    ensures Returned(cfg, n, k) == Allowance(cfg) * ResetCount(cfg, n, k)
  {
    if n > 0 {
      ReturnedProduct(cfg, n - 1, k);
      Distribute(Allowance(cfg), ResetCount(cfg, n - 1, k));
    }
  }

  lemma {:induction false} Spending(cfg: Config, n: nat, k: Key)
    requires cfg.watcherPeriod >= 1
    ensures Budget(cfg, After(cfg, n), k, Returned(cfg, n, k))
  {
    if n > 0 {
      Spending(cfg, n - 1, k);
      TickSpends(cfg, After(cfg, n - 1), n - 1, k, Returned(cfg, n - 1, k));
    }
  }

  /** Starts of one fingerprint never exceed the attempt limit times one plus its refresh resets. */
  lemma AttemptBound(cfg: Config, n: nat, k: Key)
    requires cfg.watcherPeriod >= 1
    ensures StartsOf(After(cfg, n).rows, k) <= Allowance(cfg) * (1 + ResetCount(cfg, n, k))
  {
    Spending(cfg, n, k);
    ReturnedProduct(cfg, n, k);
    Distribute(Allowance(cfg), ResetCount(cfg, n, k));
  }
}
