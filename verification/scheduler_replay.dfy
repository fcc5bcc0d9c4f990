/** What the log tells about a whole run: the store is the replay of the log, and query hits are logged
    completions. */
module SchedulerReplay {
  import opened Scheduler
  import opened SchedulerLog

  /** Each start and each outcome in the log fits what the log before it says is current. */
  lemma OnlyCurrentCompletes(cfg: Config, n: nat, i: nat)
    requires cfg.watcherPeriod >= 1 && i < |After(cfg, n).rows|
    ensures Fits(After(cfg, n).rows[..i], After(cfg, n).rows[i])
  {
    LogInvariant(cfg, n);
    HonestAt(After(cfg, n).rows, i);
  }

  /** The store, the current key and the remembered baseline are exactly what replaying the log gives,
      so a failed or stale completion never enters the store nor moves the baseline; only a key that
      is current is started or completed. */
  lemma StoreIsLogReplay(cfg: Config, n: nat)
    requires cfg.watcherPeriod >= 1
    ensures var st := After(cfg, n);
      && Replay(st.rows) == Memory(st.stored, KeyOf(st.current), KeyOf(st.baseline))
      && Honest(st.rows)
      && (forall k :: k in st.stored <==> CompletedBy(st.rows, k, n))
  {
    LogInvariant(cfg, n);
    var st := After(cfg, n);
    forall k ensures k in st.stored <==> CompletedBy(st.rows, k, n) {
      StoredIsLogged(st.rows, k, n);
    }
  }

  /** A query reports a hit exactly when the log already holds a completion of the queried key. */
  lemma LoggedHits(cfg: Config, n: nat, q: QueryRow)
    requires cfg.watcherPeriod >= 1 && q in After(cfg, n).queries
    ensures q.hit <==> q.key.Some? && CompletedBy(After(cfg, n).rows, q.key.value, q.time)
  {
    LogInvariant(cfg, n);
  }

  lemma {:induction false} FinishDueStores(cfg: Config, st: State, todo: seq<Job>, now: int)
    ensures st.stored <= FinishDue(cfg, st, todo, now).stored
    decreases |todo|
  {
    if todo != [] {
      FinishDueStores(cfg, if todo[0].due == now then Finish(cfg, st, todo[0], now) else st, todo[1..], now);
    }
  }

  lemma TickStores(cfg: Config, st: State, now: int)
    requires cfg.watcherPeriod >= 1
    ensures st.stored <= Settled(cfg, st, now).stored == Tick(cfg, st, now).stored
  {
    var changed := ApplyChange(cfg, st, now);
    FinishDueStores(cfg, changed, changed.running, now);
    var settled := Settled(cfg, st, now);
    var watched := Poll(cfg, settled, Watcher, now);
    assert watched.stored == settled.stored;
    assert Poll(cfg, watched, Refresh, now).stored == settled.stored;
  }

  lemma StepStores(cfg: Config, k: Key, n: nat)
    requires cfg.watcherPeriod >= 1 && k in After(cfg, n).stored
    ensures k in After(cfg, n + 1).stored
  {
    TickStores(cfg, After(cfg, n), n);
  }

  /** What is stored stays stored. */
  lemma {:induction false} StaysStored(cfg: Config, k: Key, m: nat, n: nat)
    requires cfg.watcherPeriod >= 1 && m <= n && k in After(cfg, m).stored
    ensures k in After(cfg, n).stored
    decreases n - m
  {
    if m < n {
      StepStores(cfg, k, m);
      StaysStored(cfg, k, m + 1, n);
    }
  }
}
