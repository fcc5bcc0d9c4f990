/** Bounded liveness: a fresh fingerprint that stays current is stored in time. */
module SchedulerLiveness {
  import opened Wrappers
  import opened GenerationPolicy
  import opened Division
  import opened Scheduler
  import Safety = SchedulerSafety
  import Replay = SchedulerReplay

  /** Everything the state knows about one key. */
  datatype Slot = Slot(stored: bool, jobs: set<Job>, attempts: int, retryAfter: int)

  const UNTOUCHED := Slot(false, {}, 0, 0)

  ghost function SlotOf(st: State, k: Key): Slot {
    Slot(k in st.stored, (set j | j in st.running && j.key == k), Lookup(st.attempts, k), Lookup(st.retryAfter, k))
  }

  /** The slot once the job that is due has ended while its key is current. */
  ghost function Landed(cfg: Config, s: Slot, job: Job): Slot {
    if job.fail then s.(jobs := {}, retryAfter := job.due + cfg.backoff) else s.(stored := true, jobs := {})
  }

  // ----- effect of one phase on one slot -----

  lemma InFlightSlot(st: State, k: Key)
    ensures InFlight(st.running, k) <==> SlotOf(st, k).jobs != {}
  {
    if i :| 0 <= i < |st.running| && st.running[i].key == k {
      assert st.running[i] in SlotOf(st, k).jobs;
    }
    if j :| j in SlotOf(st, k).jobs {
      assert j in st.running;
    }
  }

  lemma FinishOther(cfg: Config, st: State, job: Job, now: int, k: Key)
    requires job.key != k
    ensures SlotOf(Finish(cfg, st, job, now), k) == SlotOf(st, k)
  {
    Safety.WithoutMembers(st.running, job.key);
  }

  lemma FinishOwn(cfg: Config, st: State, job: Job)
    requires IsCurrent(st, job.key)
    ensures SlotOf(Finish(cfg, st, job, job.due), job.key) == Landed(cfg, SlotOf(st, job.key), job)
  {
    Safety.WithoutMembers(st.running, job.key);
  }

  lemma {:induction false} FinishDueOthers(cfg: Config, st: State, todo: seq<Job>, now: int, k: Key)
    requires forall j :: j in todo && j.key == k ==> j.due != now
    ensures SlotOf(FinishDue(cfg, st, todo, now), k) == SlotOf(st, k)
    ensures FinishDue(cfg, st, todo, now).current == st.current
    decreases |todo|
  {
    if todo != [] {
      assert todo[0] in todo;
      if todo[0].due == now {
        FinishOther(cfg, st, todo[0], now, k);
        FinishDueOthers(cfg, Finish(cfg, st, todo[0], now), todo[1..], now, k);
      } else {
        FinishDueOthers(cfg, st, todo[1..], now, k);
      }
    }
  }

  lemma {:induction false} FinishDueOwn(cfg: Config, st: State, todo: seq<Job>, job: Job)
    requires Safety.DistinctKeys(todo) && job in todo && IsCurrent(st, job.key)
    ensures SlotOf(FinishDue(cfg, st, todo, job.due), job.key) == Landed(cfg, SlotOf(st, job.key), job)
    ensures FinishDue(cfg, st, todo, job.due).current == st.current
    decreases |todo|
  {
    Safety.RestDistinct(todo);
    if todo[0] == job {
      FinishOwn(cfg, st, job);
      FinishDueOthers(cfg, Finish(cfg, st, job, job.due), todo[1..], job.due, job.key);
    } else {
      Safety.MemberOfRest(todo, job);
      if todo[0].due == job.due {
        FinishOther(cfg, st, todo[0], job.due, job.key);
        FinishDueOwn(cfg, Finish(cfg, st, todo[0], job.due), todo[1..], job);
      } else {
        FinishDueOwn(cfg, st, todo[1..], job);
      }
    }
  }

  /** A key that is not current is left alone by both sources. */
  lemma PollOther(cfg: Config, st: State, source: Source, now: int, k: Key)
    requires cfg.watcherPeriod >= 1 && !IsCurrent(st, k)
    ensures SlotOf(Poll(cfg, st, source, now), k) == SlotOf(st, k)
    ensures Poll(cfg, st, source, now).current == st.current
  {
  }

  lemma TickOther(cfg: Config, st: State, now: int, k: Key)
    requires cfg.watcherPeriod >= 1 && SlotOf(st, k) == UNTOUCHED && !IsCurrent(st, k)
    requires now in cfg.changes ==> cfg.changes[now].key != k
    ensures SlotOf(Tick(cfg, st, now), k) == UNTOUCHED && !IsCurrent(Tick(cfg, st, now), k)
  {
    var changed := ApplyChange(cfg, st, now);
    forall j | j in changed.running ensures j.key != k {
      assert j !in SlotOf(st, k).jobs;
    }
    FinishDueOthers(cfg, changed, changed.running, now, k);
    var settled := Settled(cfg, st, now);
    PollOther(cfg, settled, Watcher, now, k);
    var watched := Poll(cfg, settled, Watcher, now);
    PollOther(cfg, watched, Refresh, now, k);
    var polled := Poll(cfg, watched, Refresh, now);
    assert Query(cfg, polled, now) == polled.(queries := Query(cfg, polled, now).queries);
  }

  lemma {:induction false} NeverCurrent(cfg: Config, n: nat, k: Key)
    requires cfg.watcherPeriod >= 1
    requires forall u :: 0 <= u < n && u in cfg.changes ==> cfg.changes[u].key != k
    ensures SlotOf(After(cfg, n), k) == UNTOUCHED && !IsCurrent(After(cfg, n), k)
  {
    if n == 0 {
      UntouchedAtFirst(k);
    } else {
      NeverCurrent(cfg, n - 1, k);
      NextTick(cfg, After(cfg, n - 1), n - 1, k);
    }
  }

  lemma UntouchedAtFirst(k: Key)
    ensures SlotOf(INITIAL, k) == UNTOUCHED && !IsCurrent(INITIAL, k)
  {
    assert INITIAL.running == [];
  }

  lemma NextTick(cfg: Config, st: State, n: nat, k: Key)
    requires cfg.watcherPeriod >= 1 && st == After(cfg, n) && SlotOf(st, k) == UNTOUCHED && !IsCurrent(st, k)
    requires n in cfg.changes ==> cfg.changes[n].key != k
    ensures SlotOf(After(cfg, n + 1), k) == UNTOUCHED && !IsCurrent(After(cfg, n + 1), k)
  {
    TickOther(cfg, st, n, k);
  }

  // ----- the window in which the key stays current -----

  /** From `t` on `k` is current and not refreshed, and every decision about it while it is not stored
      is to generate; this holds up to and including tick `last`. */
  ghost predicate Window(cfg: Config, k: Key, t: int, last: int) {
    && cfg.watcherPeriod >= 1 && cfg.latency >= 1 && cfg.backoff >= 0 && cfg.maxAttempts >= 2
    && t in cfg.changes
    && (forall u :: t <= u <= last && u in cfg.changes ==> cfg.changes[u].key == k)
    && (forall u :: t <= u <= last ==> u !in cfg.refreshes)
    && Willing(cfg, t, last)
  }

  ghost predicate Willing(cfg: Config, t: int, last: int) {
    forall u, q: Inquiry :: t <= u <= last && u in cfg.changes && q.current == cfg.changes[u] && !q.exact && !q.refresh
      ==> cfg.decide(q).action == Generate
  }

  ghost predicate Within(cfg: Config, st: State, t: int, u: int) {
    st.current.Some? && exists x :: t <= x <= u && x in cfg.changes && st.current.value == cfg.changes[x]
  }

  ghost function SettledSlot(cfg: Config, u: nat, k: Key): Slot
    requires cfg.watcherPeriod >= 1
  {
    SlotOf(Settled(cfg, After(cfg, u), u), k)
  }

  lemma SettleChange(cfg: Config, k: Key, t: nat, u: nat, last: int)
    requires Window(cfg, k, t, last) && t <= u <= last
    requires u == t || Within(cfg, After(cfg, u), t, u - 1)
    ensures var changed := ApplyChange(cfg, After(cfg, u), u);
      Within(cfg, changed, t, u) && IsCurrent(changed, k) && SlotOf(changed, k) == SlotOf(After(cfg, u), k)
  {
    var st := After(cfg, u);
    if u !in cfg.changes {
      var x :| t <= x <= u - 1 && x in cfg.changes && st.current.value == cfg.changes[x];
    }
  }

  /** Completion phase: nothing of `k` is due. */
  lemma SettleQuiet(cfg: Config, k: Key, t: nat, u: nat, last: int)
    requires Window(cfg, k, t, last) && t <= u <= last
    requires u == t || Within(cfg, After(cfg, u), t, u - 1)
    requires forall j :: j in SlotOf(After(cfg, u), k).jobs ==> j.due != u
    ensures SettledSlot(cfg, u, k) == SlotOf(After(cfg, u), k)
    ensures Within(cfg, Settled(cfg, After(cfg, u), u), t, u)
  {
    var changed := ApplyChange(cfg, After(cfg, u), u);
    SettleChange(cfg, k, t, u, last);
    forall j | j in changed.running && j.key == k ensures j.due != u {
      assert j in SlotOf(After(cfg, u), k).jobs;
    }
    FinishDueOthers(cfg, changed, changed.running, u, k);
  }

  /** Completion phase: the job of `k` is due. */
  lemma SettleLanding(cfg: Config, k: Key, t: nat, u: nat, last: int, job: Job)
    requires Window(cfg, k, t, last) && t < u <= last
    requires Within(cfg, After(cfg, u), t, u - 1)
    requires job in SlotOf(After(cfg, u), k).jobs && job.due == u
    ensures SettledSlot(cfg, u, k) == Landed(cfg, SlotOf(After(cfg, u), k), job)
    ensures Within(cfg, Settled(cfg, After(cfg, u), u), t, u)
  {
    var changed := ApplyChange(cfg, After(cfg, u), u);
    SettleChange(cfg, k, t, u, last);
    Safety.Invariant(cfg, u);
    FinishDueOwn(cfg, changed, changed.running, job);
  }

  /** What the watcher does to the slot of the current key: it starts a job if nothing stands in the way. */
  lemma WatcherSlot(cfg: Config, st: State, k: Key, u: int)
    requires cfg.watcherPeriod >= 1 && IsCurrent(st, k) && Generates(cfg, st, Watcher)
    ensures var s, next := SlotOf(st, k), SlotOf(Poll(cfg, st, Watcher, u), k);
      if u % cfg.watcherPeriod == 0 && s.jobs == {} && s.retryAfter <= u && s.attempts + 1 <= cfg.maxAttempts then
        exists job :: next == s.(jobs := {job}, attempts := s.attempts + 1)
          && job.key == k && job.due == u + cfg.latency && (job.fail ==> s.attempts == 0)
      else next == s
  {
    InFlightSlot(st, k);
    if u % cfg.watcherPeriod == 0 && !Blocked(cfg, st, Watcher, u) {
      var job, watched := NewJob(cfg, st, Watcher, u), Poll(cfg, st, Watcher, u);
      assert SlotOf(watched, k).jobs == {job} by {
        assert forall j :: j in watched.running <==> j in st.running || j == job;
      }
    }
  }

  /** The rest of the tick, from the settled state on. */
  lemma WatchSlot(cfg: Config, k: Key, t: nat, u: nat, last: int)
    requires Window(cfg, k, t, last) && t <= u <= last
    requires Within(cfg, Settled(cfg, After(cfg, u), u), t, u)
    requires !SettledSlot(cfg, u, k).stored
    ensures Within(cfg, After(cfg, u + 1), t, u)
    ensures var s, next := SettledSlot(cfg, u, k), SlotOf(After(cfg, u + 1), k);
      if u % cfg.watcherPeriod == 0 && s.jobs == {} && s.retryAfter <= u && s.attempts + 1 <= cfg.maxAttempts then
        exists job :: next == s.(jobs := {job}, attempts := s.attempts + 1)
          && job.key == k && job.due == u + cfg.latency && (job.fail ==> s.attempts == 0)
      else next == s
  {
    var st := Settled(cfg, After(cfg, u), u);
    var x :| t <= x <= u && x in cfg.changes && st.current.value == cfg.changes[x];
    var q := InquiryFor(st, Watcher);
    assert q.current == cfg.changes[x] && !q.exact && !q.refresh;
    assert Generates(cfg, st, Watcher);
    WatcherSlot(cfg, st, k, u);
    assert After(cfg, u + 1) == Query(cfg, Poll(cfg, st, Watcher, u), u);
  }

  /** An idle key waits, unchanged, for the first watcher tick `w` that its backoff permits. */
  lemma {:induction false} IdleUntil(cfg: Config, k: Key, t: nat, u: nat, w: nat, last: int, a: int, r: int) returns (job: Job)
    requires Window(cfg, k, t, last) && t <= u <= w <= last
    requires Within(cfg, Settled(cfg, After(cfg, u), u), t, u)
    requires SettledSlot(cfg, u, k) == Slot(false, {}, a, r) && a + 1 <= cfg.maxAttempts
    requires r <= w && w % cfg.watcherPeriod == 0
    requires forall x :: u <= x < w && r <= x ==> x % cfg.watcherPeriod != 0
    ensures Within(cfg, After(cfg, w + 1), t, w)
    ensures SlotOf(After(cfg, w + 1), k) == Slot(false, {job}, a + 1, r)
    ensures job.key == k && job.due == w + cfg.latency && (job.fail ==> a == 0)
    decreases w - u
  {
    WatchSlot(cfg, k, t, u, last);
    if u == w {
      var s, next := SettledSlot(cfg, u, k), SlotOf(After(cfg, u + 1), k);
      job :| next == s.(jobs := {job}, attempts := s.attempts + 1)
          && job.key == k && job.due == u + cfg.latency && (job.fail ==> s.attempts == 0);
    } else {
      SettleQuiet(cfg, k, t, u + 1, last);
      job := IdleUntil(cfg, k, t, u + 1, w, last, a, r);
    }
  }

  /** A job in flight stays untouched until the tick at which it is due. */
  lemma {:induction false} FlyUntil(cfg: Config, k: Key, t: nat, u: nat, due: nat, last: int, s: Slot, job: Job)
    requires Window(cfg, k, t, last) && t < u <= due <= last && job.due == due
    requires Within(cfg, After(cfg, u), t, u - 1)
    requires SlotOf(After(cfg, u), k) == s && s.jobs == {job} && !s.stored
    ensures SettledSlot(cfg, due, k) == Landed(cfg, s, job)
    ensures Within(cfg, Settled(cfg, After(cfg, due), due), t, due)
    decreases due - u
  {
    if u == due {
      SettleLanding(cfg, k, t, u, last, job);
    } else {
      SettleQuiet(cfg, k, t, u, last);
      WatchSlot(cfg, k, t, u, last);
      FlyUntil(cfg, k, t, u + 1, due, last, s, job);
    }
  }

  /** Waiting, starting at `w` and landing a latency later: one whole attempt. */
  lemma Attempt(cfg: Config, k: Key, t: nat, u: nat, w: nat, due: nat, last: int, a: int, r: int) returns (job: Job)
    requires Window(cfg, k, t, last) && t <= u <= w && due == w + cfg.latency && due <= last
    requires Within(cfg, Settled(cfg, After(cfg, u), u), t, u)
    requires SettledSlot(cfg, u, k) == Slot(false, {}, a, r) && a + 1 <= cfg.maxAttempts
    requires r <= w && w % cfg.watcherPeriod == 0
    requires forall x :: u <= x < w && r <= x ==> x % cfg.watcherPeriod != 0
    ensures job.due == due && (job.fail ==> a == 0)
    ensures SettledSlot(cfg, due, k) == Landed(cfg, Slot(false, {job}, a + 1, r), job)
    ensures Within(cfg, Settled(cfg, After(cfg, due), due), t, due)
  {
    job := IdleUntil(cfg, k, t, u, w, last, a, r);
    FlyUntil(cfg, k, t, w + 1, due, last, Slot(false, {job}, a + 1, r), job);
  }

  lemma NextMultiple(from: nat, p: nat) returns (w: nat)
    requires p >= 1
    ensures from <= w <= from + p - 1 && w % p == 0
    ensures forall x :: from <= x < w ==> x % p != 0
  {
    w := from;
    while w % p != 0
      invariant from <= w
      invariant forall x :: from <= x < w ==> x % p != 0
      invariant w <= from + p - 1
      invariant w % p != 0 ==> w % p > w - from
      decreases from + p - w
    {
      NextDivMod(w, p);
      w := w + 1;
    }
  }

  lemma SettledStored(cfg: Config, u: nat, n: nat, k: Key)
    requires cfg.watcherPeriod >= 1 && u < n && SettledSlot(cfg, u, k).stored
    ensures k in After(cfg, n).stored
  {
    Replay.TickStores(cfg, After(cfg, u), u);
    Replay.StaysStored(cfg, k, u + 1, n);
  }

  /** The tick by which the key is stored. */
  ghost function Deadline(cfg: Config, t: int): int {
    t + 2 * cfg.watcherPeriod + 2 * cfg.latency + cfg.backoff - 2
  }

  ghost predicate NewKey(cfg: Config, k: Key, t: int) {
    forall u :: 0 <= u < t && u in cfg.changes ==> cfg.changes[u].key != k
  }

  /** The first attempt starts at the first watcher tick and lands a latency later. */
  lemma FirstAttempt(cfg: Config, k: Key, t: nat, last: nat) returns (d: nat, stored: bool)
    requires Window(cfg, k, t, last) && t + cfg.watcherPeriod - 1 + cfg.latency <= last
    requires NewKey(cfg, k, t)
    ensures t <= d <= t + cfg.watcherPeriod - 1 + cfg.latency
    ensures Within(cfg, Settled(cfg, After(cfg, d), d), t, d)
    ensures SettledSlot(cfg, d, k) == if stored then Slot(true, {}, 1, 0) else Slot(false, {}, 1, d + cfg.backoff)
  {
    NeverCurrent(cfg, t, k);
    SettleQuiet(cfg, k, t, t, last);
    var w := NextMultiple(t, cfg.watcherPeriod);
    var job := Attempt(cfg, k, t, t, w, w + cfg.latency, last, 0, 0);
    d, stored := job.due, !job.fail;
  }

  lemma StoredByDeadline(cfg: Config, k: Key, t: nat, last: nat)
    requires last == Deadline(cfg, t) && Window(cfg, k, t, last)
    requires NewKey(cfg, k, t)
    ensures k in After(cfg, last + 1).stored
  {
    var e := FirstOrSecond(cfg, k, t, last);
    SettledStored(cfg, e, last + 1, k);
  }

  /** One of the two attempts lands. */
  lemma FirstOrSecond(cfg: Config, k: Key, t: nat, last: nat) returns (e: nat)
    requires last == Deadline(cfg, t) && Window(cfg, k, t, last) && NewKey(cfg, k, t)
    ensures e <= last && SettledSlot(cfg, e, k).stored
  {
    var d, stored := FirstAttempt(cfg, k, t, last);
    if stored {
      e := d;
    } else {
      e := SecondAttempt(cfg, k, t, last, d);
    }
  }

  /** The second attempt starts at the first watcher tick after the backoff and cannot fail. */
  lemma SecondAttempt(cfg: Config, k: Key, t: nat, last: nat, d: nat) returns (e: nat)
    requires Window(cfg, k, t, last) && t <= d && d + cfg.backoff + cfg.watcherPeriod - 1 + cfg.latency <= last
    requires Within(cfg, Settled(cfg, After(cfg, d), d), t, d)
    requires SettledSlot(cfg, d, k) == Slot(false, {}, 1, d + cfg.backoff)
    ensures d <= e <= last && SettledSlot(cfg, e, k).stored
  {
    var ready := d + cfg.backoff;
    var v := NextMultiple(ready, cfg.watcherPeriod);
    var job := Attempt(cfg, k, t, d, v, v + cfg.latency, last, 1, ready);
    e := job.due;
  }

  /** Once a fingerprint that was never current before becomes current at `t` and stays so without a
      refresh, it is stored by `t + 2P + 2L + B - 2`, even when its first attempt fails. */
  lemma BoundedLiveness(cfg: Config, k: Key, t: nat, n: nat)
    requires Window(cfg, k, t, Deadline(cfg, t)) && NewKey(cfg, k, t)
    requires n > Deadline(cfg, t)
    ensures k in After(cfg, n).stored
  {
    StoredByDeadline(cfg, k, t, Deadline(cfg, t));
    Replay.StaysStored(cfg, k, Deadline(cfg, t) + 1, n);
  }

  /** The real decision procedure is willing for packets that are current: under Always and Demand at once, under
      Hybrid if the change is material against whatever was completed before. */
  lemma PoliciesAreLive(cfg: Config, policy: Policy, material: (Change, Option<Change>) -> bool, k: Key, t: nat, n: nat)
    requires policy != Click
    requires policy == Hybrid ==>
      forall u, b: Option<Change> :: t <= u <= Deadline(cfg, t) && u in cfg.changes ==> material(cfg.changes[u], b)
    requires cfg.decide == PolicyDecider(policy, material)
    requires cfg.watcherPeriod >= 1 && cfg.latency >= 1 && cfg.backoff >= 0 && cfg.maxAttempts >= 2
    requires t in cfg.changes && NewKey(cfg, k, t)
    requires forall u :: t <= u <= Deadline(cfg, t) ==> u !in cfg.refreshes
    requires forall u :: t <= u <= Deadline(cfg, t) && u in cfg.changes ==> cfg.changes[u].key == k && cfg.changes[u].valid
    requires n > Deadline(cfg, t)
    ensures k in After(cfg, n).stored
  {
    forall u, q: Inquiry | t <= u <= Deadline(cfg, t) && u in cfg.changes && q.current == cfg.changes[u] && !q.exact && !q.refresh
      ensures cfg.decide(q).action == Generate
    {
      GeneratesExactlyWhen(policy, false, false, material(q.current, q.baseline), true);
    }
    BoundedLiveness(cfg, k, t, n);
  }
}
