/** The summary of a run over its critical steps, and when it can be made. */
module SchedulerSummary {
  import opened Wrappers
  import opened Counting
  import opened GenerationPolicy
  import opened Scheduler
  import opened SchedulerLiveness

  /** The latest calendar entry at or before `u`. */
  function CurrentAt(changes: map<int, Change>, u: nat): Option<Change> {
    if u in changes then Some(changes[u]) else if u == 0 then None else CurrentAt(changes, u - 1)
  }

  /** Does the watcher ask about step `i` at `u`, by the calendar alone? */
  predicate AskedAt(cfg: Config, u: nat, i: nat)
    requires cfg.watcherPeriod >= 1
  {
    u % cfg.watcherPeriod == 0 && CurrentAt(cfg.changes, u).Some? && CurrentAt(cfg.changes, u).value.step == i
  }

  /** The first watcher decision about a step. */
  function FirstDecision(decisions: seq<DecisionRow>, i: nat): Option<DecisionRow> {
    if decisions == [] then None
    else
      var earlier, row := FirstDecision(decisions[..|decisions| - 1], i), decisions[|decisions| - 1];
      if earlier.Some? then earlier else if row.source == Watcher && row.step == i then Some(row) else None
  }

  datatype Summary = Summary(critical: nat, requested: nat, falseReuse: nat)

  /** One look-up per critical step; a step the watcher never asked about is missing from the table. */
  function Summarise(decisions: seq<DecisionRow>, critical: seq<nat>): Result<Summary, string> {
    if critical == [] then Ok(Summary(0, 0, 0))
    else
      var rest, first := Summarise(decisions, critical[..|critical| - 1]), FirstDecision(decisions, critical[|critical| - 1]);
      if rest.Err? then rest
      else if first.None? then Err("KeyError")
      else
        var s, t := rest.value, first.value.trace;
        Ok(Summary(
          s.critical + 1,
          s.requested + (if t.action == Generate then 1 else 0),
          s.falseReuse + (if t.eligible then 1 else 0)))
  }

  lemma FirstOneMore(decisions: seq<DecisionRow>, row: DecisionRow, i: nat)
    ensures FirstDecision(decisions + [row], i)
         == if FirstDecision(decisions, i).Some? then FirstDecision(decisions, i)
            else if row.source == Watcher && row.step == i then Some(row) else None
  {
    assert (decisions + [row])[..|decisions|] == decisions;
  }

  lemma ConsultAsks(cfg: Config, st: State, source: Source, now: int, i: nat)
    requires st.current.Some?
    ensures var next := Consult(cfg, st, source, now);
      && next.current == st.current
      && (FirstDecision(next.decisions, i).Some? <==>
          FirstDecision(st.decisions, i).Some? || (source == Watcher && st.current.value.step == i))
  {
    var c := st.current.value;
    var guarded := Generates(cfg, st, source) && Blocked(cfg, st, source, now);
    var row := DecisionRow(now, source, c.step, c.key, cfg.decide(InquiryFor(st, source)), guarded);
    assert Consult(cfg, st, source, now).decisions == st.decisions + [row];
    FirstOneMore(st.decisions, row, i);
  }

  /** What a poll adds to the table of first decisions. */
  lemma PollAsks(cfg: Config, st: State, source: Source, now: int, i: nat)
    requires cfg.watcherPeriod >= 1
    ensures var next := Poll(cfg, st, source, now);
      && next.current == st.current
      && (FirstDecision(next.decisions, i).Some? <==>
          FirstDecision(st.decisions, i).Some?
          || (source == Watcher && Active(cfg, source, now) && st.current.Some? && st.current.value.step == i))
  {
    if Active(cfg, source, now) && st.current.Some? {
      ConsultAsks(cfg, st, source, now, i);
    }
  }

  lemma TickAsks(cfg: Config, st: State, now: int, i: nat)
    requires cfg.watcherPeriod >= 1
    ensures var next, current := Tick(cfg, st, now), ApplyChange(cfg, st, now).current;
      && next.current == current
      && (FirstDecision(next.decisions, i).Some? <==>
          FirstDecision(st.decisions, i).Some?
          || (now % cfg.watcherPeriod == 0 && current.Some? && current.value.step == i))
  {
    var changed := ApplyChange(cfg, st, now);
    FinishDueLeaves(cfg, changed, changed.running, now);
    var settled := Settled(cfg, st, now);
    PollAsks(cfg, settled, Watcher, now, i);
    PollAsks(cfg, Poll(cfg, settled, Watcher, now), Refresh, now, i);
  }

  /** Has the watcher asked about step `i` before `n`, by the calendar alone? */
  predicate Asked(cfg: Config, n: nat, i: nat)
    requires cfg.watcherPeriod >= 1
  {
    n > 0 && (Asked(cfg, n - 1, i) || AskedAt(cfg, n - 1, i))
  }

  lemma {:induction false} AskedMeans(cfg: Config, n: nat, i: nat)
    requires cfg.watcherPeriod >= 1
    ensures Asked(cfg, n, i) <==> exists u: nat :: u < n && AskedAt(cfg, u, i)
  {
    if n > 0 { AskedMeans(cfg, n - 1, i); }
  }

  /** Before tick `n` the state agrees with the calendar. */
  ghost predicate Follows(cfg: Config, st: State, n: nat, i: nat)
    requires cfg.watcherPeriod >= 1
  {
    && st.current == (if n == 0 then None else CurrentAt(cfg.changes, n - 1))
    && (FirstDecision(st.decisions, i).Some? <==> Asked(cfg, n, i))
  }

  lemma TickFollows(cfg: Config, st: State, n: nat, i: nat)
    requires cfg.watcherPeriod >= 1 && Follows(cfg, st, n, i)
    ensures Follows(cfg, Tick(cfg, st, n), n + 1, i)
  {
    TickAsks(cfg, st, n, i);
  }

  lemma {:induction false} RunFollows(cfg: Config, n: nat, i: nat)
    requires cfg.watcherPeriod >= 1
    ensures Follows(cfg, After(cfg, n), n, i)
  {
    if n > 0 {
      RunFollows(cfg, n - 1, i);
      TickFollows(cfg, After(cfg, n - 1), n - 1, i);
    }
  }

  /** A step has a first decision exactly when a watcher tick falls while it is current; policy, failures and
      completions play no part. */
  lemma AskedExactly(cfg: Config, n: nat, i: nat)
    requires cfg.watcherPeriod >= 1
    ensures FirstDecision(After(cfg, n).decisions, i).Some? <==> exists u: nat :: u < n && AskedAt(cfg, u, i)
  {
    RunFollows(cfg, n, i);
    AskedMeans(cfg, n, i);
  }

  predicate AllAsked(decisions: seq<DecisionRow>, critical: seq<nat>) {
    forall k :: 0 <= k < |critical| ==> FirstDecision(decisions, critical[k]).Some?
  }

  lemma {:induction false} SummaryNeedsAll(decisions: seq<DecisionRow>, critical: seq<nat>)
    ensures Summarise(decisions, critical).Ok? <==> AllAsked(decisions, critical)
    ensures var r := Summarise(decisions, critical);
      r.Ok? ==> r.value.critical == |critical| && r.value.requested <= |critical| && r.value.falseReuse <= |critical|
  {
    if critical != [] {
      var last := |critical| - 1;
      SummaryNeedsAll(decisions, critical[..last]);
      assert AllAsked(decisions, critical) <==>
        AllAsked(decisions, critical[..last]) && FirstDecision(decisions, critical[last]).Some?;
    }
  }

  /** Decision `j` is the first that the watcher made about step `i`. */
  ghost predicate FirstAbout(decisions: seq<DecisionRow>, i: nat, j: nat) {
    && j < |decisions| && decisions[j].source == Watcher && decisions[j].step == i
    && forall h: nat :: h < j ==> !(decisions[h].source == Watcher && decisions[h].step == i)
  }

  lemma {:induction false} FirstDecisionMeans(decisions: seq<DecisionRow>, i: nat, j: nat)
    requires FirstAbout(decisions, i, j)
    ensures FirstDecision(decisions, i) == Some(decisions[j])
  {
    var last := |decisions| - 1;
    var front := decisions[..last];
    if j < last {
      FirstDecisionMeans(front, i, j);
    } else {
      NoneBefore(front, i);
    }
  }

  lemma {:induction false} NoneBefore(decisions: seq<DecisionRow>, i: nat)
    requires forall h: nat :: h < |decisions| ==> !(decisions[h].source == Watcher && decisions[h].step == i)
    ensures FirstDecision(decisions, i) == None
  {
    if decisions != [] { NoneBefore(decisions[..|decisions| - 1], i); }
  }

  lemma {:induction false} SomeFirst(decisions: seq<DecisionRow>, i: nat) returns (j: nat)
    requires FirstDecision(decisions, i).Some?
    ensures FirstAbout(decisions, i, j)
  {
    j := 0;
    while !(decisions[j].source == Watcher && decisions[j].step == i)
      invariant j < |decisions| && forall h: nat :: h < j ==> !(decisions[h].source == Watcher && decisions[h].step == i)
      decreases |decisions| - j
    {
      j := j + 1;
      if j == |decisions| { NoneBefore(decisions, i); }
    }
  }

  /** The step's first watcher decision was to generate. */
  ghost function Requested(decisions: seq<DecisionRow>): nat -> bool {
    (i: nat) => exists j: nat :: FirstAbout(decisions, i, j) && decisions[j].trace.action == Generate
  }

  /** The step's first watcher decision found a stored result. */
  ghost function FoundStored(decisions: seq<DecisionRow>): nat -> bool {
    (i: nat) => exists j: nat :: FirstAbout(decisions, i, j) && decisions[j].trace.eligible
  }

  lemma FirstTells(decisions: seq<DecisionRow>, i: nat)
    requires FirstDecision(decisions, i).Some?
    ensures var t := FirstDecision(decisions, i).value.trace;
      (Requested(decisions)(i) <==> t.action == Generate) && (FoundStored(decisions)(i) <==> t.eligible)
  {
    var j := SomeFirst(decisions, i);
    FirstDecisionMeans(decisions, i, j);
    forall h: nat | FirstAbout(decisions, i, h) ensures FirstDecision(decisions, i) == Some(decisions[h]) {
      FirstDecisionMeans(decisions, i, h);
    }
  }

  /** A summary counts the critical steps, those whose first watcher decision was to generate, and those for which it
      found a stored result. */
  lemma {:induction false} SummaryCounts(decisions: seq<DecisionRow>, critical: seq<nat>)
    requires AllAsked(decisions, critical)
    ensures Summarise(decisions, critical)
         == Ok(Summary(|critical|, Count(critical, Requested(decisions)), Count(critical, FoundStored(decisions))))
  {
    if critical != [] {
      var last := |critical| - 1;
      SummaryCounts(decisions, critical[..last]);
      FirstTells(decisions, critical[last]);
    }
  }

  ghost predicate EveryStepAsked(cfg: Config, n: nat, critical: seq<nat>)
    requires cfg.watcherPeriod >= 1
  {
    forall k :: 0 <= k < |critical| ==> Asked(cfg, n, critical[k])
  }

  lemma FlagsDecide(cfg: Config, n: nat, decisions: seq<DecisionRow>, critical: seq<nat>)
    requires cfg.watcherPeriod >= 1
    requires forall k :: 0 <= k < |critical| ==> (FirstDecision(decisions, critical[k]).Some? <==> Asked(cfg, n, critical[k]))
    ensures Summarise(decisions, critical).Ok? <==> EveryStepAsked(cfg, n, critical)
  {
    SummaryNeedsAll(decisions, critical);
  }

  /** The summary is made exactly when every critical step is current at some watcher tick of the run. */
  lemma SummaryExactlyWhenAsked(cfg: Config, n: nat, critical: seq<nat>)
    requires cfg.watcherPeriod >= 1
    ensures Summarise(After(cfg, n).decisions, critical).Ok? <==> EveryStepAsked(cfg, n, critical)
  {
    forall k | 0 <= k < |critical|
      ensures FirstDecision(After(cfg, n).decisions, critical[k]).Some? <==> Asked(cfg, n, critical[k])
    {
      RunFollows(cfg, n, critical[k]);
    }
    FlagsDecide(cfg, n, After(cfg, n).decisions, critical);
  }

  lemma {:induction false} CurrentSince(changes: map<int, Change>, t: nat, u: nat)
    requires t <= u && t in changes && forall x :: t < x <= u ==> x !in changes
    ensures CurrentAt(changes, u) == Some(changes[t])
    decreases u
  {
    if t < u { CurrentSince(changes, t, u - 1); }
  }

  /** A step that stays current for a whole watcher period within the run is always asked about. */
  lemma WholePeriodIsAsked(cfg: Config, n: nat, t: nat)
    requires cfg.watcherPeriod >= 1 && t in cfg.changes && t + cfg.watcherPeriod <= n
    requires forall x :: t < x < t + cfg.watcherPeriod ==> x !in cfg.changes
    ensures exists u: nat :: u < n && AskedAt(cfg, u, cfg.changes[t].step)
  {
    var u := NextMultiple(t, cfg.watcherPeriod);
    CurrentSince(cfg.changes, t, u);
    assert AskedAt(cfg, u, cfg.changes[t].step);
  }

  /** Three steps, one second each, under a watcher that wakes every two seconds. */
  ghost predicate FastSteps(cfg: Config) {
    && cfg.watcherPeriod == 2 && cfg.changes.Keys == {0, 1, 2}
    && cfg.changes[0].step == 0 && cfg.changes[1].step == 1 && cfg.changes[2].step == 2
  }

  /** The middle step is never asked about, so the summary of every such run fails, whatever the policy. */
  lemma FastStepIsMissed(cfg: Config, n: nat)
    requires FastSteps(cfg)
    ensures Summarise(After(cfg, n).decisions, [1]) == Err("KeyError")
  {
    SummaryExactlyWhenAsked(cfg, n, [1]);
    NeverAsked(cfg, n);
    assert [1][0] == 1;
    assert [1][..0] == [];
  }

  lemma {:induction false} NeverAsked(cfg: Config, n: nat)
    requires FastSteps(cfg)
    ensures !Asked(cfg, n, 1)
  {
    if n > 0 {
      NeverAsked(cfg, n - 1);
      if n - 1 >= 2 { CurrentSince(cfg.changes, 2, n - 1); }
    }
  }
}
