/** The B1/B2/B3 workflow harness: bounded retries around an unreliable provider, a deterministic
    fallback and a summary cache. */
module Harness {
  import opened Wrappers
  import opened WhiteSpace

  datatype Arm = B1 | B2 | B3

  datatype Fault = NoFault | MalformedOutput | ProviderTimeout | SnapshotMismatch

  const MAX_ATTEMPTS: nat := 2

  type Packet = string
  type Key = string

  /** A summary document; the empty text stands for the empty object. */
  type Summary = string

  /** A JSON value where a text is expected; lists and objects cannot be looked up in a set. */
  datatype Value = Text(s: string) | NotText | Unhashable

  datatype RoleItem = NotAnObject | RoleItem(role: Value, quote: Value)

  /** What a provider returns, as far as the harness looks at it. */
  datatype Editable = NotObject | Object(title: Value, summary: Value, roles: Option<seq<RoleItem>>)

  datatype Reply = Raised(name: string) | Returned(editable: Editable)

  /** The parts of the application the harness calls and whose insides are not modelled. Merging may raise, and
      so may the contract validator; `raises` names the exception, and otherwise `errors` lists the complaints. */
  datatype World = World(
    baseline: Packet -> Summary,
    key: Packet -> Key,
    merge: (Summary, Editable) -> Result<Summary, string>,
    raises: (Summary, Packet) -> Option<string>,
    errors: (Summary, Packet) -> seq<string>)

  datatype Status = Reused | Blocked | Fallback | Completed | Invalid

  datatype Trace = Trace(key: Key, status: Status, attempts: nat, fallback: bool, reason: Option<string>)

  datatype Row = Row(
    arm: Arm,
    packet: Packet,
    iteration: nat,
    status: Status,
    accepted: bool,
    output: Summary,
    attempts: nat,
    reused: bool,
    fallback: bool,
    reason: Option<string>,
    blocked: bool)

  // ----- editable candidates -----

  predicate Filled(v: Value) {
    v.Text? && !OnlySpaces(v.s)
  }

  predicate KnownRole(v: Value) {
    v.Text? && v.s in {"process_engineer", "maintenance_technician", "process_manager"}
  }

  /** The scan over the role items: it stops at the first bad one, and raises if that one's role cannot be hashed. */
  function SomeRoleBad(items: seq<RoleItem>): Result<bool, string> {
    if items == [] then Ok(false)
    else if items[0].RoleItem? && items[0].role.Unhashable? then Err("TypeError")
    else if !GoodRole(items[0]) then Ok(true)
    else SomeRoleBad(items[1..])
  }

  function RoleErrors(roles: Option<seq<RoleItem>>): Result<seq<string>, string> {
    if roles.None? || |roles.value| != 3 then Ok(["role_summaries_invalid"])
    else
      match SomeRoleBad(roles.value)
      case Err(name) => Err(name)
      case Ok(bad) => Ok(if bad then ["role_summary_invalid"] else [])
  }

  /** The complaints about an editable candidate, or the exception that checking it raises. */
  function EditableErrors(e: Editable): Result<seq<string>, string> {
    if e.NotObject? then Ok(["candidate_not_object"])
    else
      match RoleErrors(e.roles)
      case Err(name) => Err(name)
      case Ok(roleErrors) =>
        Ok((if Filled(e.title) then [] else ["title_not_string"])
          + (if Filled(e.summary) then [] else ["summary_not_string"])
          + roleErrors)
  }

  predicate GoodRole(item: RoleItem) {
    item.RoleItem? && KnownRole(item.role) && Filled(item.quote)
  }

  // ----- providers -----

  /** Any provider at all: its n-th reply is whatever the script says. */
  class Provider {
    const script: nat -> Reply
    var calls: nat

    constructor (script: nat -> Reply)
      ensures this.script == script && calls == 0
    {
      this.script := script;
      calls := 0;
    }

    method GenerateJson() returns (r: Reply)
      modifies this
      ensures r == script(old(calls)) && calls == old(calls) + 1
    {
      r := script(calls);
      calls := calls + 1;
    }
  }

  const MALFORMED := Object(NotText, NotText, None)

  /** Do calls under this fault reach the wrapped provider? */
  predicate PassesThrough(fault: Fault) {
    fault != ProviderTimeout && fault != MalformedOutput
  }

  /** The i-th reply seen through the fault, when the provider has served `used` calls before. */
  function ReplyThrough(script: nat -> Reply, fault: Fault, used: nat, i: nat): Reply {
    match fault
    case ProviderTimeout => Raised("TimeoutError")
    case MalformedOutput => Returned(MALFORMED)
    case _ => script(used + i)
  }

  function Replies(script: nat -> Reply, fault: Fault, used: nat): nat -> Reply {
    (i: nat) => ReplyThrough(script, fault, used, i)
  }

  class FaultInjectingProvider {
    const provider: Provider
    const fault: Fault
    var calls: nat

    constructor (provider: Provider, fault: Fault)
      ensures this.provider == provider && this.fault == fault && calls == 0
    {
      this.provider, this.fault := provider, fault;
      calls := 0;
    }

    method GenerateJson() returns (r: Reply)
      modifies this, provider
      ensures calls == old(calls) + 1
      ensures r == ReplyThrough(provider.script, fault, old(provider.calls), 0)
      ensures provider.calls == old(provider.calls) + if PassesThrough(fault) then 1 else 0
    {
      calls := calls + 1;
      if fault == ProviderTimeout {
        r := Raised("TimeoutError");
      } else if fault == MalformedOutput {
        r := Returned(MALFORMED);
      } else {
        r := provider.GenerateJson();
      }
    }
  }

  // ----- the retry loop -----

  /** The variables of the retry loop. */
  datatype Loop = Loop(candidate: Option<Summary>, errors: seq<string>, reason: Option<string>, calls: nat, done: bool)

  const FRESH := Loop(None, [], None, 0, false)

  /** The loop variables after an exception: the candidate is dropped, the complaints stay. */
  function Dropped(l: Loop, name: string): Loop {
    l.(candidate := None, reason := Some(name))
  }

  function Try(w: World, packet: Packet, l: Loop, reply: Reply): Loop {
    Judged(w, packet, l, reply).(calls := l.calls + 1)
  }

  /** What a reply does to the loop variables. */
  function Judged(w: World, packet: Packet, l: Loop, reply: Reply): Loop {
    match reply
    case Raised(name) => Dropped(l, name)
    case Returned(e) =>
      match EditableErrors(e)
      case Err(name) => Dropped(l, name)
      case Ok(editableErrors) =>
        if editableErrors != [] then
          l.(candidate := None, errors := editableErrors, reason := Some("validation_failed"))
        else
          match w.merge(w.baseline(packet), e)
          case Err(name) => Dropped(l, name)
          case Ok(merged) => Validated(w, packet, l, merged)
  }

  /** What validating a merged candidate leaves; an exception drops the candidate, as one of the provider does. */
  function Validated(w: World, packet: Packet, l: Loop, merged: Summary): Loop {
    if w.raises(merged, packet).Some? then Dropped(l, w.raises(merged, packet).value)
    else
      var errors := w.errors(merged, packet);
      if errors == [] then l.(candidate := Some(merged), errors := [], done := true)
      else l.(candidate := Some(merged), errors := errors, reason := Some("validation_failed"))
  }

  /** The loop after at most `n` attempts; a success stops it. */
  function Tries(w: World, packet: Packet, replies: nat -> Reply, n: nat): Loop {
    if n == 0 then FRESH
    else
      var l := Tries(w, packet, replies, n - 1);
      if l.done then l else Try(w, packet, l, replies(n - 1))
  }

  // ----- one run -----

  function AttemptsOf(arm: Arm): nat {
    if arm == B3 then MAX_ATTEMPTS else 1
  }

  /** What a run leaves behind. */
  datatype Outcome = Outcome(row: Row, cache: map<Key, Summary>, trace: Option<Trace>, used: nat)

  predicate Acceptable(w: World, s: Summary, packet: Packet) {
    s != "" && w.errors(s, packet) == []
  }

  function FinalOf(w: World, arm: Arm, packet: Packet, candidate: Option<Summary>, errors: seq<string>): (Summary, bool) {
    if candidate.None? || errors != [] then
      if arm == B3 then (w.baseline(packet), true) else (if candidate.Some? then candidate.value else "", false)
    else (candidate.value, false)
  }

  function RunArmResult(w: World, arm: Arm, packet: Packet, iteration: nat, script: nat -> Reply, used: nat,
      cache: map<Key, Summary>, fault: Fault): Outcome {
    var key := w.key(packet);
    if arm == B3 && fault == SnapshotMismatch then
      Outcome(Row(B3, packet, iteration, Blocked, false, "", 0, false, false, None, true), cache, None, used)
    else if arm == B3 && key in cache && fault == NoFault then
      var s := cache[key];
      Outcome(Row(B3, packet, iteration, Reused, Acceptable(w, s, packet), s, 0, true, false, None, false),
              cache, Some(Trace(key, Reused, 0, false, None)), used)
    else
      var l := Tries(w, packet, Replies(script, fault, used), AttemptsOf(arm));
      var (s, fallback) := FinalOf(w, arm, packet, l.candidate, l.errors);
      var accepted := Acceptable(w, s, packet);
      var status := if fallback then Fallback else if accepted then Completed else Invalid;
      Outcome(
        Row(arm, packet, iteration, status, accepted, s, l.calls, false, fallback, l.reason, false),
        if arm == B3 && accepted then cache[key := s] else cache,
        if arm == B3 then Some(Trace(key, status, l.calls, fallback, l.reason)) else None,
        used + if PassesThrough(fault) then l.calls else 0)
  }

  class SimulationState {
    var cache: map<Key, Summary>
    var traces: seq<Trace>

    constructor ()
      ensures cache == map[] && traces == []
    {
      cache, traces := map[], [];
    }
  }

  function AddTrace(traces: seq<Trace>, t: Option<Trace>): seq<Trace> {
    if t.Some? then traces + [t.value] else traces
  }

  /** The body of one attempt behind the provider's reply: its checks, in the order in which they can raise. */
  method Judge(w: World, packet: Packet, reply: Reply, before: Loop)
      returns (candidate: Option<Summary>, errors: seq<string>, reason: Option<string>, done: bool)
    requires !before.done
    ensures var l := Judged(w, packet, before, reply);
      candidate == l.candidate && errors == l.errors && reason == l.reason && done == l.done && l.calls == before.calls
  {
    candidate, errors, reason, done := None, before.errors, before.reason, false;
    match reply
    case Raised(name) =>
      reason := Some(name);
    case Returned(editable) =>
      match EditableErrors(editable)
      case Err(name) =>
        reason := Some(name);
      case Ok(editableErrors) =>
        if editableErrors != [] {
          errors, reason := editableErrors, Some("validation_failed");
          return;
        }
        match w.merge(w.baseline(packet), editable)
        case Err(name) =>
          reason := Some(name);
        case Ok(merged) =>
          if w.raises(merged, packet).Some? {
            reason := w.raises(merged, packet);
            return;
          }
          candidate := Some(merged);
          errors := w.errors(merged, packet);
          if errors == [] {
            done := true;
          } else {
            reason := Some("validation_failed");
          }
  }

  /** The retry loop, with the variables the source keeps and its two ways out. */
  method RetryLoop(w: World, packet: Packet, injected: FaultInjectingProvider, attempts: nat)
      returns (candidate: Option<Summary>, errors: seq<string>, reason: Option<string>)
    requires injected.calls == 0
    modifies injected, injected.provider
    ensures var used, provider := old(injected.provider.calls), injected.provider;
      var l := Tries(w, packet, Replies(provider.script, injected.fault, used), attempts);
      && candidate == l.candidate && errors == l.errors && reason == l.reason && injected.calls == l.calls
      && provider.calls == used + if PassesThrough(injected.fault) then l.calls else 0
  {
    ghost var used := injected.provider.calls;
    ghost var replies := Replies(injected.provider.script, injected.fault, used);
    candidate, errors, reason := None, [], None;
    var attempt, done := 0, false;
    while attempt < attempts && !done
      invariant 0 <= attempt <= attempts
      invariant Tries(w, packet, replies, attempt) == Loop(candidate, errors, reason, attempt, done)
      invariant injected.calls == attempt
      invariant injected.provider.calls == used + if PassesThrough(injected.fault) then attempt else 0
    {
      var reply := injected.GenerateJson();
      var before := Loop(candidate, errors, reason, attempt, false);
      OneMore(w, packet, replies, attempt, before, reply);
      candidate, errors, reason, done := Judge(w, packet, reply, before);
      attempt := attempt + 1;
    }
    if done {
      SuccessStays(w, packet, replies, attempt, attempts);
    }
  }

  lemma OneMore(w: World, packet: Packet, replies: nat -> Reply, n: nat, l: Loop, reply: Reply)
    requires Tries(w, packet, replies, n) == l && !l.done && reply == replies(n)
    ensures Tries(w, packet, replies, n + 1) == Try(w, packet, l, reply)
  {
  }

  lemma {:induction false} SuccessStays(w: World, packet: Packet, replies: nat -> Reply, m: nat, n: nat)
    requires m <= n && Tries(w, packet, replies, m).done
    ensures Tries(w, packet, replies, n) == Tries(w, packet, replies, m)
    decreases n
  {
    if m < n { SuccessStays(w, packet, replies, m, n - 1); }
  }

  /** What a run delivers when its loop is over. */
  method Deliver(w: World, arm: Arm, packet: Packet, candidate: Option<Summary>, errors: seq<string>)
      returns (output: Summary, fallback: bool)
    ensures (output, fallback) == FinalOf(w, arm, packet, candidate, errors)
  {
    output, fallback := "", false;
    if candidate.None? || errors != [] {
      if arm == B3 {
        output, fallback := w.baseline(packet), true;
      } else if candidate.Some? {
        output := candidate.value;
      }
    } else {
      output := candidate.value;
    }
  }

  /** The validation that decides on acceptance is not guarded: its exception ends the run. */
  predicate FinalCheckRaises(w: World, row: Row) {
    row.output != "" && w.raises(row.output, row.packet).Some?
  }

  /** The part of a run that asks the provider. */
  method AskProvider(w: World, arm: Arm, packet: Packet, provider: Provider, fault: Fault) returns (l: Loop, output: Summary, fallback: bool)
    modifies provider
    ensures l == Tries(w, packet, Replies(provider.script, fault, old(provider.calls)), AttemptsOf(arm))
    ensures (output, fallback) == FinalOf(w, arm, packet, l.candidate, l.errors)
    ensures provider.calls == old(provider.calls) + if PassesThrough(fault) then l.calls else 0
  {
    var injected := new FaultInjectingProvider(provider, fault);
    var candidate, errors, reason := RetryLoop(w, packet, injected, AttemptsOf(arm));
    l := Loop(candidate, errors, reason, injected.calls, candidate.Some? && errors == []);
    DoneMeansUsable(w, packet, Replies(provider.script, fault, old(provider.calls)), AttemptsOf(arm));
    output, fallback := Deliver(w, arm, packet, candidate, errors);
  }

  lemma {:induction false} DoneMeansUsable(w: World, packet: Packet, replies: nat -> Reply, n: nat)
    ensures var l := Tries(w, packet, replies, n); l.done <==> l.candidate.Some? && l.errors == []
  {
    if n > 0 { DoneMeansUsable(w, packet, replies, n - 1); }
  }

  method RunArm(w: World, arm: Arm, packet: Packet, iteration: nat, provider: Provider, state: SimulationState, fault: Fault)
      returns (row: Result<Row, string>)
    modifies provider, state
    ensures var r := RunArmResult(w, arm, packet, iteration, provider.script, old(provider.calls), old(state.cache), fault);
      && provider.calls == r.used
      && (row.Ok? <==> !FinalCheckRaises(w, r.row))
      && (row.Ok? ==> row.value == r.row && state.cache == r.cache && state.traces == AddTrace(old(state.traces), r.trace))
      && (row.Err? ==> Some(row.error) == w.raises(r.row.output, packet) && state.cache == old(state.cache))
  {
    var key := w.key(packet);
    if arm == B3 && fault == SnapshotMismatch {
      return Ok(Row(B3, packet, iteration, Blocked, false, "", 0, false, false, None, true));
    }
    if arm == B3 && key in state.cache && fault == NoFault {
      var cached := state.cache[key];
      state.traces := state.traces + [Trace(key, Reused, 0, false, None)];
      if cached != "" && w.raises(cached, packet).Some? {
        return Err(w.raises(cached, packet).value);
      }
      return Ok(Row(B3, packet, iteration, Reused, Acceptable(w, cached, packet), cached, 0, true, false, None, false));
    }
    var l, output, fallback := AskProvider(w, arm, packet, provider, fault);
    if output != "" && w.raises(output, packet).Some? {
      return Err(w.raises(output, packet).value);
    }
    var accepted := output != "" && w.errors(output, packet) == [];
    if arm == B3 && accepted {
      state.cache := state.cache[key := output];
    }
    var status := if fallback then Fallback else if accepted then Completed else Invalid;
    if arm == B3 {
      state.traces := state.traces + [Trace(key, status, l.calls, fallback, l.reason)];
    }
    row := Ok(Row(arm, packet, iteration, status, accepted, output, l.calls, false, fallback, l.reason, false));
  }

  // ----- the suite -----

  datatype Job = Job(arm: Arm, packet: Packet, iteration: nat)

  datatype Progress = Progress(rows: seq<Row>, cache: map<Key, Summary>, traces: seq<Trace>, used: nat)

  /** The suite after a list of jobs, from an empty cache. */
  function Suite(w: World, script: nat -> Reply, jobs: seq<Job>): Progress {
    if jobs == [] then Progress([], map[], [], 0)
    else
      var before, job := Suite(w, script, jobs[..|jobs| - 1]), jobs[|jobs| - 1];
      var r := RunArmResult(w, job.arm, job.packet, job.iteration, script, before.used, before.cache, NoFault);
      Progress(before.rows + [r.row], r.cache, AddTrace(before.traces, r.trace), r.used)
  }

  /** No row of the suite raises in its final check. */
  ghost predicate NoneRaises(w: World, rows: seq<Row>) {
    forall row :: row in rows ==> !FinalCheckRaises(w, row)
  }

  lemma {:induction false} EarlierRowsStay(w: World, script: nat -> Reply, jobs: seq<Job>, n: nat)
    requires n <= |jobs| && NoneRaises(w, Suite(w, script, jobs).rows)
    ensures NoneRaises(w, Suite(w, script, jobs[..n]).rows)
  {
    if n == |jobs| {
      assert jobs[..n] == jobs;
    } else {
      var front := jobs[..|jobs| - 1];
      assert forall row :: row in Suite(w, script, front).rows ==> row in Suite(w, script, jobs).rows;
      EarlierRowsStay(w, script, front, n);
      assert front[..n] == jobs[..n];
    }
  }

  /** The suite over a shared cache; the first final check that raises ends it. */
  method RunSuite(w: World, provider: Provider, jobs: seq<Job>) returns (result: Result<seq<Row>, string>, state: SimulationState)
    requires provider.calls == 0
    modifies provider
    ensures fresh(state)
    ensures result.Ok? <==> NoneRaises(w, Suite(w, provider.script, jobs).rows)
    ensures result.Ok? ==> Progress(result.value, state.cache, state.traces, provider.calls) == Suite(w, provider.script, jobs)
  {
    state := new SimulationState();
    var rows := [];
    for i := 0 to |jobs|
      invariant fresh(state) && NoneRaises(w, rows)
      invariant Progress(rows, state.cache, state.traces, provider.calls) == Suite(w, provider.script, jobs[..i])
    {
      ghost var before := Suite(w, provider.script, jobs[..i]);
      assert jobs[..i + 1][..i] == jobs[..i];
      var row := RunArm(w, jobs[i].arm, jobs[i].packet, jobs[i].iteration, provider, state, NoFault);
      if row.Err? {
        LastRow(w, provider.script, jobs, i);
        return Err(row.error), state;
      }
      rows := rows + [row.value];
    }
    assert jobs[..|jobs|] == jobs;
    return Ok(rows), state;
  }

  /** A row that raises after `n` jobs is a row of the whole suite. */
  lemma LastRow(w: World, script: nat -> Reply, jobs: seq<Job>, n: nat)
    requires n < |jobs|
    requires var before := Suite(w, script, jobs[..n]);
      FinalCheckRaises(w, RunArmResult(w, jobs[n].arm, jobs[n].packet, jobs[n].iteration, script, before.used, before.cache, NoFault).row)
    ensures !NoneRaises(w, Suite(w, script, jobs).rows)
  {
    var before, after := Suite(w, script, jobs[..n]), Suite(w, script, jobs[..n + 1]);
    assert jobs[..n + 1][..n] == jobs[..n];
    assert after.rows[|after.rows| - 1] in after.rows;
    if NoneRaises(w, Suite(w, script, jobs).rows) { EarlierRowsStay(w, script, jobs, n + 1); }
  }
}
