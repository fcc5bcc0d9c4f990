/** What one run of the harness promises, whatever the provider does. */
module HarnessRetry {
  import opened Wrappers
  import opened Counting
  import opened Harness

  /** A reply the contract accepts once it is merged into the baseline. */
  predicate Valid(w: World, packet: Packet, reply: Reply) {
    && Mergeable(w, packet, reply)
    && w.raises(Merged(w, packet, reply), packet).None?
    && w.errors(Merged(w, packet, reply), packet) == []
  }

  predicate Mergeable(w: World, packet: Packet, reply: Reply) {
    && reply.Returned?
    && EditableErrors(reply.editable) == Ok([])
    && w.merge(w.baseline(packet), reply.editable).Ok?
  }

  function Merged(w: World, packet: Packet, reply: Reply): Summary
    requires Mergeable(w, packet, reply)
  {
    w.merge(w.baseline(packet), reply.editable).value
  }

  /** Reply number `f` is the first valid one. */
  predicate FirstValid(w: World, packet: Packet, replies: nat -> Reply, f: nat) {
    Valid(w, packet, replies(f)) && forall i: nat :: i < f ==> !Valid(w, packet, replies(i))
  }

  predicate NoneValid(w: World, packet: Packet, replies: nat -> Reply, n: nat) {
    forall i: nat :: i < n ==> !Valid(w, packet, replies(i))
  }

  lemma {:induction false} AllFail(w: World, packet: Packet, replies: nat -> Reply, n: nat)
    requires NoneValid(w, packet, replies, n)
    ensures var l := Tries(w, packet, replies, n);
      !l.done && l.calls == n && (l.candidate.None? || l.errors != []) && (l.reason.Some? <==> n > 0)
  {
    if n > 0 {
      AllFail(w, packet, replies, n - 1);
      assert !Valid(w, packet, replies(n - 1));
    }
  }

  /** The first valid reply ends the loop, and nothing that failed before it is left in the result. */
  lemma FirstValidWins(w: World, packet: Packet, replies: nat -> Reply, f: nat, n: nat)
    requires f < n && FirstValid(w, packet, replies, f)
    ensures var l := Tries(w, packet, replies, n);
      && l.done && l.candidate == Some(Merged(w, packet, replies(f))) && l.errors == [] && l.calls == f + 1
      && (l.reason.Some? <==> f > 0)
  {
    AllFail(w, packet, replies, f);
    SuccessStays(w, packet, replies, f + 1, n);
  }

  lemma {:induction false} FirstOrNone(w: World, packet: Packet, replies: nat -> Reply, n: nat) returns (f: nat)
    ensures f <= n
    ensures f < n ==> FirstValid(w, packet, replies, f)
    ensures f == n ==> NoneValid(w, packet, replies, n)
  {
    f := 0;
    while f < n && !Valid(w, packet, replies(f))
      invariant f <= n && NoneValid(w, packet, replies, f)
    {
      f := f + 1;
    }
  }

  /** Does the run get as far as asking the provider? */
  predicate Asks(w: World, arm: Arm, packet: Packet, cache: map<Key, Summary>, fault: Fault) {
    arm == B3 ==> fault != SnapshotMismatch && (w.key(packet) in cache ==> fault != NoFault)
  }

  /** The whole of a B3 run that asks: the first valid candidate within MAX_ATTEMPTS, or else the baseline. */
  lemma B3TakesFirstValid(w: World, packet: Packet, iteration: nat, script: nat -> Reply, used: nat,
      cache: map<Key, Summary>, fault: Fault)
    requires Asks(w, B3, packet, cache, fault)
    ensures var replies, run := Replies(script, fault, used), RunArmResult(w, B3, packet, iteration, script, used, cache, fault);
      var row := run.row;
      && (row.fallback <==> NoneValid(w, packet, replies, MAX_ATTEMPTS))
      && (row.fallback ==> row.output == w.baseline(packet) && row.attempts == MAX_ATTEMPTS && row.status == Fallback)
      && (!row.fallback ==> 1 <= row.attempts <= MAX_ATTEMPTS && FirstValid(w, packet, replies, row.attempts - 1))
      && (!row.fallback ==> row.output == Merged(w, packet, replies(row.attempts - 1)))
      && (row.reason.Some? <==> !Valid(w, packet, replies(0)))
      && (row.accepted <==> Acceptable(w, row.output, packet))
      && (!row.fallback ==> (row.accepted <==> row.output != "") && (row.status == Completed <==> row.accepted))
      && !row.reused && !row.blocked
  {
    var replies := Replies(script, fault, used);
    var f := FirstOrNone(w, packet, replies, MAX_ATTEMPTS);
    if f < MAX_ATTEMPTS {
      FirstValidWins(w, packet, replies, f, MAX_ATTEMPTS);
    } else {
      AllFail(w, packet, replies, MAX_ATTEMPTS);
    }
  }

  /** The cache gains the output exactly when it is accepted, and nothing else changes in it. */
  lemma OnlyAcceptedIsCached(w: World, arm: Arm, packet: Packet, iteration: nat, script: nat -> Reply, used: nat,
      cache: map<Key, Summary>, fault: Fault)
    requires Asks(w, arm, packet, cache, fault)
    ensures var run, key := RunArmResult(w, arm, packet, iteration, script, used, cache, fault), w.key(packet);
      && (arm == B3 && run.row.accepted ==> run.cache == cache[key := run.row.output])
      && (run.row.accepted ==> Acceptable(w, run.row.output, packet))
      && (arm != B3 || !run.row.accepted ==> run.cache == cache)
  {
  }

  /** B1 and B2 take one shot: no retry, no fallback, no cache, and success exactly when that shot is valid. */
  lemma DirectArmsTakeOneShot(w: World, arm: Arm, packet: Packet, iteration: nat, script: nat -> Reply, used: nat,
      cache: map<Key, Summary>, fault: Fault)
    requires arm != B3
    ensures var replies, run := Replies(script, fault, used), RunArmResult(w, arm, packet, iteration, script, used, cache, fault);
      var row, first := run.row, replies(0);
      && row.attempts == 1 && !row.fallback && !row.reused && run.cache == cache && run.trace.None?
      && (row.accepted <==> Valid(w, packet, first) && Merged(w, packet, first) != "")
      && (Valid(w, packet, first) ==> row.output == Merged(w, packet, first))
      && (!Mergeable(w, packet, first) || w.raises(Merged(w, packet, first), packet).Some? ==> row.output == "" && row.status == Invalid)
      && (row.reason.Some? <==> !Valid(w, packet, first))
      && !FinalCheckRaises(w, row)
  {
    var replies := Replies(script, fault, used);
    assert Tries(w, packet, replies, 1) == Try(w, packet, Tries(w, packet, replies, 0), replies(0));
  }

  // ----- faults -----

  /** An injected timeout or malformed output is never valid. */
  lemma InjectedNeverValid(w: World, packet: Packet, script: nat -> Reply, fault: Fault, used: nat, n: nat)
    requires fault == ProviderTimeout || fault == MalformedOutput
    ensures NoneValid(w, packet, Replies(script, fault, used), n)
  {
    assert EditableErrors(MALFORMED).Ok? && EditableErrors(MALFORMED).value[0] == "title_not_string";
  }

  /** Every injected fault ends in a fallback to the baseline or in a block, without reaching the provider. */
  lemma FaultsAreContained(w: World, packet: Packet, iteration: nat, script: nat -> Reply, used: nat,
      cache: map<Key, Summary>, fault: Fault)
    requires fault != NoFault
    ensures var run := RunArmResult(w, B3, packet, iteration, script, used, cache, fault);
      && run.used == used
      && (run.row.blocked <==> fault == SnapshotMismatch)
      && (run.row.fallback <==> fault != SnapshotMismatch)
      && (run.row.fallback ==> run.row.output == w.baseline(packet))
      && run.row.attempts == (if run.row.fallback then MAX_ATTEMPTS else 0)
      && (run.row.blocked ==> run.cache == cache && run.trace.None? && run.row.output == "")
  {
    if fault != SnapshotMismatch {
      InjectedNeverValid(w, packet, script, fault, used, MAX_ATTEMPTS);
      B3TakesFirstValid(w, packet, iteration, script, used, cache, fault);
    }
  }

  const FAULTS: seq<Fault> := [NoFault, MalformedOutput, ProviderTimeout, SnapshotMismatch]

  function IsContained(): Row -> bool {
    (row: Row) => row.fallback || row.blocked
  }

  function IsBlocked(): Row -> bool {
    (row: Row) => row.blocked
  }

  function IsBoundedRetry(): Row -> bool {
    (row: Row) => row.attempts == MAX_ATTEMPTS
  }

  /** The counts the fault suite reports. */
  predicate FaultCounts(rows: seq<Row>, contained: nat, blocked: nat, retried: nat) {
    && |rows| == contained == Count(rows, IsContained())
    && Count(rows, IsBlocked()) == blocked
    && Count(rows, IsBoundedRetry()) == retried
  }

  lemma FaultRowCounts(rows: seq<Row>, row: Row, contained: nat, blocked: nat, retried: nat)
    requires FaultCounts(rows, contained, blocked, retried)
    requires row.fallback || row.blocked
    requires row.attempts == if row.blocked then 0 else MAX_ATTEMPTS
    ensures row.blocked ==> FaultCounts(rows + [row], contained + 1, blocked + 1, retried)
    ensures !row.blocked ==> FaultCounts(rows + [row], contained + 1, blocked, retried + 1)
  {
    CountOneMore(rows, row, IsContained());
    CountOneMore(rows, row, IsBlocked());
    CountOneMore(rows, row, IsBoundedRetry());
  }

  /** The final check of a B3 run that asks raises exactly when no reply was valid and the baseline makes the validator
      raise. */
  lemma AskingRunRaises(w: World, packet: Packet, iteration: nat, script: nat -> Reply, used: nat, cache: map<Key, Summary>, fault: Fault)
    requires Asks(w, B3, packet, cache, fault)
    ensures var row := RunArmResult(w, B3, packet, iteration, script, used, cache, fault).row;
      FinalCheckRaises(w, row) <==> row.fallback && BaselineRaises(w, packet)
  {
    B3TakesFirstValid(w, packet, iteration, script, used, cache, fault);
  }

  predicate BaselineRaises(w: World, packet: Packet) {
    w.baseline(packet) != "" && w.raises(w.baseline(packet), packet).Some?
  }

  /** The row of a faulty run: a timeout or a malformed output uses up the attempts and falls back, and a snapshot that does
      not match blocks the run before any attempt. */
  function FaultRow(w: World, packet: Packet, fault: Fault): Row {
    var s := w.baseline(packet);
    match fault
    case SnapshotMismatch => Row(B3, packet, 1, Blocked, false, "", 0, false, false, None, true)
    case ProviderTimeout => Row(B3, packet, 1, Fallback, Acceptable(w, s, packet), s, 2, false, true, Some("TimeoutError"), false)
    case _ => Row(B3, packet, 1, Fallback, Acceptable(w, s, packet), s, 2, false, true, Some("validation_failed"), false)
  }

  lemma FaultRowIs(w: World, packet: Packet, script: nat -> Reply, used: nat, fault: Fault)
    requires fault != NoFault
    ensures RunArmResult(w, B3, packet, 1, script, used, map[], fault).row == FaultRow(w, packet, fault)
  {
    if fault != SnapshotMismatch {
      FaultsAreContained(w, packet, 1, script, used, map[], fault);
      var replies := Replies(script, fault, used);
      InjectedNeverValid(w, packet, script, fault, used, 1);
      AllFail(w, packet, replies, 1);
      assert Tries(w, packet, replies, 2) == Try(w, packet, Tries(w, packet, replies, 1), replies(1));
    }
  }

  /** The rows of the fault suite: three for each packet, a malformed output, a timeout and a mismatch. */
  function FaultRows(w: World, packets: seq<Packet>): seq<Row> {
    if packets == [] then []
    else
      var packet := packets[|packets| - 1];
      FaultRows(w, packets[..|packets| - 1])
      + [FaultRow(w, packet, MalformedOutput), FaultRow(w, packet, ProviderTimeout), FaultRow(w, packet, SnapshotMismatch)]
  }

  /** Every faulty run is contained, one in three is blocked, and the others retry to the bound. */
  lemma {:induction false} FaultRowsAddUp(w: World, packets: seq<Packet>)
    ensures FaultCounts(FaultRows(w, packets), 3 * |packets|, |packets|, 2 * |packets|)
  {
    if packets != [] {
      var n := |packets| - 1;
      FaultRowsAddUp(w, packets[..n]);
      var rows, packet := FaultRows(w, packets[..n]), packets[n];
      var a, b, c := FaultRow(w, packet, MalformedOutput), FaultRow(w, packet, ProviderTimeout), FaultRow(w, packet, SnapshotMismatch);
      FaultRowCounts(rows, a, 3 * n, n, 2 * n);
      FaultRowCounts(rows + [a], b, 3 * n + 1, n, 2 * n + 1);
      FaultRowCounts(rows + [a] + [b], c, 3 * n + 2, n, 2 * n + 2);
      assert rows + [a, b, c] == rows + [a] + [b] + [c];
    }
  }

  /** The suite makes these rows without calling the real provider, and raises exactly when the validator raises over some
      packet's baseline. */
  method RunFaultSuite(w: World, provider: Provider, packets: seq<Packet>) returns (result: Result<seq<Row>, string>)
    modifies provider
    ensures result.Ok? <==> forall p :: 0 <= p < |packets| ==> !BaselineRaises(w, packets[p])
    ensures result.Ok? ==> result.value == FaultRows(w, packets)
    ensures provider.calls == old(provider.calls)
  {
    var rows := [];
    for p := 0 to |packets|
      invariant rows == FaultRows(w, packets[..p]) && provider.calls == old(provider.calls)
      invariant forall k :: 0 <= k < p ==> !BaselineRaises(w, packets[k])
    {
      assert packets[..p + 1][..p] == packets[..p];
      var more := RunFaults(w, provider, packets[p]);
      if more.Err? { return Err(more.error); }
      rows := rows + more.value;
    }
    assert packets[..|packets|] == packets;
    return Ok(rows);
  }

  /** The faulty runs of one packet, fault by fault. */
  method RunFaults(w: World, provider: Provider, packet: Packet) returns (result: Result<seq<Row>, string>)
    modifies provider
    ensures result.Ok? <==> !BaselineRaises(w, packet)
    ensures result.Ok? ==>
      result.value == [FaultRow(w, packet, MalformedOutput), FaultRow(w, packet, ProviderTimeout), FaultRow(w, packet, SnapshotMismatch)]
    ensures provider.calls == old(provider.calls)
  {
    ghost var all := [FaultRow(w, packet, MalformedOutput), FaultRow(w, packet, ProviderTimeout), FaultRow(w, packet, SnapshotMismatch)];
    var rows := [];
    for f := 0 to |FAULTS|
      invariant provider.calls == old(provider.calls) && (f >= 2 ==> !BaselineRaises(w, packet))
      invariant rows == all[..if f == 0 then 0 else f - 1]
    {
      if FAULTS[f] != NoFault {
        var row := RunFault(w, provider, packet, FAULTS[f]);
        if row.Err? { return Err(row.error); }
        rows := rows + [row.value];
      }
    }
    return Ok(rows);
  }

  /** One faulty run, over a state of its own. */
  method RunFault(w: World, provider: Provider, packet: Packet, fault: Fault) returns (row: Result<Row, string>)
    requires fault != NoFault
    modifies provider
    ensures provider.calls == old(provider.calls)
    ensures row.Err? <==> fault != SnapshotMismatch && BaselineRaises(w, packet)
    ensures row.Ok? ==> row.value == FaultRow(w, packet, fault)
  {
    var state := new SimulationState();
    FaultsAreContained(w, packet, 1, provider.script, provider.calls, state.cache, fault);
    FaultRowIs(w, packet, provider.script, provider.calls, fault);
    if fault != SnapshotMismatch {
      AskingRunRaises(w, packet, 1, provider.script, provider.calls, state.cache, fault);
    }
    row := RunArm(w, B3, packet, 1, provider, state, fault);
  }
}
