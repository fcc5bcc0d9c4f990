/** Which provider replies are complained about, told from the fields and the characters of the reply. */
module HarnessReplies {
  import opened Wrappers
  import opened WhiteSpace
  import opened Harness
  import opened HarnessRetry

  /** The code points that stripping removes. */
  lemma SpacesByCodePoint(c: char)
    ensures Space(c) <==>
      var n := c as int;
      || 9 <= n <= 13 || 28 <= n <= 32 || n == 133 || n == 160 || n == 5760 || 8192 <= n <= 8202
      || n == 8232 || n == 8233 || n == 8239 || n == 8287 || n == 12288
  {
  }

  /** A text with something in it besides white space. */
  ghost predicate HasText(v: Value) {
    v.Text? && exists c :: c in v.s && !Space(c)
  }

  ghost predicate NamesRole(v: Value) {
    v == Text("process_engineer") || v == Text("maintenance_technician") || v == Text("process_manager")
  }

  ghost predicate GoodItem(item: RoleItem) {
    item.RoleItem? && NamesRole(item.role) && HasText(item.quote)
  }

  ghost predicate ThreeRoles(e: Editable) {
    e.Object? && e.roles.Some? && |e.roles.value| == 3
  }

  ghost predicate WellFormed(e: Editable) {
    && ThreeRoles(e) && HasText(e.title) && HasText(e.summary)
    && GoodItem(e.roles.value[0]) && GoodItem(e.roles.value[1]) && GoodItem(e.roles.value[2])
  }

  ghost predicate FirstBad(items: seq<RoleItem>, k: nat) {
    k < |items| && !GoodItem(items[k]) && forall j: nat :: j < k ==> GoodItem(items[j])
  }

  /** The role items are scanned in order, and the first bad one's role cannot be looked up in a set. */
  ghost predicate TripsOnRole(e: Editable) {
    ThreeRoles(e) && exists k: nat :: FirstBad(e.roles.value, k) && e.roles.value[k].RoleItem? && e.roles.value[k].role.Unhashable?
  }

  lemma FilledMeans(v: Value)
    ensures Filled(v) <==> HasText(v)
  {
  }

  lemma GoodRoleMeans(item: RoleItem)
    ensures GoodRole(item) <==> GoodItem(item)
  {
    if item.RoleItem? { FilledMeans(item.quote); }
  }

  lemma {:induction false} ScanMeans(items: seq<RoleItem>, k: nat)
    ensures FirstBad(items, k) ==>
      SomeRoleBad(items) == if items[k].RoleItem? && items[k].role.Unhashable? then Err("TypeError") else Ok(true)
    ensures k == |items| && (forall j: nat :: j < k ==> GoodItem(items[j])) ==> SomeRoleBad(items) == Ok(false)
    decreases |items|
  {
    if items != [] {
      GoodRoleMeans(items[0]);
      var rest := items[1..];
      if k > 0 {
        ScanMeans(rest, k - 1);
        assert forall j: nat :: j < |rest| ==> rest[j] == items[j + 1];
      }
    }
  }

  /** A scan either meets a first bad item or only good ones. */
  lemma FirstBadOrNone(items: seq<RoleItem>) returns (k: nat)
    ensures k <= |items| && forall j: nat :: j < k ==> GoodItem(items[j])
    ensures k < |items| ==> FirstBad(items, k)
  {
    k := 0;
    while k < |items| && GoodItem(items[k])
      invariant k <= |items| && forall j: nat :: j < k ==> GoodItem(items[j])
    {
      k := k + 1;
    }
  }

  /** Checking a reply raises exactly when the first bad one of its three role items has an unhashable role. */
  lemma CheckRaisesExactly(e: Editable)
    ensures EditableErrors(e).Err? <==> TripsOnRole(e)
    ensures EditableErrors(e).Err? ==> EditableErrors(e).error == "TypeError"
  {
    if ThreeRoles(e) {
      var items := e.roles.value;
      var k := FirstBadOrNone(items);
      ScanMeans(items, k);
      forall m: nat | FirstBad(items, m) ensures m == k {
      }
    }
  }

  /** Complaints about the title come before those about the summary, and these before those about the roles. */
  predicate Before(a: string, b: string) {
    || (a == "title_not_string" && b in {"summary_not_string", "role_summaries_invalid", "role_summary_invalid"})
    || (a == "summary_not_string" && b in {"role_summaries_invalid", "role_summary_invalid"})
  }

  /** Every fault has its own complaint, in a fixed order and once each. */
  lemma ComplaintsExactly(e: Editable)
    requires !TripsOnRole(e)
    ensures EditableErrors(e).Ok?
    ensures var errors := EditableErrors(e).value;
      && ("candidate_not_object" in errors <==> e.NotObject?)
      && ("title_not_string" in errors <==> e.Object? && !HasText(e.title))
      && ("summary_not_string" in errors <==> e.Object? && !HasText(e.summary))
      && ("role_summaries_invalid" in errors <==> e.Object? && !ThreeRoles(e))
      && ("role_summary_invalid" in errors <==> ThreeRoles(e) && exists k: nat :: k < 3 && !GoodItem(e.roles.value[k]))
      && (e.NotObject? ==> |errors| == 1)
      && (e.Object? ==> forall i, j :: 0 <= i < j < |errors| ==> Before(errors[i], errors[j]))
      && forall x :: x in errors ==>
        x in {"candidate_not_object", "title_not_string", "summary_not_string", "role_summaries_invalid", "role_summary_invalid"}
  {
    CheckRaisesExactly(e);
    if e.Object? {
      FilledMeans(e.title);
      FilledMeans(e.summary);
      if ThreeRoles(e) {
        var k := FirstBadOrNone(e.roles.value);
        ScanMeans(e.roles.value, k);
      }
    }
  }

  /** Nothing is complained about exactly for a well-formed reply. */
  lemma CleanExactly(e: Editable)
    ensures EditableErrors(e) == Ok([]) <==> WellFormed(e)
  {
    CheckRaisesExactly(e);
    if !TripsOnRole(e) {
      ComplaintsExactly(e);
      var errors := EditableErrors(e).value;
      assert errors != [] ==> errors[0] in errors;
    }
  }

  /** The contract accepts a reply exactly when it is well formed, merges, and the merged summary validates cleanly. */
  lemma ValidExactly(w: World, packet: Packet, reply: Reply)
    ensures Valid(w, packet, reply) <==>
      && reply.Returned? && WellFormed(reply.editable)
      && exists merged ::
           w.merge(w.baseline(packet), reply.editable) == Ok(merged) && w.raises(merged, packet) == None && w.errors(merged, packet) == []
  {
    if reply.Returned? {
      CleanExactly(reply.editable);
      var m := w.merge(w.baseline(packet), reply.editable);
      if m.Ok? { assert m == Ok(m.value); }
    }
  }

  // ----- the reason -----

  /** The reason a reply gives for its failure: the name of what was raised, or that validation failed. */
  ghost predicate Blames(w: World, packet: Packet, reply: Reply, name: string) {
    match reply
    case Raised(raised) => name == raised
    case Returned(e) =>
      if TripsOnRole(e) then name == "TypeError"
      else if !WellFormed(e) then name == "validation_failed"
      else
        match w.merge(w.baseline(packet), e)
        case Err(raised) => name == raised
        case Ok(merged) =>
          if w.raises(merged, packet).Some? then name == w.raises(merged, packet).value
          else w.errors(merged, packet) != [] && name == "validation_failed"
  }

  lemma FailureIsNamed(w: World, packet: Packet, l: Loop, reply: Reply)
    requires !Valid(w, packet, reply)
    ensures Judged(w, packet, l, reply).reason.Some? && Blames(w, packet, reply, Judged(w, packet, l, reply).reason.value)
  {
    if reply.Returned? {
      CleanExactly(reply.editable);
      CheckRaisesExactly(reply.editable);
    }
  }

  /** With no valid reply the loop leaves the reason of the last one. */
  lemma ReasonOfFailure(w: World, packet: Packet, replies: nat -> Reply, n: nat)
    requires NoneValid(w, packet, replies, n) && n > 0
    ensures var reason := Tries(w, packet, replies, n).reason; reason.Some? && Blames(w, packet, replies(n - 1), reason.value)
  {
    AllFail(w, packet, replies, n - 1);
    FailureIsNamed(w, packet, Tries(w, packet, replies, n - 1), replies(n - 1));
  }

  /** A success keeps the reason of the failure just before it. */
  lemma ReasonOfSuccess(w: World, packet: Packet, replies: nat -> Reply, f: nat, n: nat)
    requires f < n && FirstValid(w, packet, replies, f)
    ensures var reason := Tries(w, packet, replies, n).reason;
      if f == 0 then reason == None else reason.Some? && Blames(w, packet, replies(f - 1), reason.value)
  {
    AllFail(w, packet, replies, f);
    SuccessStays(w, packet, replies, f + 1, n);
    if f > 0 { ReasonOfFailure(w, packet, replies, f); }
  }

  // ----- the whole run -----

  /** What the injected fault makes of the provider's replies. */
  lemma RepliesAreTold(script: nat -> Reply, fault: Fault, used: nat, i: nat)
    ensures var reply := Replies(script, fault, used)(i);
      && (fault == NoFault || fault == SnapshotMismatch ==> reply == script(used + i))
      && (fault == ProviderTimeout ==> reply == Raised("TimeoutError"))
      && (fault == MalformedOutput ==> reply == Returned(Object(NotText, NotText, None)))
  {
  }

  /** A run that reaches the provider: it asks until a reply is valid, twice at most for B3 and once otherwise, and
      every field of its row, its trace and the cache follows from the replies asked for. */
  ghost predicate RowIsTold(w: World, arm: Arm, packet: Packet, iteration: nat, replies: nat -> Reply, row: Row) {
    var last := row.attempts - 1;
    && row.arm == arm && row.packet == packet && row.iteration == iteration && !row.reused && !row.blocked
    && 1 <= row.attempts <= (if arm == B3 then 2 else 1)
    && (forall i: nat :: i < last ==> !Valid(w, packet, replies(i)))
    && (row.attempts == (if arm == B3 then 2 else 1) || Valid(w, packet, replies(last)))
    && (row.fallback <==> arm == B3 && !Valid(w, packet, replies(last)))
    && row.output == OutputTold(w, arm, packet, replies(last))
    && (row.accepted <==> row.output != "" && w.errors(row.output, packet) == [])
    && row.status == (if row.fallback then Fallback else if row.accepted then Completed else Invalid)
    && ReasonIsTold(w, packet, replies, row)
  }

  /** A direct arm hands out what it merged even when that does not validate; B3 hands out the baseline instead. */
  ghost function OutputTold(w: World, arm: Arm, packet: Packet, reply: Reply): Summary {
    if Mergeable(w, packet, reply) && w.raises(Merged(w, packet, reply), packet) == None
      && (arm == B3 ==> w.errors(Merged(w, packet, reply), packet) == []) then Merged(w, packet, reply)
    else if arm == B3 then w.baseline(packet)
    else ""
  }

  /** The reason is the last failure's, and there is none when the first reply was valid. */
  ghost predicate ReasonIsTold(w: World, packet: Packet, replies: nat -> Reply, row: Row)
    requires 1 <= row.attempts
  {
    var last := row.attempts - 1;
    if !Valid(w, packet, replies(last)) then row.reason.Some? && Blames(w, packet, replies(last), row.reason.value)
    else if last > 0 then row.reason.Some? && Blames(w, packet, replies(last - 1), row.reason.value)
    else row.reason == None
  }

  lemma SuccessIsTold(w: World, arm: Arm, packet: Packet, iteration: nat, script: nat -> Reply, used: nat,
      cache: map<Key, Summary>, fault: Fault, f: nat)
    requires Asks(w, arm, packet, cache, fault) && f < AttemptsOf(arm) && FirstValid(w, packet, Replies(script, fault, used), f)
    ensures RowIsTold(w, arm, packet, iteration, Replies(script, fault, used),
              RunArmResult(w, arm, packet, iteration, script, used, cache, fault).row)
  {
    var replies := Replies(script, fault, used);
    FirstValidWins(w, packet, replies, f, AttemptsOf(arm));
    ReasonOfSuccess(w, packet, replies, f, AttemptsOf(arm));
  }

  lemma FailureIsTold(w: World, arm: Arm, packet: Packet, iteration: nat, script: nat -> Reply, used: nat,
      cache: map<Key, Summary>, fault: Fault)
    requires Asks(w, arm, packet, cache, fault) && NoneValid(w, packet, Replies(script, fault, used), AttemptsOf(arm))
    ensures RowIsTold(w, arm, packet, iteration, Replies(script, fault, used),
              RunArmResult(w, arm, packet, iteration, script, used, cache, fault).row)
  {
    var replies, n := Replies(script, fault, used), AttemptsOf(arm);
    AllFail(w, packet, replies, n);
    ReasonOfFailure(w, packet, replies, n);
    LastCandidate(w, packet, replies, n);
  }

  lemma AskingRunIsTold(w: World, arm: Arm, packet: Packet, iteration: nat, script: nat -> Reply, used: nat,
      cache: map<Key, Summary>, fault: Fault)
    requires Asks(w, arm, packet, cache, fault)
    ensures var run := RunArmResult(w, arm, packet, iteration, script, used, cache, fault);
      var row := run.row;
      && RowIsTold(w, arm, packet, iteration, Replies(script, fault, used), row)
      && run.trace == (if arm == B3 then Some(Trace(w.key(packet), row.status, row.attempts, row.fallback, row.reason)) else None)
      && run.cache == (if arm == B3 && row.accepted then cache[w.key(packet) := row.output] else cache)
      && run.used == used + (if fault == NoFault || fault == SnapshotMismatch then row.attempts else 0)
  {
    var replies := Replies(script, fault, used);
    var f := FirstOrNone(w, packet, replies, AttemptsOf(arm));
    if f < AttemptsOf(arm) {
      SuccessIsTold(w, arm, packet, iteration, script, used, cache, fault, f);
    } else {
      FailureIsTold(w, arm, packet, iteration, script, used, cache, fault);
    }
  }

  /** What the last of the failed attempts leaves as candidate. */
  lemma LastCandidate(w: World, packet: Packet, replies: nat -> Reply, n: nat)
    requires NoneValid(w, packet, replies, n) && n > 0
    ensures var l, reply := Tries(w, packet, replies, n), replies(n - 1);
      var usable := Mergeable(w, packet, reply) && w.raises(Merged(w, packet, reply), packet) == None;
      l.candidate == if usable then Some(Merged(w, packet, reply)) else None
  {
    AllFail(w, packet, replies, n - 1);
  }

  ghost predicate NothingDone(run: Outcome) {
    var row := run.row;
    row.blocked && row.status == Blocked && !row.accepted && !row.reused && row.output == "" && run.trace == None
  }

  ghost predicate HandsOutCached(w: World, packet: Packet, cache: map<Key, Summary>, run: Outcome) {
    var row := run.row;
    && w.key(packet) in cache && row.output == cache[w.key(packet)]
    && !row.blocked && row.reused && row.status == Reused
    && (row.accepted <==> row.output != "" && w.errors(row.output, packet) == [])
    && run.trace == Some(Trace(w.key(packet), Reused, 0, false, None))
  }

  /** A B3 run that does not ask hands out the cached summary, or nothing at all when the snapshot does not match. */
  lemma SilentRunIsTold(w: World, arm: Arm, packet: Packet, iteration: nat, script: nat -> Reply, used: nat,
      cache: map<Key, Summary>, fault: Fault)
    requires !Asks(w, arm, packet, cache, fault)
    ensures var run := RunArmResult(w, arm, packet, iteration, script, used, cache, fault);
      var row := run.row;
      && arm == B3 == row.arm && row.packet == packet && row.iteration == iteration
      && run.cache == cache && run.used == used
      && row.attempts == 0 && !row.fallback && row.reason == None
      && (if fault == SnapshotMismatch then NothingDone(run) else fault == NoFault && HandsOutCached(w, packet, cache, run))
  {
  }
}
