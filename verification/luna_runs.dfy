/** Resumable round-robin runs over frozen inputs, and their tallies. */
module LunaRuns {
  import opened Wrappers
  import opened Counting
  import opened Division

  // ----- the schedule -----

  datatype Item = Item(runIndex: nat, inputIndex: nat, caseLabel: string, iteration: nat)

  function ItemAt(labels: seq<string>, k: nat): Item
    requires |labels| > 0
  {
    Item(k, k % |labels| + 1, labels[k % |labels|], k / |labels| + 1)
  }

  predicate IsSchedule(labels: seq<string>, schedule: seq<Item>, total: nat) {
    && |labels| > 0 && |schedule| == total
    && forall k :: 0 <= k < total ==> schedule[k] == ItemAt(labels, k)
  }

  datatype Registration = Registration(schedule: seq<Item>, runsPerCase: nat, remainderRuns: nat)

  /** The script's total is 120. Dividing by the number of inputs fails when there are none. */
  method Prepare(labels: seq<string>, total: nat) returns (r: Result<Registration, string>)
    ensures r.Err? <==> labels == []
    ensures r.Ok? ==>
      IsSchedule(labels, r.value.schedule, total) && r.value.runsPerCase * |labels| + r.value.remainderRuns == total
    ensures r.Ok? ==> forall input :: 1 <= input <= |labels| ==>
      Count(r.value.schedule, OfInput(input)) == r.value.runsPerCase + if input <= r.value.remainderRuns then 1 else 0
  {
    if |labels| == 0 { return Err("ZeroDivisionError"); }
    var schedule: seq<Item> := [];
    for k := 0 to total
      invariant IsSchedule(labels, schedule, k)
    {
      schedule := schedule + [ItemAt(labels, k)];
    }
    forall input | 1 <= input <= |labels|
      ensures Count(schedule, OfInput(input)) == total / |labels| + if input <= total % |labels| then 1 else 0
    {
      InputsAreBalanced(labels, schedule, total, input);
    }
    return Ok(Registration(schedule, total / |labels|, total % |labels|));
  }

  /** Round robin, told step by step: the first runs take the inputs in turn, and every later run is the one a whole round
      before it with the next iteration number. */
  lemma RoundRobin(labels: seq<string>, schedule: seq<Item>, total: nat, k: nat)
    requires IsSchedule(labels, schedule, total) && k < total
    ensures schedule[k].runIndex == k
    ensures k < |labels| ==> schedule[k].inputIndex == k + 1 && schedule[k].caseLabel == labels[k] && schedule[k].iteration == 1
    ensures k >= |labels| ==> var before := schedule[k - |labels|];
      && schedule[k].inputIndex == before.inputIndex && schedule[k].caseLabel == before.caseLabel
      && schedule[k].iteration == before.iteration + 1
  {
    if k < |labels| {
      FirstRound(k, |labels|);
    } else {
      OneRoundMore(k - |labels|, |labels|);
    }
  }

  function OfInput(input: nat): Item -> bool {
    (item: Item) => item.inputIndex == input
  }

  /** No (input, iteration) pair is scheduled twice. */
  lemma PairsAreDistinct(labels: seq<string>, schedule: seq<Item>, total: nat, j: nat, k: nat)
    requires IsSchedule(labels, schedule, total) && j < total && k < total
    requires schedule[j].inputIndex == schedule[k].inputIndex && schedule[j].iteration == schedule[k].iteration
    ensures j == k
  {
    var n := |labels|;
    assert j == (j / n) * n + j % n && k == (k / n) * n + k % n;
  }

  lemma {:induction false} InputCount(labels: seq<string>, schedule: seq<Item>, total: nat, input: nat)
    requires IsSchedule(labels, schedule, total) && 1 <= input <= |labels|
    ensures Count(schedule, OfInput(input)) == WithRemainder(total, |labels|, input - 1)
    decreases total
  {
    if total > 0 {
      InputCount(labels, schedule[..total - 1], total - 1, input);
    }
  }

  /** Every input gets the registered number of runs, the first few one more from the remainder; so two inputs
      differ by at most one run. */
  lemma InputsAreBalanced(labels: seq<string>, schedule: seq<Item>, total: nat, input: nat)
    requires IsSchedule(labels, schedule, total) && 1 <= input <= |labels|
    ensures Count(schedule, OfInput(input)) == total / |labels| + if input <= total % |labels| then 1 else 0
  {
    InputCount(labels, schedule, total, input);
    RemaindersAreBalanced(total, |labels|, input - 1);
  }

  // ----- running and resuming -----

  /** What happened when a run was executed. */
  datatype Attempt = Summarised(contractErrors: seq<string>, extraErrors: seq<string>) | Raised(errorType: string)

  datatype Record = Record(
    item: Item,
    accepted: Option<bool>,
    contractErrors: seq<string>,
    extraErrors: seq<string>,
    errorType: string)

  const TRANSIENT: set<string> := {"ConnectError", "ReadTimeout", "TimeoutException", "RemoteProtocolError"}

  predicate IsTransient(r: Record) {
    r.errorType in TRANSIENT
  }

  /** The four kinds of error that are put down to the connection. */
  predicate ConnectionFailed(a: Attempt) {
    && a.Raised?
    && (a.errorType == "ConnectError" || a.errorType == "ReadTimeout" || a.errorType == "TimeoutException" || a.errorType == "RemoteProtocolError")
  }

  function RecordOf(item: Item, a: Attempt): Record {
    match a
    case Summarised(contract, extra) => Record(item, Some(contract == [] && extra == []), contract, extra, "")
    case Raised(name) => Record(item, if name in TRANSIENT then None else Some(false), [], [], name)
  }

  /** One command: run this index; `crashed` when the process died before the record was saved. */
  datatype Command = Command(index: int, attempt: Attempt, crashed: bool)

  /** The run files, named by the index that was asked for, and which commands executed a run (called the provider). */
  datatype Disk = Disk(files: map<int, Record>, executed: seq<int>)

  /** Looking up an index in the schedule: a negative one counts from the end. */
  function ItemOf(schedule: seq<Item>, index: int): Option<Item> {
    if 0 <= index < |schedule| then Some(schedule[index])
    else if -|schedule| <= index < 0 then Some(schedule[|schedule| + index])
    else None
  }

  predicate Settled(files: map<int, Record>, index: int) {
    index in files && !IsTransient(files[index])
  }

  function Execute(schedule: seq<Item>, disk: Disk, c: Command): Disk {
    if ItemOf(schedule, c.index).None? || Settled(disk.files, c.index) then disk
    else
      Disk(if c.crashed then disk.files else disk.files[c.index := RecordOf(ItemOf(schedule, c.index).value, c.attempt)],
           disk.executed + [c.index])
  }

  function History(schedule: seq<Item>, commands: seq<Command>, disk: Disk): Disk {
    if commands == [] then disk
    else
      var last := |commands| - 1;
      Execute(schedule, History(schedule, commands[..last], disk), commands[last])
  }

  class OutputDir {
    var schedule: seq<Item>
    var files: map<int, Record>
    ghost var executed: seq<int>

    ghost function Value(): Disk
      reads this
    {
      Disk(files, executed)
    }

    constructor (schedule: seq<Item>)
      ensures this.schedule == schedule && Value() == Disk(map[], [])
    {
      this.schedule, files, executed := schedule, map[], [];
    }

    method RunOne(c: Command) returns (row: Option<Record>)
      modifies this
      ensures schedule == old(schedule)
      ensures Value() == Execute(schedule, old(Value()), c)
      ensures ItemOf(schedule, c.index).None? ==> row == None
      ensures ItemOf(schedule, c.index).Some? && !c.crashed ==> c.index in files && row == Some(files[c.index])
    {
      var item := ItemOf(schedule, c.index);
      if item.None? { return None; }
      if c.index in files {
        var existing := files[c.index];
        if !IsTransient(existing) { return Some(existing); }
      }
      executed := executed + [c.index];
      if c.crashed { return None; }
      var result := RecordOf(item.value, c.attempt);
      files := files[c.index := result];
      return Some(result);
    }
  }

  lemma HistoryStep(schedule: seq<Item>, commands: seq<Command>, disk: Disk, n: nat)
    requires n < |commands|
    ensures History(schedule, commands[..n + 1], disk) == Execute(schedule, History(schedule, commands[..n], disk), commands[n])
  {
    assert commands[..n + 1][..n] == commands[..n];
  }

  function IsIndex(index: int): int -> bool {
    (i: int) => i == index
  }

  /** A settled record is never changed and its run never executed again, whatever is run afterwards. */
  lemma {:induction false} SettledIsFinal(schedule: seq<Item>, commands: seq<Command>, disk: Disk, index: int)
    requires Settled(disk.files, index)
    ensures var after := History(schedule, commands, disk);
      && Settled(after.files, index) && after.files[index] == disk.files[index]
      && Count(after.executed, IsIndex(index)) == Count(disk.executed, IsIndex(index))
  {
    if commands != [] {
      var last := |commands| - 1;
      SettledIsFinal(schedule, commands[..last], disk, index);
      var before := History(schedule, commands[..last], disk);
      CountOneMore(before.executed, commands[last].index, IsIndex(index));
    }
  }

  /** Command `i` saves a settled record for this index. */
  predicate Settles(commands: seq<Command>, i: nat, index: int) {
    i < |commands| && commands[i].index == index && !commands[i].crashed && !ConnectionFailed(commands[i].attempt)
  }

  predicate FirstSettles(commands: seq<Command>, i: nat, index: int) {
    Settles(commands, i, index) && forall h: nat :: h < i ==> !Settles(commands, h, index)
  }

  /** Starting from nothing, an index is settled exactly when some command settled it, and then its record is
      the first such command's: interruptions and transient errors before it leave no mark. */
  lemma {:induction false} FirstSettledWins(schedule: seq<Item>, commands: seq<Command>, index: int, n: nat)
    requires ItemOf(schedule, index).Some? && n <= |commands|
    ensures var files := History(schedule, commands[..n], Disk(map[], [])).files;
      && (Settled(files, index) <==> exists i: nat :: i < n && Settles(commands, i, index))
      && forall i: nat :: i < n && FirstSettles(commands, i, index) ==> files[index] == RecordOf(ItemOf(schedule, index).value, commands[i].attempt)
  {
    if n == 0 {
      assert commands[..0] == [];
    } else {
      FirstSettledWins(schedule, commands, index, n - 1);
      HistoryStep(schedule, commands, Disk(map[], []), n - 1);
      assert Settles(commands, n - 1, index) || !Settles(commands, n - 1, index);
    }
  }

  /** Every record on disk is the record of its own scheduled item. */
  lemma {:induction false} RecordsFollowSchedule(schedule: seq<Item>, commands: seq<Command>, index: int)
    requires index in History(schedule, commands, Disk(map[], [])).files
    ensures ItemOf(schedule, index) == Some(History(schedule, commands, Disk(map[], [])).files[index].item)
  {
    if commands != [] {
      var last := |commands| - 1;
      if index in History(schedule, commands[..last], Disk(map[], [])).files {
        RecordsFollowSchedule(schedule, commands[..last], index);
      }
    }
  }

  /** A negative index reaches a run under a second name: after its own index has settled it is executed once more, and
      the report then finds two records of the same item. */
  lemma NegativeIndexRunsAgain(schedule: seq<Item>, k: nat, first: Attempt, second: Attempt)
    requires k < |schedule| && !IsTransient(RecordOf(schedule[k], first))
    ensures var again := k - |schedule|;
      var disk := Execute(schedule, Execute(schedule, Disk(map[], []), Command(k, first, false)), Command(again, second, false));
      && disk.executed == [k, again] && disk.files.Keys == {k, again} && again != k
      && disk.files[k].item == schedule[k] == disk.files[again].item
  {
    var again := k - |schedule|;
    var once := Execute(schedule, Disk(map[], []), Command(k, first, false));
    assert once.files == map[k := RecordOf(schedule[k], first)] && once.executed == [k];
    assert !Settled(once.files, again);
  }
}
