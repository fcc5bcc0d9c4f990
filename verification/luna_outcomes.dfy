/** What a run record says about its run, and what the report's figures say about the commands given so far. */
module LunaOutcomes {
  import opened Wrappers
  import opened Counting
  import opened LunaRuns
  import opened LunaTallies

  // ----- one record -----

  /** A summary that neither check complains about. */
  predicate Clean(a: Attempt) {
    a == Summarised([], [])
  }

  /** The record of a run: accepted, refused, or without a verdict because the connection failed; with the complaints of
      both checks, or with the name of what was raised. */
  predicate Tells(r: Record, item: Item, a: Attempt) {
    && r.item == item
    && r.accepted == (if Clean(a) then Some(true) else if ConnectionFailed(a) then None else Some(false))
    && (a.Summarised? ==> r.contractErrors == a.contractErrors && r.extraErrors == a.extraErrors && r.errorType == "")
    && (a.Raised? ==> r.contractErrors == [] && r.extraErrors == [] && r.errorType == a.errorType)
  }

  lemma RecordTells(item: Item, a: Attempt)
    ensures Tells(RecordOf(item, a), item, a)
    ensures IsTransient(RecordOf(item, a)) <==> ConnectionFailed(a)
  {
  }

  /** A command calls the provider for an index of the schedule that no file settles; what it saves tells of its attempt,
      unless the process dies first, and it changes no other file. */
  lemma CommandSaves(schedule: seq<Item>, disk: Disk, c: Command)
    ensures var after := Execute(schedule, disk, c);
      var runs := -|schedule| <= c.index < |schedule| && !(c.index in disk.files && !IsTransient(disk.files[c.index]));
      && after.executed == disk.executed + (if runs then [c.index] else [])
      && (runs && !c.crashed ==> c.index in after.files)
      && (runs && !c.crashed ==> Tells(after.files[c.index], schedule[if c.index < 0 then |schedule| + c.index else c.index], c.attempt))
      && (!runs || c.crashed ==> after.files == disk.files)
      && forall i :: i != c.index ==> (i in after.files <==> i in disk.files) && (i in after.files ==> after.files[i] == disk.files[i])
  {
    if ItemOf(schedule, c.index).Some? { RecordTells(ItemOf(schedule, c.index).value, c.attempt); }
  }

  // ----- all records -----

  /** Some command decided this index, and its attempt was of this kind. */
  ghost predicate DecidedAs(commands: seq<Command>, index: int, kind: Attempt -> bool) {
    exists k: nat :: FirstSettles(commands, k, index) && kind(commands[k].attempt)
  }

  /** The indices, negative ones included, that were decided with an attempt of this kind; of one case, or of all. */
  ghost function DecidedIndices(schedule: seq<Item>, commands: seq<Command>, input: Option<nat>, kind: Attempt -> bool): set<int> {
    set i: int | -|schedule| <= i < |schedule| && DecidedAs(commands, i, kind) && (input.Some? ==> CaseOf(schedule, i) == input.value)
  }

  /** The case a run index belongs to. */
  function CaseOf(schedule: seq<Item>, i: int): nat
    requires -|schedule| <= i < |schedule|
  {
    schedule[if i < 0 then |schedule| + i else i].inputIndex
  }

  lemma {:induction false} SomeFirst(commands: seq<Command>, k: nat, index: int) returns (first: nat)
    requires Settles(commands, k, index)
    ensures first <= k && FirstSettles(commands, first, index)
  {
    if h: nat :| h < k && Settles(commands, h, index) {
      first := SomeFirst(commands, h, index);
    } else {
      first := k;
    }
  }

  function FilesAfter(schedule: seq<Item>, commands: seq<Command>): map<int, Record> {
    History(schedule, commands, Disk(map[], [])).files
  }

  /** A saved record is one of a decided index, or its connection failed. */
  lemma RecordIsDecided(schedule: seq<Item>, commands: seq<Command>, index: int)
    requires -|schedule| <= index < |schedule|
    ensures var files := FilesAfter(schedule, commands);
      && (index in files && !IsTransient(files[index]) <==> exists k: nat :: FirstSettles(commands, k, index))
      && forall k: nat :: FirstSettles(commands, k, index) ==>
           index in files && Tells(files[index], schedule[if index < 0 then |schedule| + index else index], commands[k].attempt)
  {
    var n := |commands|;
    assert commands[..n] == commands;
    FirstSettledWins(schedule, commands, index, n);
    var files := FilesAfter(schedule, commands);
    if Settled(files, index) {
      var k: nat :| k < n && Settles(commands, k, index);
      var first := SomeFirst(commands, k, index);
    }
    forall k: nat | FirstSettles(commands, k, index)
      ensures Settled(files, index) && files[index] == RecordOf(ItemOf(schedule, index).value, commands[k].attempt)
    {
    }
    forall k: nat | FirstSettles(commands, k, index)
      ensures Tells(files[index], schedule[if index < 0 then |schedule| + index else index], commands[k].attempt)
    {
      RecordTells(ItemOf(schedule, index).value, commands[k].attempt);
    }
  }

  /** No record is saved under an index that is not one of the schedule. */
  lemma {:induction false} OnlyScheduledIsSaved(schedule: seq<Item>, commands: seq<Command>, index: int)
    requires index in FilesAfter(schedule, commands)
    ensures -|schedule| <= index < |schedule|
  {
    RecordsFollowSchedule(schedule, commands, index);
  }

  // ----- the report -----

  /** The report's rows: the records of all files, one a file, in some order of their names. */
  ghost predicate ListsFiles(files: map<int, Record>, names: seq<int>, rows: seq<Record>) {
    && |names| == |rows| && (set i | i in names) == files.Keys
    && (forall j, k :: 0 <= j < k < |names| ==> names[j] != names[k])
    && forall j :: 0 <= j < |names| ==> names[j] in files && rows[j] == files[names[j]]
  }

  /** The names of the rows that meet a test. */
  ghost function Chosen(names: seq<int>, rows: seq<Record>, p: Record -> bool): set<int>
    requires |names| == |rows|
  {
    if rows == [] then {}
    else
      var last := |rows| - 1;
      Chosen(names[..last], rows[..last], p) + if p(rows[last]) then {names[last]} else {}
  }

  lemma {:induction false} ChosenMeans(names: seq<int>, rows: seq<Record>, p: Record -> bool, i: int)
    requires |names| == |rows|
    ensures i in Chosen(names, rows, p) <==> exists j :: 0 <= j < |names| && names[j] == i && p(rows[j])
  {
    if rows != [] {
      var last := |rows| - 1;
      ChosenMeans(names[..last], rows[..last], p, i);
    }
  }

  lemma {:induction false} CountIsCardinality(names: seq<int>, rows: seq<Record>, p: Record -> bool)
    requires |names| == |rows| && forall j, k :: 0 <= j < k < |names| ==> names[j] != names[k]
    ensures Count(rows, p) == |Chosen(names, rows, p)|
  {
    if rows != [] {
      var last := |rows| - 1;
      CountIsCardinality(names[..last], rows[..last], p);
      ChosenMeans(names[..last], rows[..last], p, names[last]);
    }
  }

  function AnyKind(): Attempt -> bool {
    (a: Attempt) => true
  }

  function CleanKind(): Attempt -> bool {
    (a: Attempt) => Clean(a)
  }

  /** After any commands from an empty disk, the rows of a case that count are its decided indices, and the accepted rows
      are the decided indices whose first attempt that got through was clean. */
  lemma RowsAreDecidedRuns(schedule: seq<Item>, commands: seq<Command>, names: seq<int>, rows: seq<Record>, input: Option<nat>)
    requires ListsFiles(FilesAfter(schedule, commands), names, rows)
    ensures Count(rows, IsWithin(input)) == |DecidedIndices(schedule, commands, input, AnyKind())|
    ensures Count(rows, IsAccepted(input)) == |DecidedIndices(schedule, commands, input, CleanKind())|
  {
    var files := FilesAfter(schedule, commands);
    CountIsCardinality(names, rows, IsWithin(input));
    CountIsCardinality(names, rows, IsAccepted(input));
    forall i
      ensures i in DecidedIndices(schedule, commands, input, AnyKind()) <==> i in Chosen(names, rows, IsWithin(input))
      ensures i in DecidedIndices(schedule, commands, input, CleanKind()) <==> i in Chosen(names, rows, IsAccepted(input))
    {
      IndexCounts(schedule, commands, input, i);
      ChosenMeans(names, rows, IsWithin(input), i);
      ChosenMeans(names, rows, IsAccepted(input), i);
      assert i in files.Keys <==> i in names;
    }
    assert DecidedIndices(schedule, commands, input, AnyKind()) == Chosen(names, rows, IsWithin(input));
    assert DecidedIndices(schedule, commands, input, CleanKind()) == Chosen(names, rows, IsAccepted(input));
  }

  lemma IndexCounts(schedule: seq<Item>, commands: seq<Command>, input: Option<nat>, i: int)
    ensures var files := FilesAfter(schedule, commands);
      && (i in DecidedIndices(schedule, commands, input, AnyKind()) <==> i in files && Within(files[i], input))
      && (i in DecidedIndices(schedule, commands, input, CleanKind())
          <==> i in files && Within(files[i], input) && files[i].accepted == Some(true))
  {
    var files := FilesAfter(schedule, commands);
    if i in files { OnlyScheduledIsSaved(schedule, commands, i); }
    if -|schedule| <= i < |schedule| {
      RecordIsDecided(schedule, commands, i);
      if k: nat :| FirstSettles(commands, k, i) {
        assert AnyKind()(commands[k].attempt) && (CleanKind()(commands[k].attempt) <==> Clean(commands[k].attempt));
        forall h: nat | FirstSettles(commands, h, i) ensures h == k {
        }
      }
    }
  }

  /** The report over any command history: the valid runs, the accepted runs and those of each case are the decided
      indices, and the other records are those whose connection failed every time. */
  lemma ReportTellsHistory(schedule: seq<Item>, commands: seq<Command>, names: seq<int>, rows: seq<Record>, report: Report)
    requires ListsFiles(FilesAfter(schedule, commands), names, rows) && Tallies(rows, report)
    ensures report.completedRuns == |FilesAfter(schedule, commands)|
    ensures report.validRuns == |DecidedIndices(schedule, commands, None, AnyKind())|
    ensures report.acceptedRuns == |DecidedIndices(schedule, commands, None, CleanKind())|
    ensures forall c: nat ::
      && BucketOf(report.byCase, c).runs == |DecidedIndices(schedule, commands, Some(c), AnyKind())|
      && BucketOf(report.byCase, c).accepted == |DecidedIndices(schedule, commands, Some(c), CleanKind())|
  {
    var files := FilesAfter(schedule, commands);
    RowsAreDecidedRuns(schedule, commands, names, rows, None);
    DistinctNames(names);
    forall c: nat
      ensures BucketOf(report.byCase, c).runs == |DecidedIndices(schedule, commands, Some(c), AnyKind())|
      ensures BucketOf(report.byCase, c).accepted == |DecidedIndices(schedule, commands, Some(c), CleanKind())|
    {
      RowsAreDecidedRuns(schedule, commands, names, rows, Some(c));
      assert BucketTallies(rows, c, BucketOf(report.byCase, c));
    }
    assert |files| == |files.Keys|;
  }

  lemma {:induction false} DistinctNames(names: seq<int>)
    requires forall j, k :: 0 <= j < k < |names| ==> names[j] != names[k]
    ensures |set i | i in names| == |names|
  {
    if names != [] {
      var last := |names| - 1;
      DistinctNames(names[..last]);
      assert (set i | i in names) == (set i | i in names[..last]) + {names[last]};
    }
  }

  // ----- the failure counts -----

  /** How often an attempt is blamed for a tag: once for each complaint, or for the name of what was raised. */
  function Blame(a: Attempt, tag: string): nat {
    match a
    case Summarised(contract, extra) => multiset(contract)[tag] + multiset(extra)[tag]
    case Raised(name) => if name == tag && name != "" then 1 else 0
  }

  /** The blame on the attempt that decided this index, if it belongs to the case. */
  ghost function BlameAt(schedule: seq<Item>, commands: seq<Command>, input: Option<nat>, tag: string, i: int): nat {
    if -|schedule| <= i < |schedule| && (input.Some? ==> CaseOf(schedule, i) == input.value) && exists k: nat :: FirstSettles(commands, k, i) then
      var k: nat :| FirstSettles(commands, k, i);
      Blame(commands[k].attempt, tag)
    else 0
  }

  ghost function Total(names: seq<int>, f: int -> nat): nat {
    if names == [] then 0 else Total(names[..|names| - 1], f) + f(names[|names| - 1])
  }

  ghost function BlamesAt(schedule: seq<Item>, commands: seq<Command>, input: Option<nat>, tag: string): int -> nat {
    i => BlameAt(schedule, commands, input, tag, i)
  }

  lemma {:induction false} CountIsMultiplicity(xs: seq<string>, tag: string)
    ensures Count(xs, Is(tag)) == multiset(xs)[tag]
  {
    if xs != [] {
      var last := |xs| - 1;
      CountIsMultiplicity(xs[..last], tag);
      assert xs == xs[..last] + [xs[last]];
    }
  }

  lemma TagsAreBlame(r: Record, item: Item, a: Attempt, tag: string)
    requires Tells(r, item, a)
    ensures Count(Tags(r), Is(tag)) == Blame(a, tag)
  {
    CountIsMultiplicity(Tags(r), tag);
    if a.Summarised? {
      assert Tags(r) == a.contractErrors + a.extraErrors;
    } else {
      assert Tags(r) == if a.errorType != "" then [a.errorType] else [];
    }
  }

  lemma FileIsBlamed(schedule: seq<Item>, commands: seq<Command>, input: Option<nat>, tag: string, i: int)
    requires i in FilesAfter(schedule, commands)
    ensures var r := FilesAfter(schedule, commands)[i];
      BlameAt(schedule, commands, input, tag, i) == if Within(r, input) then Count(Tags(r), Is(tag)) else 0
  {
    var r := FilesAfter(schedule, commands)[i];
    OnlyScheduledIsSaved(schedule, commands, i);
    RecordIsDecided(schedule, commands, i);
    RecordsFollowSchedule(schedule, commands, i);
    forall k: nat | FirstSettles(commands, k, i) ensures Count(Tags(r), Is(tag)) == Blame(commands[k].attempt, tag) {
      TagsAreBlame(r, r.item, commands[k].attempt, tag);
    }
  }

  lemma {:induction false} FailuresTotal(schedule: seq<Item>, commands: seq<Command>, names: seq<int>, rows: seq<Record>,
      input: Option<nat>, tag: string)
    requires |names| == |rows|
    requires forall j :: 0 <= j < |names| ==> names[j] in FilesAfter(schedule, commands) && rows[j] == FilesAfter(schedule, commands)[names[j]]
    ensures Failures(rows, input, tag) == Total(names, BlamesAt(schedule, commands, input, tag))
  {
    if rows != [] {
      var last := |rows| - 1;
      FailuresTotal(schedule, commands, names[..last], rows[..last], input, tag);
      FileIsBlamed(schedule, commands, input, tag, names[last]);
    }
  }

  /** Every failure count of the report, overall and of each case, adds up the blame on the attempts that decided an
      index. */
  lemma FailuresTellHistory(schedule: seq<Item>, commands: seq<Command>, names: seq<int>, rows: seq<Record>, report: Report, tag: string)
    requires ListsFiles(FilesAfter(schedule, commands), names, rows) && Tallies(rows, report)
    ensures Get(report.failureCounts, tag) == Total(names, BlamesAt(schedule, commands, None, tag))
    ensures forall c: nat :: Get(BucketOf(report.byCase, c).failures, tag) == Total(names, BlamesAt(schedule, commands, Some(c), tag))
  {
    FailuresTotal(schedule, commands, names, rows, None, tag);
    forall c: nat ensures Get(BucketOf(report.byCase, c).failures, tag) == Total(names, BlamesAt(schedule, commands, Some(c), tag)) {
      FailuresTotal(schedule, commands, names, rows, Some(c), tag);
      assert FailuresTally(rows, Some(c), BucketOf(report.byCase, c).failures);
    }
  }
}
