/** The whole suite: which jobs reach the provider, and what the cache hands out, for any order of the jobs. */
module HarnessSuite {
  import opened Wrappers
  import opened Counting
  import opened Harness
  import opened HarnessRetry
  import opened Ordering

  /** Different packets among the jobs have different summary keys. */
  ghost predicate SeparateKeys(w: World, jobs: seq<Job>) {
    forall i, j :: 0 <= i < |jobs| && 0 <= j < |jobs| && w.key(jobs[i].packet) == w.key(jobs[j].packet) ==> jobs[i].packet == jobs[j].packet
  }

  /** The deterministic baseline of every packet meets the contract, and the empty summary meets none. */
  ghost predicate SoundBaselines(w: World, jobs: seq<Job>) {
    forall i :: 0 <= i < |jobs| ==> Acceptable(w, w.baseline(jobs[i].packet), jobs[i].packet) && w.errors("", jobs[i].packet) != []
  }

  /** Job `i` is a B3 job for this packet. */
  predicate Served(jobs: seq<Job>, i: nat, packet: Packet) {
    i < |jobs| && jobs[i].arm == B3 && jobs[i].packet == packet
  }

  /** No B3 job before `j` was for this packet. */
  ghost predicate Unserved(jobs: seq<Job>, j: nat, packet: Packet) {
    forall i: nat :: i < j ==> !Served(jobs, i, packet)
  }

  /** The run of job `j` of the suite. */
  function RunOf(w: World, script: nat -> Reply, jobs: seq<Job>, j: nat): Outcome
    requires j < |jobs|
  {
    var before := Suite(w, script, jobs[..j]);
    RunArmResult(w, jobs[j].arm, jobs[j].packet, jobs[j].iteration, script, before.used, before.cache, NoFault)
  }

  lemma SuiteStep(w: World, script: nat -> Reply, jobs: seq<Job>, n: nat)
    requires n < |jobs|
    ensures var before, after, run := Suite(w, script, jobs[..n]), Suite(w, script, jobs[..n + 1]), RunOf(w, script, jobs, n);
      after.rows == before.rows + [run.row] && after.cache == run.cache && after.used == run.used
  {
    assert jobs[..n + 1][..n] == jobs[..n];
  }

  /** A sequence that grows by one element a step holds the step's element at each index. */
  lemma {:induction false} GrownOneByOne<T>(whole: nat -> seq<T>, last: nat -> T, n: nat, j: nat)
    requires whole(0) == [] && forall k: nat :: k < n ==> whole(k + 1) == whole(k) + [last(k)]
    ensures |whole(n)| == n && (j < n ==> whole(n)[j] == last(j))
  {
    if n > 0 {
      GrownOneByOne(whole, last, n - 1, j);
      assert whole(n) == whole(n - 1) + [last(n - 1)];
    }
  }

  function RowsUpTo(w: World, script: nat -> Reply, jobs: seq<Job>, n: nat): seq<Row> {
    if n <= |jobs| then Suite(w, script, jobs[..n]).rows else []
  }

  lemma RowOf(w: World, script: nat -> Reply, jobs: seq<Job>, n: nat, j: nat)
    requires n <= |jobs|
    ensures |RowsUpTo(w, script, jobs, n)| == n
    ensures j < n ==> RowsUpTo(w, script, jobs, n)[j] == RunOf(w, script, jobs, j).row
  {
    var whole := (k: nat) => RowsUpTo(w, script, jobs, k);
    var last := (k: nat) =>
      if k < |jobs| then RunOf(w, script, jobs, k).row else RunArmResult(w, B1, "", 0, script, 0, map[], NoFault).row;
    forall k: nat | k < n ensures whole(k + 1) == whole(k) + [last(k)] {
      SuiteStep(w, script, jobs, k);
    }
    assert jobs[..0] == [];
    GrownOneByOne(whole, last, n, j);
  }

  // ----- the cache -----

  ghost predicate Kept(w: World, jobs: seq<Job>, rows: seq<Row>, cache: map<Key, Summary>, i: nat)
    requires i < |jobs| && i < |rows|
  {
    var key := w.key(jobs[i].packet);
    key in cache && cache[key] == rows[i].output && Acceptable(w, rows[i].output, jobs[i].packet)
  }

  /** After `n` jobs the cache holds a summary for exactly the packets of the B3 jobs accepted so far, and each
      of those jobs returned what it holds. */
  ghost predicate Tracks(w: World, jobs: seq<Job>, n: nat, rows: seq<Row>, cache: map<Key, Summary>)
    requires n <= |jobs|
  {
    && |rows| == n
    && (forall i: nat :: i < n && jobs[i].arm == B3 && rows[i].accepted ==> Kept(w, jobs, rows, cache, i))
    && (forall k :: k in cache ==> KeyOfAccepted(w, jobs, n, rows, k))
  }

  ghost predicate KeyOfAccepted(w: World, jobs: seq<Job>, n: nat, rows: seq<Row>, key: Key)
    requires n <= |jobs| && n <= |rows|
  {
    exists i: nat :: i < n && jobs[i].arm == B3 && rows[i].accepted && w.key(jobs[i].packet) == key
  }

  /** A B3 job asks the provider exactly when no B3 job before it was accepted for its packet. */
  lemma AsksUntilAccepted(w: World, jobs: seq<Job>, j: nat, rows: seq<Row>, cache: map<Key, Summary>)
    requires j < |jobs| && jobs[j].arm == B3 && SeparateKeys(w, jobs) && Tracks(w, jobs, j, rows, cache)
    ensures Asks(w, B3, jobs[j].packet, cache, NoFault) <==>
      forall i: nat :: i < j && Served(jobs, i, jobs[j].packet) ==> !rows[i].accepted
  {
    var key := w.key(jobs[j].packet);
    if key in cache {
      assert KeyOfAccepted(w, jobs, j, rows, key);
      var i: nat :| i < j && jobs[i].arm == B3 && rows[i].accepted && w.key(jobs[i].packet) == key;
      assert Served(jobs, i, jobs[j].packet);
    } else {
      forall i: nat | i < j && Served(jobs, i, jobs[j].packet) ensures !rows[i].accepted {
        assert rows[i].accepted ==> Kept(w, jobs, rows, cache, i);
      }
    }
  }

  /** What a job does to the cache: an accepted B3 job sets its own key to its own output and keeps a value it
      finds there; nothing else changes. */
  predicate Sets(w: World, job: Job, before: map<Key, Summary>, row: Row, after: map<Key, Summary>) {
    var key := w.key(job.packet);
    if job.arm != B3 || !row.accepted then after == before && (job.arm == B3 ==> key !in before)
    else
      && Acceptable(w, row.output, job.packet)
      && (key in before ==> row.output == before[key])
      && after == before[key := row.output]
  }

  lemma JobSets(w: World, script: nat -> Reply, jobs: seq<Job>, n: nat, rows: seq<Row>, cache: map<Key, Summary>, used: nat)
    requires n < |jobs| && SeparateKeys(w, jobs) && Tracks(w, jobs, n, rows, cache)
    ensures var run := RunArmResult(w, jobs[n].arm, jobs[n].packet, jobs[n].iteration, script, used, cache, NoFault);
      Sets(w, jobs[n], cache, run.row, run.cache)
  {
    var job := jobs[n];
    if job.arm == B3 {
      AsksUntilAccepted(w, jobs, n, rows, cache);
      if Asks(w, B3, job.packet, cache, NoFault) {
        OnlyAcceptedIsCached(w, B3, job.packet, job.iteration, script, used, cache, NoFault);
      } else {
        var i: nat :| i < n && Served(jobs, i, job.packet) && rows[i].accepted;
        assert Kept(w, jobs, rows, cache, i);
      }
    }
  }

  lemma KeptStep(w: World, jobs: seq<Job>, n: nat, rows: seq<Row>, cache: map<Key, Summary>, row: Row, after: map<Key, Summary>, i: nat)
    requires n < |jobs| && SeparateKeys(w, jobs) && Tracks(w, jobs, n, rows, cache) && Sets(w, jobs[n], cache, row, after)
    requires i <= n && jobs[i].arm == B3 && (rows + [row])[i].accepted
    ensures Kept(w, jobs, rows + [row], after, i)
  {
    if i < n {
      assert Kept(w, jobs, rows, cache, i);
      assert w.key(jobs[i].packet) == w.key(jobs[n].packet) ==> jobs[i].packet == jobs[n].packet;
    }
  }

  lemma KeyStep(w: World, jobs: seq<Job>, n: nat, rows: seq<Row>, cache: map<Key, Summary>, row: Row, after: map<Key, Summary>, k: Key)
    requires n < |jobs| && Tracks(w, jobs, n, rows, cache) && Sets(w, jobs[n], cache, row, after) && k in after
    ensures KeyOfAccepted(w, jobs, n + 1, rows + [row], k)
  {
    var all := rows + [row];
    if k in cache {
      assert KeyOfAccepted(w, jobs, n, rows, k);
      var i: nat :| i < n && jobs[i].arm == B3 && rows[i].accepted && w.key(jobs[i].packet) == k;
      assert all[i].accepted;
    } else {
      assert all[n].accepted;
    }
  }

  lemma TracksStep(w: World, jobs: seq<Job>, n: nat, rows: seq<Row>, cache: map<Key, Summary>, row: Row, after: map<Key, Summary>)
    requires n < |jobs| && SeparateKeys(w, jobs) && Tracks(w, jobs, n, rows, cache) && Sets(w, jobs[n], cache, row, after)
    ensures Tracks(w, jobs, n + 1, rows + [row], after)
  {
    forall i: nat | i < n + 1 && jobs[i].arm == B3 && (rows + [row])[i].accepted ensures Kept(w, jobs, rows + [row], after, i) {
      KeptStep(w, jobs, n, rows, cache, row, after, i);
    }
    forall k | k in after ensures KeyOfAccepted(w, jobs, n + 1, rows + [row], k) {
      KeyStep(w, jobs, n, rows, cache, row, after, k);
    }
  }

  ghost predicate CacheTracks(w: World, script: nat -> Reply, jobs: seq<Job>, n: nat)
    requires n <= |jobs|
  {
    var p := Suite(w, script, jobs[..n]);
    Tracks(w, jobs, n, p.rows, p.cache)
  }

  lemma CacheStep(w: World, script: nat -> Reply, jobs: seq<Job>, n: nat)
    requires n < |jobs| && SeparateKeys(w, jobs) && CacheTracks(w, script, jobs, n)
    ensures CacheTracks(w, script, jobs, n + 1)
  {
    var before, run := Suite(w, script, jobs[..n]), RunOf(w, script, jobs, n);
    SuiteStep(w, script, jobs, n);
    JobSets(w, script, jobs, n, before.rows, before.cache, before.used);
    TracksStep(w, jobs, n, before.rows, before.cache, run.row, run.cache);
  }

  ghost function TracksAt(w: World, script: nat -> Reply, jobs: seq<Job>): nat -> bool {
    (n: nat) => n <= |jobs| && CacheTracks(w, script, jobs, n)
  }

  lemma CacheStart(w: World, script: nat -> Reply, jobs: seq<Job>)
    ensures CacheTracks(w, script, jobs, 0)
  {
    assert jobs[..0] == [];
  }

  /** After any number of jobs the cache holds exactly the summaries that accepted B3 jobs returned, each under the
      key of its packet and valid for it, and every such job returned the one that is held. */
  lemma CacheInvariant(w: World, script: nat -> Reply, jobs: seq<Job>, n: nat)
    requires n <= |jobs| && SeparateKeys(w, jobs)
    ensures CacheTracks(w, script, jobs, n)
  {
    CacheStart(w, script, jobs);
    forall k: nat | k < n && TracksAt(w, script, jobs)(k) ensures TracksAt(w, script, jobs)(k + 1) {
      CacheStep(w, script, jobs, k);
    }
    StepByStep(TracksAt(w, script, jobs), n);
    assert TracksAt(w, script, jobs)(n);
  }

  /** B3 job `i`, before `j` and for the same packet, was accepted. */
  predicate AcceptedBefore(w: World, script: nat -> Reply, jobs: seq<Job>, i: nat, j: nat)
    requires j < |jobs|
  {
    i < j && Served(jobs, i, jobs[j].packet) && RunOf(w, script, jobs, i).row.accepted
  }

  /** A B3 job reuses exactly when an earlier one was accepted for its packet; it then returns that same
      accepted summary and calls nobody. */
  lemma ReusedExactlyAfterAccepted(w: World, script: nat -> Reply, jobs: seq<Job>, j: nat)
    requires j < |jobs| && jobs[j].arm == B3 && SeparateKeys(w, jobs)
    ensures var run, used := RunOf(w, script, jobs, j), Suite(w, script, jobs[..j]).used;
      && (run.row.reused <==> exists i: nat :: AcceptedBefore(w, script, jobs, i, j))
      && (run.row.reused ==> run.row.accepted && run.row.attempts == 0 && run.used == used)
      && (!run.row.reused ==> 1 <= run.row.attempts <= MAX_ATTEMPTS && run.used == used + run.row.attempts)
      && (forall i: nat :: AcceptedBefore(w, script, jobs, i, j) ==> RunOf(w, script, jobs, i).row.output == run.row.output)
  {
    var before, job := Suite(w, script, jobs[..j]), jobs[j];
    CacheInvariant(w, script, jobs, j);
    AsksUntilAccepted(w, jobs, j, before.rows, before.cache);
    forall i: nat | i < j && Served(jobs, i, job.packet)
      ensures AcceptedBefore(w, script, jobs, i, j) <==> before.rows[i].accepted
      ensures RunOf(w, script, jobs, i).row.output == before.rows[i].output
    {
      RowOf(w, script, jobs, j, i);
    }
    if Asks(w, B3, job.packet, before.cache, NoFault) {
      B3TakesFirstValid(w, job.packet, job.iteration, script, before.used, before.cache, NoFault);
    } else {
      var i: nat :| i < j && Served(jobs, i, job.packet) && before.rows[i].accepted;
      assert AcceptedBefore(w, script, jobs, i, j) && Kept(w, jobs, before.rows, before.cache, i);
      forall i: nat | AcceptedBefore(w, script, jobs, i, j) ensures before.rows[i].output == before.cache[w.key(job.packet)] {
        assert Kept(w, jobs, before.rows, before.cache, i);
      }
    }
  }

  /** Under sound baselines every B3 job is accepted, so only the first one for a packet asks. */
  lemma FirstAsksLaterReuse(w: World, script: nat -> Reply, jobs: seq<Job>, j: nat)
    requires j < |jobs| && jobs[j].arm == B3 && SeparateKeys(w, jobs) && SoundBaselines(w, jobs)
    ensures RunOf(w, script, jobs, j).row.accepted
    ensures RunOf(w, script, jobs, j).row.reused <==> !Unserved(jobs, j, jobs[j].packet)
  {
    ReusedExactlyAfterAccepted(w, script, jobs, j);
    AcceptedWhenSound(w, script, jobs, j);
    forall i: nat | i < j && Served(jobs, i, jobs[j].packet) ensures AcceptedBefore(w, script, jobs, i, j) {
      AcceptedWhenSound(w, script, jobs, i);
    }
  }

  lemma AcceptedWhenSound(w: World, script: nat -> Reply, jobs: seq<Job>, j: nat)
    requires j < |jobs| && jobs[j].arm == B3 && SeparateKeys(w, jobs) && SoundBaselines(w, jobs)
    ensures RunOf(w, script, jobs, j).row.accepted
  {
    ReusedExactlyAfterAccepted(w, script, jobs, j);
    var before, job := Suite(w, script, jobs[..j]), jobs[j];
    if Asks(w, B3, job.packet, before.cache, NoFault) {
      B3TakesFirstValid(w, job.packet, job.iteration, script, before.used, before.cache, NoFault);
    }
  }

  // ----- exceptions -----

  /** Job `j` falls back to a baseline that makes the validator raise. */
  predicate FallsBackRaising(w: World, script: nat -> Reply, jobs: seq<Job>, j: nat)
    requires j < |jobs|
  {
    jobs[j].arm == B3 && RunOf(w, script, jobs, j).row.fallback && BaselineRaises(w, jobs[j].packet)
  }

  lemma OnlyB3FallsBack(w: World, script: nat -> Reply, jobs: seq<Job>, j: nat)
    requires j < |jobs|
    ensures RunOf(w, script, jobs, j).row.packet == jobs[j].packet
    ensures jobs[j].arm == B3 ==> (RunOf(w, script, jobs, j).row.reused <==> !Asks(w, B3, jobs[j].packet, Suite(w, script, jobs[..j]).cache, NoFault))
    ensures RunOf(w, script, jobs, j).row.reused ==> !RunOf(w, script, jobs, j).row.fallback
  {
  }

  /** A row whose final check raises is a raising fallback, or repeats the summary of an earlier row that raises. */
  lemma {:induction false} RaisingRow(w: World, script: nat -> Reply, jobs: seq<Job>, j: nat) returns (i: nat)
    requires j < |jobs| && SeparateKeys(w, jobs) && FinalCheckRaises(w, RunOf(w, script, jobs, j).row)
    ensures i <= j && FallsBackRaising(w, script, jobs, i)
    decreases j
  {
    var before, job := Suite(w, script, jobs[..j]), jobs[j];
    OnlyB3FallsBack(w, script, jobs, j);
    if job.arm != B3 {
      DirectArmsTakeOneShot(w, job.arm, job.packet, job.iteration, script, before.used, before.cache, NoFault);
      assert false;
    } else if RunOf(w, script, jobs, j).row.reused {
      ReusedExactlyAfterAccepted(w, script, jobs, j);
      var k: nat :| AcceptedBefore(w, script, jobs, k, j);
      OnlyB3FallsBack(w, script, jobs, k);
      i := RaisingRow(w, script, jobs, k);
    } else {
      AskingRunRaises(w, job.packet, job.iteration, script, before.used, before.cache, NoFault);
      i := j;
    }
  }

  lemma FallbackRaises(w: World, script: nat -> Reply, jobs: seq<Job>, j: nat)
    requires j < |jobs| && FallsBackRaising(w, script, jobs, j)
    ensures FinalCheckRaises(w, RunOf(w, script, jobs, j).row)
  {
    var before, job := Suite(w, script, jobs[..j]), jobs[j];
    OnlyB3FallsBack(w, script, jobs, j);
    AskingRunRaises(w, job.packet, job.iteration, script, before.used, before.cache, NoFault);
  }

  lemma RowsRaise(w: World, script: nat -> Reply, jobs: seq<Job>, rows: seq<Row>)
    requires SeparateKeys(w, jobs) && |rows| == |jobs| && forall j: nat :: j < |jobs| ==> rows[j] == RunOf(w, script, jobs, j).row
    ensures NoneRaises(w, rows) <==> forall j: nat :: j < |jobs| ==> !FallsBackRaising(w, script, jobs, j)
  {
    if j: nat :| j < |jobs| && FallsBackRaising(w, script, jobs, j) {
      FallbackRaises(w, script, jobs, j);
      assert rows[j] in rows;
    } else if !NoneRaises(w, rows) {
      var row :| row in rows && FinalCheckRaises(w, row);
      var j: nat :| j < |rows| && rows[j] == row;
      var i := RaisingRow(w, script, jobs, j);
    }
  }

  /** The suite gets through without an exception exactly when no B3 job falls back to a baseline that makes the
      validator raise. */
  lemma RaisesExactly(w: World, script: nat -> Reply, jobs: seq<Job>)
    requires SeparateKeys(w, jobs)
    ensures NoneRaises(w, Suite(w, script, jobs).rows) <==> forall j: nat :: j < |jobs| ==> !FallsBackRaising(w, script, jobs, j)
  {
    var rows := Suite(w, script, jobs).rows;
    assert jobs[..|jobs|] == jobs;
    RowOf(w, script, jobs, |jobs|, |jobs|);
    forall j: nat | j < |jobs| ensures rows[j] == RunOf(w, script, jobs, j).row {
      RowOf(w, script, jobs, |jobs|, j);
    }
    RowsRaise(w, script, jobs, rows);
  }

  // ----- the traces -----

  /** What the workflow trace of a B3 row says. */
  function TraceOf(w: World, row: Row): Trace {
    Trace(w.key(row.packet), row.status, row.attempts, row.fallback, row.reason)
  }

  function TracesOf(w: World, rows: seq<Row>): seq<Trace> {
    if rows == [] then []
    else
      var row := rows[|rows| - 1];
      AddTrace(TracesOf(w, rows[..|rows| - 1]), if row.arm == B3 then Some(TraceOf(w, row)) else None)
  }

  ghost predicate TracesAgree(w: World, rows: seq<Row>, traces: seq<Trace>) {
    traces == TracesOf(w, rows)
  }

  lemma TracesStep(w: World, rows: seq<Row>, traces: seq<Trace>, row: Row)
    requires TracesAgree(w, rows, traces)
    ensures TracesAgree(w, rows + [row], AddTrace(traces, if row.arm == B3 then Some(TraceOf(w, row)) else None))
  {
    assert (rows + [row])[..|rows|] == rows;
  }

  lemma TraceOfRun(w: World, job: Job, script: nat -> Reply, used: nat, cache: map<Key, Summary>)
    ensures var run := RunArmResult(w, job.arm, job.packet, job.iteration, script, used, cache, NoFault);
      && run.trace == (if run.row.arm == B3 then Some(TraceOf(w, run.row)) else None)
      && run.row.arm == job.arm && run.row.packet == job.packet && run.row.iteration == job.iteration
  {
  }

  /** The state's trace list is, in order, one trace for each B3 row, with that row's figures. */
  lemma {:induction false} TracesFollowRows(w: World, script: nat -> Reply, jobs: seq<Job>)
    ensures TracesAgree(w, Suite(w, script, jobs).rows, Suite(w, script, jobs).traces)
  {
    if jobs != [] {
      var last := |jobs| - 1;
      TracesFollowRows(w, script, jobs[..last]);
      var before := Suite(w, script, jobs[..last]);
      TraceOfRun(w, jobs[last], script, before.used, before.cache);
      var job := jobs[last];
      var run := RunArmResult(w, job.arm, job.packet, job.iteration, script, before.used, before.cache, NoFault);
      TracesStep(w, before.rows, before.traces, run.row);
    }
  }

  // ----- counting calls and reuses -----

  function IsB3(): Job -> bool {
    (job: Job) => job.arm == B3
  }

  function IsReuse(): Row -> bool {
    (row: Row) => row.arm == B3 && row.reused
  }

  /** The attempts of the rows, or of the B3 rows alone. */
  function Attempts(rows: seq<Row>, onlyB3: bool): nat {
    if rows == [] then 0
    else
      var row := rows[|rows| - 1];
      Attempts(rows[..|rows| - 1], onlyB3) + if onlyB3 ==> row.arm == B3 then row.attempts else 0
  }

  /** The packets that some B3 job asks for. */
  function B3Packets(jobs: seq<Job>): set<Packet> {
    set job | job in jobs && job.arm == B3 :: job.packet
  }

  lemma AttemptsOneMore(rows: seq<Row>, row: Row, onlyB3: bool)
    ensures Attempts(rows + [row], onlyB3) == Attempts(rows, onlyB3) + if onlyB3 ==> row.arm == B3 then row.attempts else 0
  {
    assert (rows + [row])[..|rows|] == rows;
  }

  lemma RunCallsAreAttempts(w: World, job: Job, script: nat -> Reply, used: nat, cache: map<Key, Summary>)
    ensures var run := RunArmResult(w, job.arm, job.packet, job.iteration, script, used, cache, NoFault);
      run.used == used + run.row.attempts
  {
  }

  /** Every call the provider ever serves is an attempt in exactly one row. */
  lemma {:induction false} CallsAreAttempts(w: World, script: nat -> Reply, jobs: seq<Job>)
    ensures var p := Suite(w, script, jobs); p.used == Attempts(p.rows, false)
  {
    if jobs != [] {
      var before, job := Suite(w, script, jobs[..|jobs| - 1]), jobs[|jobs| - 1];
      var run := RunArmResult(w, job.arm, job.packet, job.iteration, script, before.used, before.cache, NoFault);
      CallsAreAttempts(w, script, jobs[..|jobs| - 1]);
      RunCallsAreAttempts(w, job, script, before.used, before.cache);
      AttemptsOneMore(before.rows, run.row, false);
    }
  }

  lemma B3PacketsGrow(jobs: seq<Job>, n: nat)
    requires n < |jobs|
    ensures var before, after, job := B3Packets(jobs[..n]), B3Packets(jobs[..n + 1]), jobs[n];
      && after == (if job.arm == B3 then before + {job.packet} else before)
      && (Unserved(jobs, n, job.packet) <==> job.packet !in before)
  {
    var before, after, job := B3Packets(jobs[..n]), B3Packets(jobs[..n + 1]), jobs[n];
    assert jobs[..n + 1] == jobs[..n] + [job];
    if job.packet in before {
      var earlier :| earlier in jobs[..n] && earlier.arm == B3 && earlier.packet == job.packet;
      var i: nat :| i < n && jobs[..n][i] == earlier;
      assert Served(jobs, i, job.packet);
    } else {
      forall i: nat | i < n ensures !Served(jobs, i, job.packet) {
        assert jobs[i] in jobs[..n];
      }
    }
  }

  /** Each row answers its job, and a B3 row is a call within the bound or a reuse, as its job comes first or not. */
  ghost predicate FirstOrReuse(jobs: seq<Job>, rows: seq<Row>, j: nat)
    requires j < |jobs| && j < |rows|
  {
    && rows[j].arm == jobs[j].arm
    && (jobs[j].arm == B3 ==>
      if Unserved(jobs, j, jobs[j].packet) then !rows[j].reused && 1 <= rows[j].attempts <= MAX_ATTEMPTS
      else rows[j].reused && rows[j].attempts == 0)
  }

  /** The balance of reuses, packets and calls after some jobs. */
  ghost predicate Balanced(jobs: seq<Job>, rows: seq<Row>) {
    var distinct := |B3Packets(jobs)|;
    && Count(rows, IsReuse()) + distinct == Count(jobs, IsB3())
    && distinct <= Attempts(rows, true) <= MAX_ATTEMPTS * distinct
  }

  lemma BalanceStep(jobs: seq<Job>, rows: seq<Row>, job: Job, row: Row, first: bool)
    requires Balanced(jobs, rows) && row.arm == job.arm
    requires B3Packets(jobs + [job]) == if job.arm == B3 then B3Packets(jobs) + {job.packet} else B3Packets(jobs)
    requires first <==> job.packet !in B3Packets(jobs)
    requires job.arm == B3 ==> if first then !row.reused && 1 <= row.attempts <= MAX_ATTEMPTS else row.reused && row.attempts == 0
    ensures Balanced(jobs + [job], rows + [row])
  {
    CountOneMore(rows, row, IsReuse());
    AttemptsOneMore(rows, row, true);
    CountOneMore(jobs, job, IsB3());
    var distinct := B3Packets(jobs);
    if first {
      assert |distinct + {job.packet}| == |distinct| + 1;
    } else {
      assert distinct + {job.packet} == distinct;
    }
  }

  lemma {:induction false} ReusesAndCalls(jobs: seq<Job>, rows: seq<Row>, n: nat)
    requires n <= |jobs| == |rows| && forall j: nat :: j < n ==> FirstOrReuse(jobs, rows, j)
    ensures Balanced(jobs[..n], rows[..n])
  {
    if n > 0 {
      var last := n - 1;
      ReusesAndCalls(jobs, rows, last);
      assert FirstOrReuse(jobs, rows, last);
      B3PacketsGrow(jobs, last);
      assert jobs[..n] == jobs[..last] + [jobs[last]] && rows[..n] == rows[..last] + [rows[last]];
      BalanceStep(jobs[..last], rows[..last], jobs[last], rows[last], Unserved(jobs, last, jobs[last].packet));
    }
  }

  lemma EveryRowFits(w: World, script: nat -> Reply, jobs: seq<Job>)
    requires SeparateKeys(w, jobs) && SoundBaselines(w, jobs)
    ensures var rows := Suite(w, script, jobs).rows;
      |rows| == |jobs| && forall j: nat :: j < |jobs| ==> FirstOrReuse(jobs, rows, j)
  {
    var n, rows := |jobs|, RowsUpTo(w, script, jobs, |jobs|);
    assert jobs[..n] == jobs;
    RowOf(w, script, jobs, n, n);
    forall j: nat | j < n ensures FirstOrReuse(jobs, rows, j) {
      RowOf(w, script, jobs, n, j);
      if jobs[j].arm == B3 {
        ReusedExactlyAfterAccepted(w, script, jobs, j);
        FirstAsksLaterReuse(w, script, jobs, j);
      }
    }
  }

  /** For any job list: reuses and distinct packets add up to the B3 jobs, and the packets bound the calls. */
  lemma SuiteBalances(w: World, script: nat -> Reply, jobs: seq<Job>)
    requires SeparateKeys(w, jobs) && SoundBaselines(w, jobs)
    ensures Balanced(jobs, Suite(w, script, jobs).rows)
  {
    var n, rows := |jobs|, Suite(w, script, jobs).rows;
    EveryRowFits(w, script, jobs);
    ReusesAndCalls(jobs, rows, n);
    assert jobs[..n] == jobs && rows[..n] == rows;
  }

  // ----- the job list -----

  function Iterations(arm: Arm, packet: Packet, n: nat): seq<Job> {
    if n == 0 then [] else Iterations(arm, packet, n - 1) + [Job(arm, packet, n)]
  }

  /** Every packet under every arm, `n` times each, before the shuffle. */
  function ProductJobs(packets: seq<Packet>, n: nat): seq<Job> {
    if packets == [] then []
    else
      var packet := packets[|packets| - 1];
      ProductJobs(packets[..|packets| - 1], n) + PacketJobs(packet, n)
  }

  lemma {:induction false} IterationsCount(arm: Arm, packet: Packet, n: nat)
    ensures Count(Iterations(arm, packet, n), IsB3()) == if arm == B3 then n else 0
  {
    if n > 0 {
      IterationsCount(arm, packet, n - 1);
      CountOneMore(Iterations(arm, packet, n - 1), Job(arm, packet, n), IsB3());
    }
  }

  lemma {:induction false} IterationsMembers(arm: Arm, packet: Packet, n: nat, job: Job)
    ensures job in Iterations(arm, packet, n) <==> job.arm == arm && job.packet == packet && 1 <= job.iteration <= n
  {
    if n > 0 { IterationsMembers(arm, packet, n - 1, job); }
  }

  function PacketJobs(packet: Packet, n: nat): seq<Job> {
    Iterations(B1, packet, n) + Iterations(B2, packet, n) + Iterations(B3, packet, n)
  }

  lemma PacketCount(packet: Packet, n: nat)
    ensures Count(PacketJobs(packet, n), IsB3()) == n
  {
    var b1, b2, b3 := Iterations(B1, packet, n), Iterations(B2, packet, n), Iterations(B3, packet, n);
    IterationsCount(B1, packet, n);
    IterationsCount(B2, packet, n);
    IterationsCount(B3, packet, n);
    CountConcat(b1, b2, IsB3());
    CountConcat(b1 + b2, b3, IsB3());
  }

  lemma PacketMembers(packet: Packet, n: nat, job: Job)
    ensures job in PacketJobs(packet, n) <==> job.packet == packet && 1 <= job.iteration <= n
  {
    IterationsMembers(B1, packet, n, job);
    IterationsMembers(B2, packet, n, job);
    IterationsMembers(B3, packet, n, job);
    match job.arm
    case B1 =>
    case B2 =>
    case B3 =>
  }

  lemma {:induction false} ProductCount(packets: seq<Packet>, n: nat)
    ensures Count(ProductJobs(packets, n), IsB3()) == |packets| * n
  {
    if packets != [] {
      var last := |packets| - 1;
      ProductCount(packets[..last], n);
      PacketCount(packets[last], n);
      ConcatCounts(ProductJobs(packets[..last], n), PacketJobs(packets[last], n), last, n);
    }
  }

  lemma ConcatCounts(xs: seq<Job>, ys: seq<Job>, a: nat, n: nat)
    requires Count(xs, IsB3()) == a * n && Count(ys, IsB3()) == n
    ensures Count(xs + ys, IsB3()) == (a + 1) * n
  {
    CountConcat(xs, ys, IsB3());
  }

  lemma {:induction false} ProductMembers(packets: seq<Packet>, n: nat, job: Job)
    ensures job in ProductJobs(packets, n) <==> job.packet in packets && 1 <= job.iteration <= n
  {
    if packets != [] {
      var last := |packets| - 1;
      ProductMembers(packets[..last], n, job);
      PacketMembers(packets[last], n, job);
      assert packets == packets[..last] + [packets[last]];
    }
  }

  lemma {:induction false} DistinctCount<T>(xs: seq<T>)
    requires Distinct(xs)
    ensures |set x | x in xs| == |xs|
  {
    if xs != [] {
      var last := |xs| - 1;
      DistinctCount(xs[..last]);
      assert (set x | x in xs) == (set x | x in xs[..last]) + {xs[last]};
    }
  }

  lemma ShuffledMembers(packets: seq<Packet>, n: nat, jobs: seq<Job>, job: Job)
    requires multiset(jobs) == multiset(ProductJobs(packets, n))
    ensures job in jobs <==> job.packet in packets && 1 <= job.iteration <= n
  {
    ProductMembers(packets, n, job);
    assert job in multiset(jobs) <==> job in multiset(ProductJobs(packets, n));
  }

  lemma PacketsOfShuffle(packets: seq<Packet>, iterations: nat, jobs: seq<Job>)
    requires iterations >= 1 && multiset(jobs) == multiset(ProductJobs(packets, iterations))
    ensures B3Packets(jobs) == set p | p in packets
  {
    forall p ensures p in B3Packets(jobs) <==> p in packets {
      ShuffledMembers(packets, iterations, jobs, Job(B3, p, 1));
      forall job | job in jobs ensures job.packet in packets { ShuffledMembers(packets, iterations, jobs, job); }
    }
  }

  lemma BalanceOfShuffle(packets: seq<Packet>, iterations: nat, jobs: seq<Job>, rows: seq<Row>)
    requires Distinct(packets) && iterations >= 1 && multiset(jobs) == multiset(ProductJobs(packets, iterations))
    requires Balanced(jobs, rows)
    ensures Count(rows, IsReuse()) == |packets| * (iterations - 1)
    ensures |packets| <= Attempts(rows, true) <= MAX_ATTEMPTS * |packets|
  {
    ProductCount(packets, iterations);
    CountPermuted(jobs, ProductJobs(packets, iterations), IsB3());
    PacketsOfShuffle(packets, iterations, jobs);
    DistinctCount(packets);
    OneLess(|packets|, iterations, Count(rows, IsReuse()));
  }

  lemma OneLess(a: nat, n: nat, reuses: nat)
    requires n >= 1 && reuses + a == a * n
    ensures reuses == a * (n - 1)
  {
  }

  /** For every shuffle of the job list and every provider: all B3 runs are accepted, each packet costs at most
      MAX_ATTEMPTS calls, and all but one of its runs are reuses. */
  lemma ReuseForgetsTheShuffle(w: World, script: nat -> Reply, packets: seq<Packet>, iterations: nat, jobs: seq<Job>)
    requires Distinct(packets) && iterations >= 1 && multiset(jobs) == multiset(ProductJobs(packets, iterations))
    requires forall p, q :: p in packets && q in packets && w.key(p) == w.key(q) ==> p == q
    requires forall p :: p in packets ==> Acceptable(w, w.baseline(p), p) && w.errors("", p) != []
    ensures var rows := Suite(w, script, jobs).rows;
      && Count(rows, IsReuse()) == |packets| * (iterations - 1)
      && |packets| <= Attempts(rows, true) <= MAX_ATTEMPTS * |packets|
  {
    forall j | 0 <= j < |jobs| ensures jobs[j].packet in packets { ShuffledMembers(packets, iterations, jobs, jobs[j]); }
    SuiteBalances(w, script, jobs);
    BalanceOfShuffle(packets, iterations, jobs, Suite(w, script, jobs).rows);
  }
}
