/** Which events a ranking returns and in which order, told from the factors of the prediction rows. */
module RiskFactors {
  import opened Wrappers
  import opened Ordering
  import opened RiskRise
  import opened RiskRanking

  /** A factor that pushes the risk up, on a feature whose name starts with the prefix. */
  predicate Drives(prefix: string, f: Factor) {
    f.direction.RiskUp? && |f.feature| >= |prefix| && f.feature[..|prefix|] == prefix
  }

  /** The largest contribution of the driving factors. */
  ghost predicate Strongest(prefix: string, factors: seq<Factor>, top: real) {
    && (exists f :: f in factors && Drives(prefix, f) && f.contribution == top)
    && forall f :: f in factors && Drives(prefix, f) ==> f.contribution <= top
  }

  /** The strongest driving factor, of contribution `top`, in the considered row of the event's asset at its peak. */
  ghost predicate DrivenBy(eligible: Option<set<string>>, points: seq<Point>, prefix: string, e: Event, top: real) {
    exists x :: x in points && (eligible.Some? ==> x.assetType in eligible.value)
      && x.assetId == e.assetId && x.observedAt == e.peakAt && Strongest(prefix, x.topFactors, top)
  }

  ghost predicate Driven(eligible: Option<set<string>>, points: seq<Point>, prefix: string, e: Event) {
    exists top :: DrivenBy(eligible, points, prefix, e, top)
  }

  lemma {:induction false} ContributionsMeans(prefix: string, factors: seq<Factor>, c: real)
    ensures c in Contributions(prefix, factors) <==> exists f :: f in factors && Drives(prefix, f) && f.contribution == c
  {
    if factors != [] {
      var f, rest := factors[0], factors[1..];
      ContributionsMeans(prefix, rest, c);
      assert factors == [f] + rest;
      assert prefix <= f.feature && f.direction == RiskUp <==> Drives(prefix, f);
    }
  }

  lemma StrongestIsMax(prefix: string, factors: seq<Factor>, top: real)
    ensures Strongest(prefix, factors, top) <==> Contributions(prefix, factors) != [] && top == Max(Contributions(prefix, factors))
  {
    var found := Contributions(prefix, factors);
    forall c ensures c in found <==> exists f :: f in factors && Drives(prefix, f) && f.contribution == c {
      ContributionsMeans(prefix, factors, c);
    }
    forall f | f in factors && Drives(prefix, f) ensures f.contribution in found {
    }
    if found != [] { assert found[0] in found; }
  }

  /** An indexed event has an entry exactly when it is driven, and the entry holds the strongest contribution. */
  lemma EntryIsTold(eligible: Option<set<string>>, points: seq<Point>, rows: map<RowKey, Point>, prefix: string, e: Event, top: real)
    requires IndexesExactly(eligible, points, rows) && PeakKey(e) in rows
    ensures DrivenBy(eligible, points, prefix, e, top) <==> EntryFor(rows, prefix, e) == Some(Entry(e.delta, top, e))
  {
    var peak := rows[PeakKey(e)];
    StrongestIsMax(prefix, peak.topFactors, top);
    assert peak in points && Considered(eligible, peak) && KeyOf(peak) == PeakKey(e);
    forall x | x in points && Considered(eligible, x) && x.assetId == e.assetId && x.observedAt == e.peakAt ensures x == peak {
      assert KeyOf(x) == PeakKey(e);
    }
  }

  /** Larger rise first, then larger contribution, then the smaller id. */
  predicate InOrder(e: Event, top: real, f: Event, top': real) {
    e.delta > f.delta || (e.delta == f.delta && (top > top' || (top == top' && LexLe(e.eventId, f.eventId))))
  }

  lemma OneMore<T>(xs: seq<T>, x: T, y: T)
    ensures multiset(xs + [x])[y] == multiset(xs)[y] + if x == y then 1 else 0
  {
  }

  lemma {:induction false} MatchingCount(rows: map<RowKey, Point>, prefix: string, events: seq<Event>, e: Event)
    ensures multiset(Matching(rows, prefix, events))[e]
      == if PeakKey(e) in rows && Contributions(prefix, rows[PeakKey(e)].topFactors) != [] then multiset(events)[e] else 0
  {
    if events != [] {
      var last := |events| - 1;
      MatchingCount(rows, prefix, events[..last], e);
      OneMore(events[..last], events[last], e);
      OneMore(Matching(rows, prefix, events[..last]), events[last], e);
      assert events == events[..last] + [events[last]];
    }
  }

  lemma MatchingMeans(eligible: Option<set<string>>, points: seq<Point>, rows: map<RowKey, Point>, prefix: string, events: seq<Event>, e: Event)
    requires IndexesExactly(eligible, points, rows) && Covered(rows, events)
    ensures multiset(Matching(rows, prefix, events))[e] == if Driven(eligible, points, prefix, e) then multiset(events)[e] else 0
  {
    MatchingCount(rows, prefix, events, e);
    if e in events {
      DrivenMeans(eligible, points, rows, prefix, e);
    } else {
      assert multiset(events)[e] == 0;
    }
  }

  lemma DrivenMeans(eligible: Option<set<string>>, points: seq<Point>, rows: map<RowKey, Point>, prefix: string, e: Event)
    requires IndexesExactly(eligible, points, rows) && PeakKey(e) in rows
    ensures Driven(eligible, points, prefix, e) <==> Contributions(prefix, rows[PeakKey(e)].topFactors) != []
  {
    var found := Contributions(prefix, rows[PeakKey(e)].topFactors);
    if found != [] { EntryIsTold(eligible, points, rows, prefix, e, Max(found)); }
    if top: real :| DrivenBy(eligible, points, prefix, e, top) { EntryIsTold(eligible, points, rows, prefix, e, top); }
  }

  /** A ranking returns each driven event as often as it was given and no other event, and any two of them in order of
      rise, then of their strongest contribution, then of id. */
  lemma RankingIsTold(events: seq<Event>, points: seq<Point>, prefix: string, eligible: Option<set<string>>)
    requires Rank(events, points, prefix, eligible).Ok?
    ensures var ranked := Rank(events, points, prefix, eligible).value;
      && (forall e :: multiset(ranked)[e] == if Driven(eligible, points, prefix, e) then multiset(events)[e] else 0)
      && (forall i, j, top, top' :: 0 <= i < j < |ranked|
            && DrivenBy(eligible, points, prefix, ranked[i], top) && DrivenBy(eligible, points, prefix, ranked[j], top')
            ==> InOrder(ranked[i], top, ranked[j], top'))
  {
    var ranked := Rank(events, points, prefix, eligible).value;
    var rows, entries := RankingIsSortedMatches(events, points, prefix, eligible);
    IndexIs(eligible, points, rows);
    EntriesExist(rows, prefix, events);
    forall e ensures multiset(ranked)[e] == if Driven(eligible, points, prefix, e) then multiset(events)[e] else 0 {
      MatchingMeans(eligible, points, rows, prefix, events, e);
    }
    forall i, j, top, top' | 0 <= i < j < |ranked|
        && DrivenBy(eligible, points, prefix, ranked[i], top) && DrivenBy(eligible, points, prefix, ranked[j], top')
      ensures InOrder(ranked[i], top, ranked[j], top')
    {
      assert entries[i] in entries && entries[j] in entries && ranked[i] == entries[i].event && ranked[j] == entries[j].event;
      EntryIsTold(eligible, points, rows, prefix, ranked[i], top);
      EntryIsTold(eligible, points, rows, prefix, ranked[j], top');
      assert RanksBefore(entries[i], entries[j]);
    }
  }

  /** There is only one index of the rows. */
  lemma IndexIs(eligible: Option<set<string>>, points: seq<Point>, rows: map<RowKey, Point>)
    requires RowsByKey(eligible, points).Ok? && IndexesExactly(eligible, points, rows)
    ensures RowsByKey(eligible, points).value == rows
  {
    IndexExact(eligible, points);
    var index := RowsByKey(eligible, points).value;
    forall k | k in rows ensures k in index && index[k] == rows[k] { assert rows[k] in points; }
    forall k | k in index ensures k in rows { assert index[k] in points; }
    assert index.Keys == rows.Keys;
  }

  // ----- when it raises -----

  /** Row `i` is the first considered one whose asset and time an earlier considered row already has. */
  ghost predicate FirstRepeat(eligible: Option<set<string>>, points: seq<Point>, i: nat) {
    && i < |points| && UniqueKeys(eligible, points[..i]) && !UniqueKeys(eligible, points[..i + 1])
  }

  lemma {:induction false} RepeatIsNamed(eligible: Option<set<string>>, points: seq<Point>, i: nat)
    requires FirstRepeat(eligible, points, i)
    ensures RowsByKey(eligible, points) == Err(DuplicateKey((points[i].assetId, points[i].observedAt)))
  {
    IndexExact(eligible, points[..i]);
    IndexExact(eligible, points[..i + 1]);
    assert points[..i + 1][..i] == points[..i];
    ErrStays(eligible, points, i + 1);
  }

  lemma {:induction false} SomeFirstRepeat(eligible: Option<set<string>>, points: seq<Point>, n: nat) returns (i: nat)
    requires n <= |points| && !UniqueKeys(eligible, points[..n])
    ensures FirstRepeat(eligible, points, i)
  {
    if UniqueKeys(eligible, points[..n - 1]) {
      i := n - 1;
    } else {
      i := SomeFirstRepeat(eligible, points, n - 1);
    }
  }

  /** Event `i` is the first without a considered row of its asset at its peak. */
  ghost predicate FirstUnmatched(eligible: Option<set<string>>, points: seq<Point>, events: seq<Event>, i: nat) {
    && i < |events| && !HasRow(eligible, points, events[i]) && forall j: nat :: j < i ==> HasRow(eligible, points, events[j])
  }

  ghost predicate HasRow(eligible: Option<set<string>>, points: seq<Point>, e: Event) {
    exists x :: x in points && (eligible.Some? ==> x.assetType in eligible.value) && x.assetId == e.assetId && x.observedAt == e.peakAt
  }

  lemma HasRowMeans(eligible: Option<set<string>>, points: seq<Point>, rows: map<RowKey, Point>, e: Event)
    requires IndexesExactly(eligible, points, rows)
    ensures HasRow(eligible, points, e) <==> PeakKey(e) in rows
  {
    if PeakKey(e) in rows { assert rows[PeakKey(e)] in points; }
    if x :| x in points && Considered(eligible, x) && x.assetId == e.assetId && x.observedAt == e.peakAt { assert KeyOf(x) == PeakKey(e); }
  }

  /** A ranking raises for the first repeated row or else for the first event without a row, and names its asset and
      time; without either it returns. */
  lemma RankingRaises(events: seq<Event>, points: seq<Point>, prefix: string, eligible: Option<set<string>>)
    ensures var r := Rank(events, points, prefix, eligible);
      && (r.Ok? <==> UniqueKeys(eligible, points) && forall e :: e in events ==> HasRow(eligible, points, e))
      && (forall i: nat :: FirstRepeat(eligible, points, i) ==> r == Err(DuplicateKey((points[i].assetId, points[i].observedAt))))
      && (forall i: nat :: UniqueKeys(eligible, points) && FirstUnmatched(eligible, points, events, i)
            ==> r == Err(MissingPeak((events[i].assetId, events[i].peakAt))))
      && (r.Err? ==> (exists i: nat :: FirstRepeat(eligible, points, i)) || exists i: nat :: FirstUnmatched(eligible, points, events, i))
  {
    IndexExact(eligible, points);
    assert points[..|points|] == points;
    forall i: nat | FirstRepeat(eligible, points, i)
      ensures RowsByKey(eligible, points) == Err(DuplicateKey((points[i].assetId, points[i].observedAt)))
    {
      RepeatIsNamed(eligible, points, i);
    }
    if !UniqueKeys(eligible, points) {
      var i := SomeFirstRepeat(eligible, points, |points|);
    } else {
      UnmatchedIsNamed(events, points, prefix, eligible);
    }
  }

  lemma UnmatchedIsNamed(events: seq<Event>, points: seq<Point>, prefix: string, eligible: Option<set<string>>)
    requires UniqueKeys(eligible, points)
    ensures var r := Rank(events, points, prefix, eligible);
      && (r.Ok? <==> forall e :: e in events ==> HasRow(eligible, points, e))
      && (forall i: nat :: FirstUnmatched(eligible, points, events, i) ==> r == Err(MissingPeak((events[i].assetId, events[i].peakAt))))
      && (r.Err? ==> exists i: nat :: FirstUnmatched(eligible, points, events, i))
  {
    IndexExact(eligible, points);
    var rows := RowsByKey(eligible, points).value;
    forall e ensures HasRow(eligible, points, e) <==> PeakKey(e) in rows {
      HasRowMeans(eligible, points, rows, e);
    }
    EntriesExist(rows, prefix, events);
    forall i: nat | FirstUnmatched(eligible, points, events, i)
      ensures Entries(rows, prefix, events) == Err(MissingPeak(PeakKey(events[i])))
    {
      EntriesExist(rows, prefix, events[..i]);
      assert events[..i + 1][..i] == events[..i];
      MissingStays(rows, prefix, events, i + 1);
    }
    if !Covered(rows, events) {
      var i := FirstUncovered(rows, events);
      assert FirstUnmatched(eligible, points, events, i);
    }
  }

  lemma FirstUncovered(rows: map<RowKey, Point>, events: seq<Event>) returns (i: nat)
    requires !Covered(rows, events)
    ensures i < |events| && PeakKey(events[i]) !in rows && forall j: nat :: j < i ==> PeakKey(events[j]) in rows
  {
    i := 0;
    while PeakKey(events[i]) in rows
      invariant i < |events| && forall j: nat :: j < i ==> PeakKey(events[j]) in rows
      decreases |events| - i
    {
      i := i + 1;
      assert i < |events|;
    }
  }
}
