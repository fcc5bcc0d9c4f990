/** The keyed, append-only store of seeded gold recommendations. */
module SeedStore {
  import opened Wrappers
  import opened Counting
  import opened HashText

  datatype Scenario = Scenario(id: string, fixturePath: string)

  /** What the policy recommends for a fixture. */
  datatype Producer = Producer(actionId: string, payload: string)

  /** The fixtures and the policy, whose insides are not modelled. */
  datatype World = World(
    equipment: Scenario -> string,
    observedAt: Scenario -> string,
    checksum: Scenario -> string,
    evaluate: (Scenario, string) -> Option<Producer>)

  datatype Row = Row(
    scenarioId: string,
    fixturePath: string,
    checksum: string,
    productResultId: string,
    actionId: string,
    policyVersion: string,
    payload: string)

  datatype NonRow = NonRow(
    scenarioId: string,
    fixturePath: string,
    checksum: string,
    productResultId: string,
    policyVersion: string)

  type Key = (string, string, string)

  datatype Entry = Recommended(row: Row) | NotRecommended(non: NonRow)

  /** The two lists of the store file. */
  datatype Contents = Contents(rows: seq<Row>, nons: seq<NonRow>)

  function RowKey(row: Row): Key {
    (row.productResultId, row.actionId, row.policyVersion)
  }

  function NonKey(non: NonRow): Key {
    (non.scenarioId, non.productResultId, non.policyVersion)
  }

  /** The id of the product result of a fixture. */
  function ArtifactId(w: World, s: Scenario): string {
    "RESULT#" + w.equipment(s) + "#" + w.observedAt(s)
  }

  /** A recommendation's product result id is made specific to the scenario. */
  function EntryOf(w: World, version: string, s: Scenario): Entry {
    match w.evaluate(s, version)
    case None => NotRecommended(NonRow(s.id, s.fixturePath, w.checksum(s), ArtifactId(w, s), version))
    case Some(p) =>
      Recommended(Row(s.id, s.fixturePath, w.checksum(s), ArtifactId(w, s) + "#" + s.id, p.actionId, version, p.payload))
  }

  function RowKeys(rows: seq<Row>): set<Key> {
    set row | row in rows :: RowKey(row)
  }

  function NonKeys(nons: seq<NonRow>): set<Key> {
    set non | non in nons :: NonKey(non)
  }

  /** Is there already an entry under this entry's key? */
  predicate Holds(c: Contents, e: Entry) {
    match e
    case Recommended(row) => RowKey(row) in RowKeys(c.rows)
    case NotRecommended(non) => NonKey(non) in NonKeys(c.nons)
  }

  function Add(c: Contents, e: Entry): Contents {
    if Holds(c, e) then c
    else
      match e
      case Recommended(row) => c.(rows := c.rows + [row])
      case NotRecommended(non) => c.(nons := c.nons + [non])
  }

  /** The store after one run over the scenarios. */
  function Seeded(w: World, version: string, scenarios: seq<Scenario>, c: Contents): Contents {
    if scenarios == [] then c
    else
      var last := |scenarios| - 1;
      Add(Seeded(w, version, scenarios[..last], c), EntryOf(w, version, scenarios[last]))
  }

  function IsRecommended(w: World, version: string): Scenario -> bool {
    (s: Scenario) => w.evaluate(s, version).Some?
  }

  class Store {
    var rows: seq<Row>
    var nonRecommendations: seq<NonRow>

    function Value(): Contents
      reads this
    {
      Contents(rows, nonRecommendations)
    }

    /** An output file that does not exist yet. */
    constructor ()
      ensures Value() == Contents([], [])
    {
      rows, nonRecommendations := [], [];
    }

    method Seed(w: World, scenarios: seq<Scenario>, version: string)
        returns (inserted: nat, replayed: nat, skipped: nat)
      modifies this
      ensures Value() == Seeded(w, version, scenarios, old(Value()))
      ensures inserted + replayed + skipped == |scenarios|
      ensures inserted == |rows| - |old(rows)|
      ensures inserted + replayed == Count(scenarios, IsRecommended(w, version))
    {
      var byKey: map<Key, Row> := map[];
      for i := 0 to |rows|
        invariant byKey.Keys == RowKeys(rows[..i])
      {
        assert rows[..i + 1] == rows[..i] + [rows[i]];
        byKey := byKey[RowKey(rows[i]) := rows[i]];
      }
      assert rows[..|rows|] == rows;
      var nonKeys := NonKeys(nonRecommendations);
      inserted, replayed, skipped := 0, 0, 0;
      for i := 0 to |scenarios|
        invariant Value() == Seeded(w, version, scenarios[..i], old(Value()))
        invariant byKey.Keys == RowKeys(rows) && nonKeys == NonKeys(nonRecommendations)
        invariant inserted + replayed + skipped == i && inserted == |rows| - |old(rows)|
        invariant inserted + replayed == Count(scenarios[..i], IsRecommended(w, version))
      {
        var s := scenarios[i];
        var entry := EntryOf(w, version, s);
        ghost var before := Value();
        SeededOneMore(w, version, scenarios, i, old(Value()));
        match entry
        case NotRecommended(non) =>
          if NonKey(non) !in nonKeys {
            NonKeysGrow(nonRecommendations, non);
            nonRecommendations := nonRecommendations + [non];
            nonKeys := nonKeys + {NonKey(non)};
          }
          skipped := skipped + 1;
        case Recommended(row) =>
          if RowKey(row) in byKey {
            replayed := replayed + 1;
          } else {
            RowKeysGrow(rows, row);
            rows := rows + [row];
            byKey := byKey[RowKey(row) := row];
            inserted := inserted + 1;
          }
        assert Value() == Add(before, entry);
      }
      assert scenarios[..|scenarios|] == scenarios;
    }
  }

  lemma SeededOneMore(w: World, version: string, scenarios: seq<Scenario>, i: nat, c: Contents)
    requires i < |scenarios|
    ensures Seeded(w, version, scenarios[..i + 1], c)
         == Add(Seeded(w, version, scenarios[..i], c), EntryOf(w, version, scenarios[i]))
    ensures Count(scenarios[..i + 1], IsRecommended(w, version))
         == Count(scenarios[..i], IsRecommended(w, version)) + if EntryOf(w, version, scenarios[i]).Recommended? then 1 else 0
  {
    assert scenarios[..i + 1][..i] == scenarios[..i];
  }

  lemma RowKeysGrow(rows: seq<Row>, row: Row)
    ensures RowKeys(rows + [row]) == RowKeys(rows) + {RowKey(row)}
  {
  }

  lemma NonKeysGrow(nons: seq<NonRow>, non: NonRow)
    ensures NonKeys(nons + [non]) == NonKeys(nons) + {NonKey(non)}
  {
  }

  // ----- histories of runs -----

  /** One run: the fixtures and the policy of the day, a policy version and a scenario list. */
  datatype Run = Run(w: World, version: string, scenarios: seq<Scenario>)

  function AfterRun(r: Run, c: Contents): Contents {
    Seeded(r.w, r.version, r.scenarios, c)
  }

  function AfterRuns(runs: seq<Run>, c: Contents): Contents {
    if runs == [] then c
    else AfterRun(runs[|runs| - 1], AfterRuns(runs[..|runs| - 1], c))
  }

  predicate UniqueKeys(c: Contents) {
    && (forall i, j :: 0 <= i < j < |c.rows| ==> RowKey(c.rows[i]) != RowKey(c.rows[j]))
    && (forall i, j :: 0 <= i < j < |c.nons| ==> NonKey(c.nons[i]) != NonKey(c.nons[j]))
  }

  predicate Extends(c: Contents, d: Contents) {
    c.rows <= d.rows && c.nons <= d.nons
  }

  lemma AddKeeps(c: Contents, e: Entry)
    ensures Extends(c, Add(c, e)) && Holds(Add(c, e), e)
    ensures UniqueKeys(c) ==> UniqueKeys(Add(c, e))
  {
    if !Holds(c, e) {
      match e
      case Recommended(row) =>
        RowKeysGrow(c.rows, row);
        forall i | 0 <= i < |c.rows| ensures RowKey(c.rows[i]) != RowKey(row) {
          assert RowKey(c.rows[i]) in RowKeys(c.rows);
        }
      case NotRecommended(non) =>
        NonKeysGrow(c.nons, non);
        forall i | 0 <= i < |c.nons| ensures NonKey(c.nons[i]) != NonKey(non) {
          assert NonKey(c.nons[i]) in NonKeys(c.nons);
        }
    }
  }

  lemma HoldsStays(c: Contents, d: Contents, e: Entry)
    requires Extends(c, d) && Holds(c, e)
    ensures Holds(d, e)
  {
    match e
    case Recommended(row) =>
      var held :| held in c.rows && RowKey(held) == RowKey(row);
      var i :| 0 <= i < |c.rows| && c.rows[i] == held;
      assert d.rows[i] == held;
    case NotRecommended(non) =>
      var held :| held in c.nons && NonKey(held) == NonKey(non);
      var i :| 0 <= i < |c.nons| && c.nons[i] == held;
      assert d.nons[i] == held;
  }

  /** The store has an entry for each scenario of a run. */
  ghost predicate Covers(c: Contents, r: Run) {
    forall s :: s in r.scenarios ==> Holds(c, EntryOf(r.w, r.version, s))
  }

  /** A run only appends, keeps the keys unique, and leaves an entry for each of its scenarios. */
  lemma {:induction false} RunKeeps(w: World, version: string, scenarios: seq<Scenario>, c: Contents)
    ensures var after := Seeded(w, version, scenarios, c);
      && Extends(c, after) && (UniqueKeys(c) ==> UniqueKeys(after))
      && Covers(after, Run(w, version, scenarios))
    decreases |scenarios|
  {
    if scenarios != [] {
      var last := |scenarios| - 1;
      var s, before := scenarios[last], Seeded(w, version, scenarios[..last], c);
      RunKeeps(w, version, scenarios[..last], c);
      AddKeeps(before, EntryOf(w, version, s));
      var after := Add(before, EntryOf(w, version, s));
      assert scenarios == scenarios[..last] + [s];
      forall t | t in scenarios ensures Holds(after, EntryOf(w, version, t)) {
        if t in scenarios[..last] { HoldsStays(before, after, EntryOf(w, version, t)); }
      }
    }
  }

  /** A run whose scenarios all have entries changes nothing. */
  lemma {:induction false} CoveredRunChangesNothing(w: World, version: string, scenarios: seq<Scenario>, c: Contents)
    requires Covers(c, Run(w, version, scenarios))
    ensures Seeded(w, version, scenarios, c) == c
    decreases |scenarios|
  {
    if scenarios != [] {
      var last := |scenarios| - 1;
      forall s | s in scenarios[..last] ensures Holds(c, EntryOf(w, version, s)) { assert s in scenarios; }
      CoveredRunChangesNothing(w, version, scenarios[..last], c);
      assert scenarios[last] in scenarios;
    }
  }

  /** Over any history, from any contents: old rows stay as a prefix and unique keys stay unique. */
  lemma {:induction false} HistoryIsAppendOnly(runs: seq<Run>, c: Contents)
    ensures Extends(c, AfterRuns(runs, c))
    ensures UniqueKeys(c) ==> UniqueKeys(AfterRuns(runs, c))
  {
    if runs != [] {
      var last := |runs| - 1;
      HistoryIsAppendOnly(runs[..last], c);
      RunKeeps(runs[last].w, runs[last].version, runs[last].scenarios, AfterRuns(runs[..last], c));
    }
  }

  /** Repeating any run of the history, however long ago, changes neither list. */
  lemma {:induction false} AnyEarlierRunIsReplayed(runs: seq<Run>, c: Contents, k: nat)
    requires k < |runs|
    ensures Covers(AfterRuns(runs, c), runs[k])
    ensures AfterRun(runs[k], AfterRuns(runs, c)) == AfterRuns(runs, c)
  {
    var last := |runs| - 1;
    var r, before, after := runs[k], AfterRuns(runs[..last], c), AfterRuns(runs, c);
    RunKeeps(runs[last].w, runs[last].version, runs[last].scenarios, before);
    if k < last {
      AnyEarlierRunIsReplayed(runs[..last], c, k);
      forall s | s in r.scenarios ensures Holds(after, EntryOf(r.w, r.version, s)) {
        HoldsStays(before, after, EntryOf(r.w, r.version, s));
      }
    }
    CoveredRunChangesNothing(r.w, r.version, r.scenarios, after);
  }

  // ----- a new policy version -----

  /** No equipment id and no timestamp has a hash sign, or no scenario id has one. */
  ghost predicate HashFree(w: World, scenarios: seq<Scenario>) {
    || (forall s :: s in scenarios ==> '#' !in w.equipment(s) && '#' !in w.observedAt(s))
    || (forall s :: s in scenarios ==> '#' !in s.id)
  }

  ghost predicate DistinctIds(scenarios: seq<Scenario>) {
    forall i, j :: 0 <= i < j < |scenarios| ==> scenarios[i].id != scenarios[j].id
  }

  lemma IdBehindArtifact(w: World, s: Scenario)
    requires '#' !in w.equipment(s) && '#' !in w.observedAt(s)
    ensures AfterFirstHash(AfterFirstHash(AfterFirstHash(ArtifactId(w, s) + "#" + s.id))) == s.id
  {
    var e, t := w.equipment(s), w.observedAt(s);
    HashFreeHead("RESULT", e + "#" + (t + "#" + s.id));
    HashFreeHead(e, t + "#" + s.id);
    HashFreeHead(t, s.id);
    assert ArtifactId(w, s) + "#" + s.id == "RESULT" + "#" + (e + "#" + (t + "#" + s.id));
  }

  /** The key of a recommendation determines its scenario id, whatever the id contains, when equipment ids and
      timestamps have no hash sign; and whatever those contain, when the scenario ids have none. */
  lemma KeysSeparateIds(w: World, scenarios: seq<Scenario>, s: Scenario, r: Scenario)
    requires HashFree(w, scenarios) && s in scenarios && r in scenarios
    requires ArtifactId(w, s) + "#" + s.id == ArtifactId(w, r) + "#" + r.id
    ensures s.id == r.id
  {
    if '#' !in s.id && '#' !in r.id {
      HashFreeTail(ArtifactId(w, s), s.id);
      HashFreeTail(ArtifactId(w, r), r.id);
    } else {
      IdBehindArtifact(w, s);
      IdBehindArtifact(w, r);
    }
  }

  /** The keys of the recommendations of a scenario list. */
  function NewKeys(w: World, version: string, scenarios: seq<Scenario>): set<Key> {
    set s | s in scenarios && EntryOf(w, version, s).Recommended? :: RowKey(EntryOf(w, version, s).row)
  }

  lemma NewKeysGrow(w: World, version: string, scenarios: seq<Scenario>, i: nat)
    requires i < |scenarios|
    ensures var e := EntryOf(w, version, scenarios[i]);
      NewKeys(w, version, scenarios[..i + 1])
      == NewKeys(w, version, scenarios[..i]) + if e.Recommended? then {RowKey(e.row)} else {}
  {
    assert scenarios[..i + 1] == scenarios[..i] + [scenarios[i]];
  }

  /** After a run the store has the keys it had and those of the recommendations, and no others. */
  lemma {:induction false} KeysAfter(w: World, version: string, scenarios: seq<Scenario>, n: nat, c: Contents)
    requires n <= |scenarios|
    ensures RowKeys(Seeded(w, version, scenarios[..n], c).rows) == RowKeys(c.rows) + NewKeys(w, version, scenarios[..n])
  {
    if n > 0 {
      KeysAfter(w, version, scenarios, n - 1, c);
      SeededOneMore(w, version, scenarios, n - 1, c);
      NewKeysGrow(w, version, scenarios, n - 1);
      var e := EntryOf(w, version, scenarios[n - 1]);
      if e.Recommended? { RowKeysGrow(Seeded(w, version, scenarios[..n - 1], c).rows, e.row); }
    }
  }

  /** Recommendation `i` has a key that neither the store nor an earlier scenario of the list has. */
  predicate IsNew(w: World, version: string, scenarios: seq<Scenario>, i: nat, c: Contents)
    requires i < |scenarios|
  {
    var e := EntryOf(w, version, scenarios[i]);
    e.Recommended? ==> RowKey(e.row) !in RowKeys(c.rows) && RowKey(e.row) !in NewKeys(w, version, scenarios[..i])
  }

  /** A run inserts one row for every recommended scenario exactly when all their keys are new; otherwise fewer. */
  lemma {:induction false} InsertsAllExactly(w: World, version: string, scenarios: seq<Scenario>, n: nat, c: Contents)
    requires n <= |scenarios|
    ensures var inserted, recommended := |Seeded(w, version, scenarios[..n], c).rows| - |c.rows|, Count(scenarios[..n], IsRecommended(w, version));
      && 0 <= inserted <= recommended
      && (inserted == recommended <==> forall i: nat :: i < n ==> IsNew(w, version, scenarios, i, c))
  {
    if n > 0 {
      InsertsAllExactly(w, version, scenarios, n - 1, c);
      SeededOneMore(w, version, scenarios, n - 1, c);
      KeysAfter(w, version, scenarios, n - 1, c);
      assert IsNew(w, version, scenarios, n - 1, c) <==>
        !(EntryOf(w, version, scenarios[n - 1]).Recommended? && Holds(Seeded(w, version, scenarios[..n - 1], c), EntryOf(w, version, scenarios[n - 1])));
    }
  }

  /** With distinct ids and a version the store has never seen, every key is new. */
  lemma NewVersionIsNew(w: World, version: string, scenarios: seq<Scenario>, i: nat, c: Contents)
    requires i < |scenarios| && HashFree(w, scenarios) && DistinctIds(scenarios)
    requires forall row :: row in c.rows ==> row.policyVersion != version
    ensures IsNew(w, version, scenarios, i, c)
  {
    var mine := EntryOf(w, version, scenarios[i]);
    if mine.Recommended? && RowKey(mine.row) in NewKeys(w, version, scenarios[..i]) {
      var s :| s in scenarios[..i] && EntryOf(w, version, s).Recommended? && RowKey(EntryOf(w, version, s).row) == RowKey(mine.row);
      var j :| 0 <= j < i && scenarios[..i][j] == s;
      KeysSeparateIds(w, scenarios, s, scenarios[i]);
    }
  }

  /** A version the store has never seen inserts one row for every recommended scenario and replays none. */
  lemma NewVersionInsertsAll(w: World, version: string, scenarios: seq<Scenario>, c: Contents)
    requires HashFree(w, scenarios) && DistinctIds(scenarios)
    requires forall row :: row in c.rows ==> row.policyVersion != version
    ensures |Seeded(w, version, scenarios, c).rows| == |c.rows| + Count(scenarios, IsRecommended(w, version))
  {
    forall i: nat | i < |scenarios| ensures IsNew(w, version, scenarios, i, c) {
      NewVersionIsNew(w, version, scenarios, i, c);
    }
    InsertsAllExactly(w, version, scenarios, |scenarios|, c);
    assert scenarios[..|scenarios|] == scenarios;
  }

  lemma SameArtifact(e: string, t: string, t2: string, id: string)
    ensures "RESULT#" + e + "#" + t + "#" + (t2 + "#" + id) == "RESULT#" + (e + "#" + t) + "#" + t2 + "#" + id
  {
  }

  /** With a hash sign in an equipment id and in a scenario id, two scenarios with different ids can share a key, and the
      second is then taken for a replay; this at any two times. */
  lemma HashInEquipmentLosesRow(w: World, version: string, p: Producer, e: string, t: string, t2: string, id: string,
      first: Scenario, second: Scenario)
    requires first.id == t2 + "#" + id && second.id == id
    requires w.equipment(first) == e && w.observedAt(first) == t && w.evaluate(first, version) == Some(p)
    requires w.equipment(second) == e + "#" + t && w.observedAt(second) == t2 && w.evaluate(second, version) == Some(p)
    ensures first.id != second.id && Count([first, second], IsRecommended(w, version)) == 2
    ensures |Seeded(w, version, [first, second], Contents([], [])).rows| == 1
  {
    var two, empty := [first, second], Contents([], []);
    SeededOneMore(w, version, two, 0, empty);
    SeededOneMore(w, version, two, 1, empty);
    assert two[..0] == [] && two[..2] == two;
    assert |first.id| > |second.id|;
    SameArtifact(e, t, t2, id);
    RowKeysGrow([], EntryOf(w, version, first).row);
  }
}
