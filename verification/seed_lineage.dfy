/** What a run of the seeding writes for each scenario, told from the fields of the rows. */
module SeedLineage {
  import opened Wrappers
  import opened SeedStore

  /** The row of a recommended scenario: the fixture it comes from and the recommendation, under a product result id that
      ends in the scenario's own id. */
  predicate TellsRow(w: World, version: string, s: Scenario, p: Producer, row: Row) {
    && row.scenarioId == s.id && row.fixturePath == s.fixturePath && row.checksum == w.checksum(s)
    && row.productResultId == "RESULT#" + w.equipment(s) + "#" + w.observedAt(s) + "#" + s.id
    && row.actionId == p.actionId && row.payload == p.payload && row.policyVersion == version
  }

  /** The row of a scenario without a recommendation: its product result id is the fixture's own. */
  predicate TellsNon(w: World, version: string, s: Scenario, non: NonRow) {
    && non.scenarioId == s.id && non.fixturePath == s.fixturePath && non.checksum == w.checksum(s)
    && non.productResultId == "RESULT#" + w.equipment(s) + "#" + w.observedAt(s) && non.policyVersion == version
  }

  /** A row for the same product result, action and version. */
  ghost predicate RowHeld(rows: seq<Row>, productResultId: string, actionId: string, version: string) {
    exists i :: 0 <= i < |rows| && rows[i].productResultId == productResultId && rows[i].actionId == actionId && rows[i].policyVersion == version
  }

  ghost predicate NonHeld(nons: seq<NonRow>, scenarioId: string, productResultId: string, version: string) {
    exists i :: 0 <= i < |nons| && nons[i].scenarioId == scenarioId && nons[i].productResultId == productResultId && nons[i].policyVersion == version
  }

  /** One scenario of a run: a recommendation adds its row unless one is held for the same product result, action and
      version; no recommendation adds its row unless one is held for the same scenario, product result and version. */
  ghost predicate StepIsTold(w: World, version: string, s: Scenario, before: Contents, after: Contents) {
    var fixture := "RESULT#" + w.equipment(s) + "#" + w.observedAt(s);
    match w.evaluate(s, version)
    case Some(p) =>
      && after.nons == before.nons
      && (if RowHeld(before.rows, fixture + "#" + s.id, p.actionId, version) then after.rows == before.rows
          else exists row :: TellsRow(w, version, s, p, row) && after.rows == before.rows + [row])
    case None =>
      && after.rows == before.rows
      && (if NonHeld(before.nons, s.id, fixture, version) then after.nons == before.nons
          else exists non :: TellsNon(w, version, s, non) && after.nons == before.nons + [non])
  }

  lemma RowKeyHeld(rows: seq<Row>, productResultId: string, actionId: string, version: string)
    ensures (productResultId, actionId, version) in RowKeys(rows) <==> RowHeld(rows, productResultId, actionId, version)
  {
    if RowHeld(rows, productResultId, actionId, version) {
      var i :| 0 <= i < |rows| && rows[i].productResultId == productResultId && rows[i].actionId == actionId && rows[i].policyVersion == version;
      assert rows[i] in rows && RowKey(rows[i]) == (productResultId, actionId, version);
    }
  }

  lemma NonKeyHeld(nons: seq<NonRow>, scenarioId: string, productResultId: string, version: string)
    ensures (scenarioId, productResultId, version) in NonKeys(nons) <==> NonHeld(nons, scenarioId, productResultId, version)
  {
    if NonHeld(nons, scenarioId, productResultId, version) {
      var i :| 0 <= i < |nons| && nons[i].scenarioId == scenarioId && nons[i].productResultId == productResultId && nons[i].policyVersion == version;
      assert nons[i] in nons && NonKey(nons[i]) == (scenarioId, productResultId, version);
    }
  }

  lemma EntryIsTold(w: World, version: string, s: Scenario)
    ensures var e := EntryOf(w, version, s);
      match w.evaluate(s, version)
      case Some(p) => e.Recommended? && TellsRow(w, version, s, p, e.row)
      case None => e.NotRecommended? && TellsNon(w, version, s, e.non)
  {
  }

  lemma AddIsTold(w: World, version: string, s: Scenario, c: Contents)
    ensures StepIsTold(w, version, s, c, Add(c, EntryOf(w, version, s)))
  {
    EntryIsTold(w, version, s);
    match EntryOf(w, version, s)
    case Recommended(row) => RowKeyHeld(c.rows, row.productResultId, row.actionId, version);
    case NotRecommended(non) => NonKeyHeld(c.nons, non.scenarioId, non.productResultId, version);
  }

  /** The store before the first scenario, after each one and after the last, in the order of the list. */
  ghost predicate RunIsTold(w: World, version: string, scenarios: seq<Scenario>, states: seq<Contents>) {
    && |states| == |scenarios| + 1
    && forall i: nat :: i < |scenarios| ==> StepIsTold(w, version, scenarios[i], states[i], states[i + 1])
  }

  /** A run takes the scenarios one after the other, each as told, starting from what the store holds. */
  lemma {:induction false} SeedingIsTold(w: World, version: string, scenarios: seq<Scenario>, c: Contents) returns (states: seq<Contents>)
    ensures RunIsTold(w, version, scenarios, states)
    ensures states[0] == c && states[|scenarios|] == Seeded(w, version, scenarios, c)
    decreases |scenarios|
  {
    if scenarios == [] {
      states := [c];
    } else {
      var last := |scenarios| - 1;
      states := SeedingIsTold(w, version, scenarios[..last], c);
      AddIsTold(w, version, scenarios[last], states[last]);
      states := states + [Seeded(w, version, scenarios, c)];
    }
  }

  /** What a run told like this leaves is determined by what it found. */
  lemma {:induction false} ToldRunsAgree(w: World, version: string, scenarios: seq<Scenario>, states: seq<Contents>, others: seq<Contents>, n: nat)
    requires RunIsTold(w, version, scenarios, states) && RunIsTold(w, version, scenarios, others) && states[0] == others[0] && n <= |scenarios|
    ensures states[n] == others[n]
  {
    if n > 0 {
      ToldRunsAgree(w, version, scenarios, states, others, n - 1);
      assert StepIsTold(w, version, scenarios[n - 1], states[n - 1], states[n]);
      assert StepIsTold(w, version, scenarios[n - 1], others[n - 1], others[n]);
    }
  }
}
