/** The rows of a comparison one by one, when a comparison is refused, and what the repeat-count test asks of any rows. */
module InterleaveRows {
  import opened Wrappers
  import opened WhiteSpace
  import opened Counting
  import opened Interleave

  // ----- row by row -----

  lemma {:induction false} RowsLength(packets: seq<string>, models: seq<string>, slots: nat)
    requires |packets| > 0 && |models| > 0
    ensures |Rows(packets, models, slots)| == Repeated(slots, |models|)
  {
    if slots > 0 { RowsLength(packets, models, slots - 1); }
  }

  lemma {:induction false} SlotRowAt(packets: seq<string>, models: seq<string>, slot: Slot, base: nat, n: nat, p: nat)
    requires slot.index < |packets| && slot.offset < |models| && p < n <= |models|
    ensures SlotRows(packets, models, slot, base, n)[p] == RowIn(packets, models, slot, base, p)
  {
    if p < n - 1 { SlotRowAt(packets, models, slot, base, n - 1, p); }
  }

  /** Slot `s` has its row at position `p`. */
  ghost predicate HoldsRow(packets: seq<string>, models: seq<string>, rows: seq<Row>, s: nat, p: nat)
    requires |packets| > 0 && p < |models|
  {
    var base := Repeated(s, |models|);
    base + p < |rows| && rows[base + p] == RowIn(packets, models, SlotAt(|packets|, |models|, s), base, p)
  }

  lemma RowStays(packets: seq<string>, models: seq<string>, rows: seq<Row>, more: seq<Row>, s: nat, p: nat)
    requires |packets| > 0 && p < |models| && HoldsRow(packets, models, rows, s, p)
    ensures HoldsRow(packets, models, rows + more, s, p)
  {
  }

  lemma RowAdded(packets: seq<string>, models: seq<string>, s: nat, p: nat)
    requires |packets| > 0 && p < |models|
    ensures HoldsRow(packets, models, Rows(packets, models, s + 1), s, p)
  {
    var before, slot := Rows(packets, models, s), SlotAt(|packets|, |models|, s);
    var added := SlotRows(packets, models, slot, |before|, |models|);
    RowsLength(packets, models, s);
    SlotRowAt(packets, models, slot, |before|, |models|, p);
    assert (before + added)[|before| + p] == added[p];
  }

  lemma {:induction false} RowInSlot(packets: seq<string>, models: seq<string>, slots: nat, s: nat, p: nat)
    requires |packets| > 0 && s < slots && p < |models|
    ensures HoldsRow(packets, models, Rows(packets, models, slots), s, p)
  {
    if s == slots - 1 {
      RowAdded(packets, models, s, p);
    } else {
      RowInSlot(packets, models, slots - 1, s, p);
      var before := Rows(packets, models, slots - 1);
      RowStays(packets, models, before, SlotRows(packets, models, SlotAt(|packets|, |models|, slots - 1), |before|, |models|), s, p);
    }
  }

  /** Models move on by one place from slot to slot. */
  lemma RotatedModel(models: seq<string>, offset: nat, p: nat)
    requires offset < |models| && p < |models|
    ensures Rotated(models, offset)[p] == models[if offset + p < |models| then offset + p else offset + p - |models|]
  {
  }

  /** Row number k = s * m + p of a comparison of n packets and m models carries its own number, the iteration and the
      case of slot s, that case's fingerprint, and the model p places after the one the slot starts with. */
  lemma RowIsTold(packets: seq<string>, models: seq<string>, slots: nat, s: nat, p: nat)
    requires |packets| > 0 && s < slots && p < |models|
    ensures var rows, n, m, k := Rows(packets, models, slots), |packets|, |models|, s * |models| + p;
      && |rows| == slots * m && 0 <= k < |rows|
      && rows[k].sequence == k && rows[k].iteration == s / n + 1 && rows[k].index == s % n && rows[k].packet == packets[s % n]
      && rows[k].model == models[if s % m + p < m then s % m + p else s % m + p - m]
  {
    RowsLength(packets, models, slots);
    RepeatedMultiplies(slots, |models|);
    RepeatedMultiplies(s, |models|);
    RowInSlot(packets, models, slots, s, p);
    SlotAtMeans(|packets|, |models|, s);
    RotatedModel(models, s % |models|, p);
  }

  // ----- refusals -----

  ghost predicate BadModels(models: seq<string>) {
    || models == [] || |models| > 3
    || (exists i, j :: 0 <= i < j < |models| && models[i] == models[j])
    || (exists i :: 0 <= i < |models| && IsBlank(models[i]))
  }

  predicate IsBlank(s: string) {
    forall i :: 0 <= i < |s| ==> Space(s[i])
  }

  ghost predicate BadPrice(price: Price, zoned: string -> bool) {
    || price.input < 0.0 || price.output < 0.0
    || IsBlank(price.currency) || IsBlank(price.source) || IsBlank(price.asOf) || !zoned(price.asOf)
  }

  predicate KnownSetting(name: string) {
    || name == "provider" || name == "temperature" || name == "timeout_seconds" || name == "response_format_policy"
    || name == "reasoning_effort" || name == "max_completion_tokens" || name == "endpoint"
  }

  /** An unknown mode, a live run whose providers are not those of the models, a price or a setting for no model or of a
      bad kind. */
  ghost predicate BadSetup(setup: Setup, models: seq<string>, zoned: string -> bool) {
    || (setup.mode != "offline" && setup.mode != "live")
    || (setup.mode == "live" && (setup.providers.None? || exists m :: !(m in setup.providers.value <==> m in models)))
    || (exists m :: m in setup.prices && (m !in models || BadPrice(setup.prices[m], zoned)))
    || (exists m :: m in setup.overrides && (m !in models || exists name :: name in setup.overrides[m] && !KnownSetting(name)))
  }

  lemma BlankMeans(s: string)
    ensures OnlySpaces(s) <==> IsBlank(s)
  {
    if IsBlank(s) {
      forall c | c in s ensures Space(c) { var i :| 0 <= i < |s| && s[i] == c; }
    }
  }

  /** A comparison is refused exactly for bad models, no packets, no iteration, more than 360 attempts, or a bad setup. */
  lemma RefusedExactly(packets: seq<string>, models: seq<string>, iterations: int, setup: Setup, zoned: string -> bool)
    ensures !GoodModels(models) <==> BadModels(models)
    ensures !GoodSetup(setup, models, zoned) <==> BadSetup(setup, models, zoned)
    ensures |packets| * iterations * |models| <= MAX_CALLS <==> |packets| * iterations * |models| <= 360
  {
    forall s ensures OnlySpaces(s) <==> IsBlank(s) { BlankMeans(s); }
    forall price ensures !GoodPrice(price, zoned) <==> BadPrice(price, zoned) {}
    forall name ensures name in SETTINGS <==> KnownSetting(name) {}
    if setup.providers.Some? {
      assert setup.providers.value == (set m | m in models) <==> forall m :: m in setup.providers.value <==> m in models;
    }
  }

  // ----- the repeat-count test -----

  /** The model has exactly one row of the packet in each registered iteration, and none in any other. */
  ghost predicate OncePerIteration(rows: seq<Row>, model: string, packet: string, repeats: nat) {
    forall i: nat :: Count(rows, Cell(model, packet, Some(i))) == if 1 <= i <= repeats then 1 else 0
  }

  /** Rows of a model and a packet in the iterations 1 .. n. */
  function Early(model: string, packet: string, n: nat): Row -> bool {
    (r: Row) => r.model == model && r.packet == packet && 1 <= r.iteration <= n
  }

  lemma {:induction false} OneMoreIteration(rows: seq<Row>, model: string, packet: string, n: nat)
    ensures Count(rows, Early(model, packet, n + 1)) == Count(rows, Early(model, packet, n)) + Count(rows, Cell(model, packet, Some(n + 1)))
  {
    if rows != [] { OneMoreIteration(rows[..|rows| - 1], model, packet, n); }
  }

  /** With a row in each of n iterations there are at least n rows, and exactly n only if each has one. */
  lemma {:induction false} EachAtLeastOnce(rows: seq<Row>, model: string, packet: string, n: nat)
    requires forall i :: 1 <= i <= n ==> Count(rows, Cell(model, packet, Some(i))) >= 1
    ensures Count(rows, Early(model, packet, n)) >= n
    ensures Count(rows, Early(model, packet, n)) == n <==> forall i :: 1 <= i <= n ==> Count(rows, Cell(model, packet, Some(i))) == 1
  {
    if n == 0 {
      CountNone(rows, Early(model, packet, 0));
    } else {
      EachAtLeastOnce(rows, model, packet, n - 1);
      OneMoreIteration(rows, model, packet, n - 1);
    }
  }

  lemma {:induction false} AllEarly(rows: seq<Row>, model: string, packet: string, n: nat)
    requires forall r :: r in rows && r.model == model && r.packet == packet ==> 1 <= r.iteration <= n
    ensures Count(rows, Cell(model, packet, None)) == Count(rows, Early(model, packet, n))
  {
    if rows != [] {
      var last := |rows| - 1;
      assert rows[last] in rows && forall r :: r in rows[..last] ==> r in rows;
      AllEarly(rows[..last], model, packet, n);
    }
  }

  lemma SeenWithin(rows: seq<Row>, model: string, packet: string, repeats: nat)
    requires forall i: nat :: Count(rows, Cell(model, packet, Some(i))) > 0 <==> 1 <= i <= repeats
    ensures forall r :: r in rows && r.model == model && r.packet == packet ==> 1 <= r.iteration <= repeats
  {
    forall r | r in rows && r.model == model && r.packet == packet ensures 1 <= r.iteration <= repeats {
      CountedIsThere(rows, Cell(model, packet, Some(r.iteration)));
      assert Cell(model, packet, Some(r.iteration))(r);
    }
  }

  /** The repeat-count test, a set of iterations and a number of rows, asks for each iteration once and no other. */
  lemma RepeatsMetMeans(rows: seq<Row>, model: string, packet: string, repeats: nat)
    ensures RepeatsMet(rows, model, packet, repeats) <==> OncePerIteration(rows, model, packet, repeats)
  {
    var seen := IterationsSeen(rows, model, packet);
    forall i: nat ensures i in seen <==> Count(rows, Cell(model, packet, Some(i))) > 0 { SeenMeansCounted(rows, model, packet, i); }
    forall i: nat ensures i in UpTo(repeats) <==> 1 <= i <= repeats { InUpTo(repeats, i); }
    if seen == UpTo(repeats) {
      assert forall i: nat :: Count(rows, Cell(model, packet, Some(i))) > 0 <==> i in seen;
      SeenWithin(rows, model, packet, repeats);
      AllEarly(rows, model, packet, repeats);
      EachAtLeastOnce(rows, model, packet, repeats);
    } else if OncePerIteration(rows, model, packet, repeats) {
      forall i: nat ensures i in seen <==> i in UpTo(repeats) {
        assert Count(rows, Cell(model, packet, Some(i))) == if 1 <= i <= repeats then 1 else 0;
      }
    }
  }

  /** For any rows, its own or not: the gate lets them pass exactly when every listed model has every listed packet once
      in each registered iteration and never in another. */
  lemma GateAsksForEachOnce(rows: seq<Row>, models: seq<string>, packets: seq<string>, repeats: nat)
    ensures GatePasses(rows, models, packets, repeats)
       <==> forall m, p :: m in models && p in packets ==> OncePerIteration(rows, m, p, repeats)
  {
    forall m, p ensures RepeatsMet(rows, m, p, repeats) <==> OncePerIteration(rows, m, p, repeats) {
      RepeatsMetMeans(rows, m, p, repeats);
    }
  }
}
