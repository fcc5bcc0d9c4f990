/** The rotating interleaved comparison of models, and the gate that checks its rows. */
module Interleave {
  import opened Wrappers
  import opened WhiteSpace
  import opened Ordering
  import opened Counting
  import opened Division

  const MAX_CALLS: nat := 360

  /** One attempt: `index` is the number of its case, `packet` the fingerprint of the packet of that case. */
  datatype Row = Row(sequence: nat, iteration: nat, model: string, index: nat, packet: string)

  datatype Price = Price(input: real, output: real, currency: string, source: string, asOf: string)

  /** The other arguments of a comparison; an override is the set of the settings it names. */
  datatype Setup = Setup(mode: string, providers: Option<set<string>>, prices: map<string, Price>, overrides: map<string, set<string>>)

  function Rotated(models: seq<string>, offset: nat): seq<string>
    requires offset <= |models|
  {
    models[offset..] + models[..offset]
  }

  /** A slot is one packet in one iteration, with the offset of its model order. */
  datatype Slot = Slot(iteration: nat, index: nat, offset: nat)

  /** Slot number `s` of `n` packets and `m` models: three counters that step together, two of them wrapping. */
  function SlotAt(n: nat, m: nat, s: nat): (r: Slot)
    requires n > 0 && m > 0
    ensures r.index < n && r.offset < m
  {
    if s == 0 then Slot(0, 0, 0)
    else
      var t := SlotAt(n, m, s - 1);
      Slot(if t.index == n - 1 then t.iteration + 1 else t.iteration,
           if t.index == n - 1 then 0 else t.index + 1,
           if t.offset == m - 1 then 0 else t.offset + 1)
  }

  lemma {:induction false} SlotAtMeans(n: nat, m: nat, s: nat)
    requires n > 0 && m > 0
    ensures SlotAt(n, m, s) == Slot(s / n, s % n, s % m)
  {
    if s == 0 {
      DivModUnique(0, 0, n);
      DivModUnique(0, 0, m);
    } else {
      SlotAtMeans(n, m, s - 1);
      NextDivMod(s - 1, n);
      NextDivMod(s - 1, m);
    }
  }

  /** Packet `index` of an iteration is slot number iteration * n + index. */
  lemma SlotNumber(n: nat, m: nat, iteration: nat, index: nat)
    requires index < n && m > 0
    ensures SlotAt(n, m, iteration * n + index) == Slot(iteration, index, (iteration * n + index) % m)
  {
    SlotAtMeans(n, m, iteration * n + index);
    DivModUnique(iteration, index, n);
  }

  /** How many of the first `s` slots meet a test. */
  function Matching(n: nat, m: nat, s: nat, q: Slot -> bool): nat
    requires n > 0 && m > 0
  {
    if s == 0 then 0 else Matching(n, m, s - 1, q) + if q(SlotAt(n, m, s - 1)) then 1 else 0
  }

  /** The row at position `p` of a slot that starts at row number `base`. */
  function RowIn(packets: seq<string>, models: seq<string>, slot: Slot, base: nat, p: nat): Row
    requires slot.index < |packets| && slot.offset < |models| && p < |models|
  {
    Row(base + p, slot.iteration + 1, Rotated(models, slot.offset)[p], slot.index, packets[slot.index])
  }

  function SlotRows(packets: seq<string>, models: seq<string>, slot: Slot, base: nat, p: nat): (r: seq<Row>)
    requires slot.index < |packets| && slot.offset < |models| && p <= |models|
    ensures |r| == p
  {
    if p == 0 then [] else SlotRows(packets, models, slot, base, p - 1) + [RowIn(packets, models, slot, base, p - 1)]
  }

  /** The rows of the first `slots` slots. */
  function Rows(packets: seq<string>, models: seq<string>, slots: nat): seq<Row>
    requires |packets| > 0 && |models| > 0
  {
    if slots == 0 then []
    else
      var before := Rows(packets, models, slots - 1);
      before + SlotRows(packets, models, SlotAt(|packets|, |models|, slots - 1), |before|, |models|)
  }

  predicate GoodModels(models: seq<string>) {
    && 1 <= |models| <= 3
    && (forall i, j :: 0 <= i < j < |models| ==> models[i] != models[j])
    && (forall i :: 0 <= i < |models| ==> !OnlySpaces(models[i]))
  }

  /** `zoned` says of a text whether it is an ISO time with a time zone. */
  predicate GoodPrice(price: Price, zoned: string -> bool) {
    && price.input >= 0.0 && price.output >= 0.0
    && !OnlySpaces(price.currency) && !OnlySpaces(price.source) && !OnlySpaces(price.asOf)
    && zoned(price.asOf)
  }

  const SETTINGS: set<string> := {"provider", "temperature", "timeout_seconds", "response_format_policy",
                                  "reasoning_effort", "max_completion_tokens", "endpoint"}

  predicate GoodSetup(setup: Setup, models: seq<string>, zoned: string -> bool) {
    && (setup.mode == "offline" || setup.mode == "live")
    && (setup.mode == "live" ==> setup.providers == Some(set m | m in models))
    && (forall m :: m in setup.prices ==> m in models && GoodPrice(setup.prices[m], zoned))
    && (forall m :: m in setup.overrides ==> m in models && setup.overrides[m] <= SETTINGS)
  }

  method RunComparison(packets: seq<string>, models: seq<string>, iterations: int, setup: Setup, zoned: string -> bool)
      returns (r: Result<seq<Row>, string>)
    ensures r.Ok? <==>
      && GoodModels(models) && packets != [] && iterations >= 1 && |packets| * iterations * |models| <= MAX_CALLS
      && GoodSetup(setup, models, zoned)
    ensures r.Ok? ==> r.value == Rows(packets, models, iterations * |packets|)
  {
    if !GoodModels(models) { return Err("configure one to three distinct model IDs"); }
    if packets == [] || iterations < 1 { return Err("nonempty fixtures and positive iterations required"); }
    if |packets| * iterations * |models| > MAX_CALLS { return Err("comparison exceeds 360 attempts"); }
    if !GoodSetup(setup, models, zoned) { return Err("unknown mode, missing provider, bad prices or settings"); }
    var rows := AllSlots(packets, models, iterations);
    RepeatedMultiplies(iterations, |packets|);
    return Ok(rows);
  }

  /** `k` added up `a` times. */
  function Repeated(a: nat, k: nat): nat {
    if a == 0 then 0 else Repeated(a - 1, k) + k
  }

  lemma {:induction false} RepeatedMultiplies(a: nat, k: nat)
    ensures Repeated(a, k) == a * k
  {
    if a > 0 {
      RepeatedMultiplies(a - 1, k);
      NextMultiple(a - 1, k);
    }
  }

  /** The outer loop over the iterations. */
  method AllSlots(packets: seq<string>, models: seq<string>, iterations: nat) returns (rows: seq<Row>)
    requires |packets| > 0 && |models| > 0
    ensures rows == Rows(packets, models, Repeated(iterations, |packets|))
  {
    rows := [];
    var first := 0;
    for iteration := 0 to iterations
      invariant first == Repeated(iteration, |packets|) && rows == Rows(packets, models, first)
    {
      FirstOfIteration(|packets|, |models|, iteration);
      rows := AddIteration(packets, models, rows, iteration, first);
      first := first + |packets|;
    }
  }

  lemma FirstOfIteration(n: nat, m: nat, iteration: nat)
    requires n > 0 && m > 0
    ensures var slot := SlotAt(n, m, Repeated(iteration, n)); slot.iteration == iteration && slot.index == 0
  {
    RepeatedMultiplies(iteration, n);
    SlotNumber(n, m, iteration, 0);
  }

  /** The loop over the packets of one iteration. */
  method AddIteration(packets: seq<string>, models: seq<string>, before: seq<Row>, iteration: nat, first: nat)
      returns (rows: seq<Row>)
    requires |packets| > 0 && |models| > 0 && before == Rows(packets, models, first)
    requires var slot := SlotAt(|packets|, |models|, first); slot.iteration == iteration && slot.index == 0
    ensures rows == Rows(packets, models, first + |packets|)
  {
    rows := before;
    var number := first;
    for index := 0 to |packets|
      invariant number == first + index && rows == Rows(packets, models, number)
    {
      SlotWithin(|packets|, |models|, first, index);
      rows := AddSlot(packets, models, rows, iteration, index, number);
      number := number + 1;
    }
  }

  lemma {:induction false} SlotWithin(n: nat, m: nat, first: nat, index: nat)
    requires index < n && m > 0 && SlotAt(n, m, first).index == 0
    ensures SlotAt(n, m, first + index) == Slot(SlotAt(n, m, first).iteration, index, (first + index) % m)
    decreases index
  {
    if index > 0 { SlotWithin(n, m, first, index - 1); }
    SlotAtMeans(n, m, first + index);
  }

  /** The innermost loop: the models in rotated order on one packet. */
  method AddSlot(packets: seq<string>, models: seq<string>, before: seq<Row>, iteration: nat, index: nat, number: nat)
      returns (rows: seq<Row>)
    requires index < |packets| && |models| > 0 && before == Rows(packets, models, number)
    requires SlotAt(|packets|, |models|, number) == Slot(iteration, index, number % |models|)
    ensures rows == Rows(packets, models, number + 1)
  {
    var offset := number % |models|;
    var order := Rotated(models, offset);
    rows := before;
    for p := 0 to |order|
      invariant rows == before + SlotRows(packets, models, Slot(iteration, index, offset), |before|, p)
    {
      rows := rows + [Row(|rows|, iteration + 1, order[p], index, packets[index])];
    }
  }

  lemma NextMultiple(i: nat, n: nat)
    ensures (i + 1) * n == i * n + n
  {
  }

  // ----- every triple once -----

  function Is(x: string): string -> bool {
    (y: string) => y == x
  }

  /** Rows of a model and a packet, in one iteration or in any. */
  function Cell(model: string, packet: string, iteration: Option<nat>): Row -> bool {
    (r: Row) => r.model == model && r.packet == packet && (iteration.Some? ==> r.iteration == iteration.value)
  }

  lemma RotationKeepsCounts(models: seq<string>, offset: nat, model: string)
    requires offset <= |models|
    ensures Count(Rotated(models, offset), Is(model)) == Count(models, Is(model))
  {
    SwapKeepsCounts(models[offset..], models[..offset], Is(model));
    SplitAndJoin(models, offset);
  }

  lemma SwapKeepsCounts<T>(xs: seq<T>, ys: seq<T>, p: T -> bool)
    ensures Count(xs + ys, p) == Count(ys + xs, p)
  {
    CountConcat(xs, ys, p);
    CountConcat(ys, xs, p);
  }

  lemma SplitAndJoin<T>(xs: seq<T>, k: nat)
    requires k <= |xs|
    ensures xs[..k] + xs[k..] == xs
  {
  }

  lemma {:induction false} CountOnce(xs: seq<string>, x: string)
    requires Distinct(xs)
    ensures Count(xs, Is(x)) == if x in xs then 1 else 0
  {
    if xs != [] {
      var last := |xs| - 1;
      CountOnce(xs[..last], x);
      assert xs == xs[..last] + [xs[last]];
      if xs[last] == x { assert x !in xs[..last]; }
    }
  }

  predicate SlotMatches(packets: seq<string>, slot: Slot, packet: string, iteration: Option<nat>)
    requires slot.index < |packets|
  {
    packets[slot.index] == packet && (iteration.Some? ==> slot.iteration + 1 == iteration.value)
  }

  /** How many of the first `n` positions meet a test. */
  function Hits(hit: nat -> bool, n: nat): nat {
    if n == 0 then 0 else Hits(hit, n - 1) + if hit(n - 1) then 1 else 0
  }

  lemma {:induction false} SlotRowsCount(packets: seq<string>, models: seq<string>, slot: Slot, base: nat, n: nat,
      p: Row -> bool, hit: nat -> bool)
    requires slot.index < |packets| && slot.offset < |models| && n <= |models|
    requires forall k :: 0 <= k < n ==> p(RowIn(packets, models, slot, base, k)) == hit(k)
    ensures Count(SlotRows(packets, models, slot, base, n), p) == Hits(hit, n)
  {
    if n > 0 {
      SlotRowsCount(packets, models, slot, base, n - 1, p, hit);
      CountOneMore(SlotRows(packets, models, slot, base, n - 1), RowIn(packets, models, slot, base, n - 1), p);
    }
  }

  /** The positions that hold a model, if `on`. */
  function Holding(order: seq<string>, model: string, on: bool): nat -> bool {
    (k: nat) => on && k < |order| && order[k] == model
  }

  lemma {:induction false} HoldingCount(order: seq<string>, model: string, on: bool, n: nat)
    requires n <= |order|
    ensures Hits(Holding(order, model, on), n) == if on then Count(order[..n], Is(model)) else 0
  {
    if n > 0 {
      HoldingCount(order, model, on, n - 1);
      OneLonger(order, n - 1);
      CountOneMore(order[..n - 1], order[n - 1], Is(model));
    }
  }

  /** A slot has exactly one row of each model. */
  lemma SlotCount(packets: seq<string>, models: seq<string>, slot: Slot, base: nat, model: string, p: Row -> bool, on: bool)
    requires slot.index < |packets| && slot.offset < |models| && Distinct(models) && model in models
    requires forall k :: 0 <= k < |models| ==>
      p(RowIn(packets, models, slot, base, k)) == (on && RowIn(packets, models, slot, base, k).model == model)
    ensures Count(SlotRows(packets, models, slot, base, |models|), p) == if on then 1 else 0
  {
    var order := Rotated(models, slot.offset);
    SlotRowsCount(packets, models, slot, base, |models|, p, Holding(order, model, on));
    HoldingCount(order, model, on, |models|);
    OnceInTheOrder(models, slot.offset, model);
  }

  lemma OnceInTheOrder(models: seq<string>, offset: nat, model: string)
    requires offset <= |models| && Distinct(models) && model in models
    ensures |Rotated(models, offset)| == |models|
    ensures Count(Rotated(models, offset)[..|models|], Is(model)) == 1
  {
    RotationKeepsCounts(models, offset, model);
    CountOnce(models, model);
    WholePrefix(Rotated(models, offset));
  }

  lemma WholePrefix<T>(xs: seq<T>)
    ensures xs[..|xs|] == xs
  {
  }

  lemma OneSlotOn(base: nat, m: nat)
    requires m > 0 && base % m == 0
    ensures (base + m) % m == 0
  {
    assert base == (base / m) * m;
    DivModUnique(base / m + 1, 0, m);
  }

  lemma {:induction false} SlotsStartTogether(packets: seq<string>, models: seq<string>, s: nat)
    requires |packets| > 0 && |models| > 0
    ensures |Rows(packets, models, s)| % |models| == 0
  {
    if s > 0 {
      SlotsStartTogether(packets, models, s - 1);
      OneSlotOn(|Rows(packets, models, s - 1)|, |models|);
    }
  }

  predicate IsSlot(packets: seq<string>, models: seq<string>, slot: Slot, base: nat) {
    slot.index < |packets| && slot.offset < |models| && base % |models| == 0
  }

  /** Every slot that meets `q` has one row that meets `p`, and the other slots have none. */
  ghost predicate OneRowPerSlot(packets: seq<string>, models: seq<string>, p: Row -> bool, q: Slot -> bool) {
    forall slot: Slot, base: nat {:trigger IsSlot(packets, models, slot, base)} ::
      IsSlot(packets, models, slot, base) ==>
        Count(SlotRows(packets, models, slot, base, |models|), p) == if q(slot) then 1 else 0
  }

  lemma RowsOfNextSlot(packets: seq<string>, models: seq<string>, k: nat, p: Row -> bool, q: Slot -> bool)
    requires |packets| > 0 && |models| > 0 && OneRowPerSlot(packets, models, p, q)
    ensures Count(Rows(packets, models, k + 1), p)
         == Count(Rows(packets, models, k), p) + if q(SlotAt(|packets|, |models|, k)) then 1 else 0
  {
    var before, slot := Rows(packets, models, k), SlotAt(|packets|, |models|, k);
    SlotsStartTogether(packets, models, k);
    assert IsSlot(packets, models, slot, |before|);
    CountConcat(before, SlotRows(packets, models, slot, |before|, |models|), p);
  }

  lemma {:induction false} RowsMatchSlots(packets: seq<string>, models: seq<string>, s: nat, p: Row -> bool, q: Slot -> bool)
    requires |packets| > 0 && |models| > 0 && OneRowPerSlot(packets, models, p, q)
    ensures Count(Rows(packets, models, s), p) == Matching(|packets|, |models|, s, q)
  {
    if s > 0 {
      RowsMatchSlots(packets, models, s - 1, p, q);
      RowsOfNextSlot(packets, models, s - 1, p, q);
    }
  }

  /** How often a packet is listed before place `c`. */
  function ListedBefore(packets: seq<string>, c: nat, packet: string): nat
    requires c <= |packets|
  {
    Count(packets[..c], Is(packet))
  }

  lemma ListedStep(packets: seq<string>, c: nat, packet: string)
    requires c < |packets|
    ensures ListedBefore(packets, c + 1, packet) == ListedBefore(packets, c, packet) + if packets[c] == packet then 1 else 0
  {
    OneLonger(packets, c);
    CountOneMore(packets[..c], packets[c], Is(packet));
  }

  lemma OneLonger<T>(xs: seq<T>, c: nat)
    requires c < |xs|
    ensures xs[..c + 1] == xs[..c] + [xs[c]]
  {
  }

  lemma ListedInAll(packets: seq<string>, packet: string)
    ensures ListedBefore(packets, |packets|, packet) == Count(packets, Is(packet))
  {
    WholePrefix(packets);
  }

  /** Slots that show a packet, in one iteration or in any. */
  function Showing(packets: seq<string>, packet: string, iteration: Option<nat>): Slot -> bool {
    (slot: Slot) => slot.index < |packets| && SlotMatches(packets, slot, packet, iteration)
  }

  lemma CellsMatchSlots(packets: seq<string>, models: seq<string>, s: nat, model: string, packet: string, iteration: Option<nat>)
    requires |packets| > 0 && Distinct(models) && model in models
    ensures Count(Rows(packets, models, s), Cell(model, packet, iteration))
         == Matching(|packets|, |models|, s, Showing(packets, packet, iteration))
  {
    forall slot: Slot, base: nat | IsSlot(packets, models, slot, base)
      ensures Count(SlotRows(packets, models, slot, base, |models|), Cell(model, packet, iteration))
           == if Showing(packets, packet, iteration)(slot) then 1 else 0
    {
      SlotCount(packets, models, slot, base, model, Cell(model, packet, iteration), SlotMatches(packets, slot, packet, iteration));
    }
    RowsMatchSlots(packets, models, s, Cell(model, packet, iteration), Showing(packets, packet, iteration));
  }

  /** The slots of a packet: those of the whole iterations, and those of the current one. */
  lemma {:induction false} SlotsOfPacket(packets: seq<string>, m: nat, s: nat, packet: string)
    requires |packets| > 0 && m > 0
    ensures var slot := SlotAt(|packets|, m, s);
      Matching(|packets|, m, s, Showing(packets, packet, None))
      == Repeated(slot.iteration, Count(packets, Is(packet))) + ListedBefore(packets, slot.index, packet)
  {
    if s > 0 {
      SlotsOfPacket(packets, m, s - 1, packet);
      ListedStep(packets, SlotAt(|packets|, m, s - 1).index, packet);
      ListedInAll(packets, packet);
    }
  }

  /** The slots of a packet in one iteration. */
  lemma {:induction false} SlotsOfIteration(packets: seq<string>, m: nat, s: nat, packet: string, iteration: nat)
    requires |packets| > 0 && m > 0
    ensures var slot := SlotAt(|packets|, m, s);
      Matching(|packets|, m, s, Showing(packets, packet, Some(iteration)))
      == if 1 <= iteration <= slot.iteration then Count(packets, Is(packet))
         else if iteration == slot.iteration + 1 then ListedBefore(packets, slot.index, packet)
         else 0
  {
    if s > 0 {
      SlotsOfIteration(packets, m, s - 1, packet, iteration);
      ListedStep(packets, SlotAt(|packets|, m, s - 1).index, packet);
      ListedInAll(packets, packet);
    }
  }

  /** After whole iterations, a model has answered a packet as often as it is listed, each time. */
  lemma CellCount(packets: seq<string>, models: seq<string>, iterations: nat, model: string, packet: string)
    requires |packets| > 0 && Distinct(models) && model in models
    ensures Count(Rows(packets, models, iterations * |packets|), Cell(model, packet, None)) == iterations * Count(packets, Is(packet))
  {
    var s := iterations * |packets|;
    SlotNumber(|packets|, |models|, iterations, 0);
    CellsMatchSlots(packets, models, s, model, packet, None);
    SlotsOfPacket(packets, |models|, s, packet);
    RepeatedMultiplies(iterations, Count(packets, Is(packet)));
  }

  lemma TripleCount(packets: seq<string>, models: seq<string>, iterations: nat, model: string, packet: string, iteration: nat)
    requires |packets| > 0 && Distinct(models) && model in models
    ensures Count(Rows(packets, models, iterations * |packets|), Cell(model, packet, Some(iteration)))
         == if 1 <= iteration <= iterations then Count(packets, Is(packet)) else 0
  {
    var s := iterations * |packets|;
    SlotNumber(|packets|, |models|, iterations, 0);
    CellsMatchSlots(packets, models, s, model, packet, Some(iteration));
    SlotsOfIteration(packets, |models|, s, packet, iteration);
  }

  /** The rows of one (iteration, case, model) triple. */
  function Triple(iteration: nat, index: nat, model: string): Row -> bool {
    (r: Row) => r.iteration == iteration && r.index == index && r.model == model
  }

  function IsCase(iteration: nat, index: nat): Slot -> bool {
    (slot: Slot) => slot.iteration + 1 == iteration && slot.index == index
  }

  /** A case has its slot in an iteration exactly once, when the counters pass it. */
  lemma {:induction false} SlotsOfCase(n: nat, m: nat, s: nat, iteration: nat, index: nat)
    requires index < n && m > 0
    ensures var slot := SlotAt(n, m, s);
      Matching(n, m, s, IsCase(iteration, index))
      == if 1 <= iteration && (iteration <= slot.iteration || (iteration == slot.iteration + 1 && index < slot.index)) then 1 else 0
  {
    if s > 0 { SlotsOfCase(n, m, s - 1, iteration, index); }
  }

  lemma TriplesMatchSlots(packets: seq<string>, models: seq<string>, s: nat, model: string, index: nat, iteration: nat)
    requires |packets| > 0 && Distinct(models) && model in models
    ensures Count(Rows(packets, models, s), Triple(iteration, index, model)) == Matching(|packets|, |models|, s, IsCase(iteration, index))
  {
    forall slot: Slot, base: nat | IsSlot(packets, models, slot, base)
      ensures Count(SlotRows(packets, models, slot, base, |models|), Triple(iteration, index, model))
           == if IsCase(iteration, index)(slot) then 1 else 0
    {
      SlotCount(packets, models, slot, base, model, Triple(iteration, index, model), IsCase(iteration, index)(slot));
    }
    RowsMatchSlots(packets, models, s, Triple(iteration, index, model), IsCase(iteration, index));
  }

  lemma {:induction false} NoSlotBeyond(n: nat, m: nat, s: nat, iteration: nat, index: nat)
    requires 0 < n <= index && m > 0
    ensures Matching(n, m, s, IsCase(iteration, index)) == 0
  {
    if s > 0 { NoSlotBeyond(n, m, s - 1, iteration, index); }
  }

  /** Every (iteration, case, model) triple occurs exactly once, and no others do, whether or not packets repeat. */
  lemma EveryTripleOnce(packets: seq<string>, models: seq<string>, iterations: nat, model: string, index: nat, iteration: nat)
    requires |packets| > 0 && Distinct(models) && model in models
    ensures Count(Rows(packets, models, iterations * |packets|), Triple(iteration, index, model))
         == if 1 <= iteration <= iterations && index < |packets| then 1 else 0
  {
    var s := iterations * |packets|;
    SlotNumber(|packets|, |models|, iterations, 0);
    TriplesMatchSlots(packets, models, s, model, index, iteration);
    if index < |packets| {
      SlotsOfCase(|packets|, |models|, s, iteration, index);
    } else {
      NoSlotBeyond(|packets|, |models|, s, iteration, index);
    }
  }

  // ----- balanced positions -----

  /** Rows of a model at one position of the order. */
  function AtPosition(m: nat, position: nat, model: string): Row -> bool
    requires m > 0
  {
    (r: Row) => r.sequence % m == position && r.model == model
  }

  /** One position, if `on`. */
  function Only(position: nat, on: bool): nat -> bool {
    (k: nat) => on && k == position
  }

  lemma {:induction false} OnlyCount(position: nat, on: bool, n: nat)
    ensures Hits(Only(position, on), n) == if on && position < n then 1 else 0
  {
    if n > 0 { OnlyCount(position, on, n - 1); }
  }

  lemma SlotPosition(packets: seq<string>, models: seq<string>, slot: Slot, base: nat, position: nat, model: string)
    requires IsSlot(packets, models, slot, base) && position < |models|
    ensures Count(SlotRows(packets, models, slot, base, |models|), AtPosition(|models|, position, model))
         == if Rotated(models, slot.offset)[position] == model then 1 else 0
  {
    var p, on := AtPosition(|models|, position, model), Rotated(models, slot.offset)[position] == model;
    forall k | 0 <= k < |models| ensures p(RowIn(packets, models, slot, base, k)) == Only(position, on)(k) {
      WithinSlot(base, k, |models|);
    }
    SlotRowsCount(packets, models, slot, base, |models|, p, Only(position, on));
    OnlyCount(position, on, |models|);
  }

  lemma WithinSlot(base: nat, p: nat, m: nat)
    requires p < m && base % m == 0
    ensures (base + p) % m == p
  {
    assert base == (base / m) * m;
    DivModUnique(base / m, p, m);
  }

  /** The offset that brings model number `j` to this position. */
  function OffsetFor(m: nat, j: nat, position: nat): nat
    requires j < m && position < m
  {
    if j >= position then j - position else j + m - position
  }

  lemma RotatedAt(models: seq<string>, offset: nat, position: nat, j: nat)
    requires Distinct(models) && offset < |models| && position < |models| && j < |models|
    ensures Rotated(models, offset)[position] == models[j] <==> offset == OffsetFor(|models|, j, position)
  {
    var m := |models|;
    var k := if offset + position < m then offset + position else offset + position - m;
    assert Rotated(models, offset)[position] == models[k];
    assert models[k] == models[j] ==> k == j;
  }

  function WithOffset(offset: nat): Slot -> bool {
    (slot: Slot) => slot.offset == offset
  }

  lemma PositionsMatchSlots(packets: seq<string>, models: seq<string>, s: nat, position: nat, j: nat)
    requires |packets| > 0 && Distinct(models) && position < |models| && j < |models|
    ensures Count(Rows(packets, models, s), AtPosition(|models|, position, models[j]))
         == Matching(|packets|, |models|, s, WithOffset(OffsetFor(|models|, j, position)))
  {
    var p, q := AtPosition(|models|, position, models[j]), WithOffset(OffsetFor(|models|, j, position));
    forall slot: Slot, base: nat | IsSlot(packets, models, slot, base)
      ensures Count(SlotRows(packets, models, slot, base, |models|), p) == if q(slot) then 1 else 0
    {
      SlotPosition(packets, models, slot, base, position, models[j]);
      RotatedAt(models, slot.offset, position, j);
    }
    RowsMatchSlots(packets, models, s, p, q);
  }

  lemma {:induction false} OffsetsCount(n: nat, m: nat, s: nat, offset: nat)
    requires n > 0 && m > 0
    ensures Matching(n, m, s, WithOffset(offset)) == WithRemainder(s, m, offset)
  {
    if s > 0 {
      OffsetsCount(n, m, s - 1, offset);
      SlotAtMeans(n, m, s - 1);
    }
  }

  /** Over N slots each of the m models stands at each position floor(N/m) times, or once more. */
  lemma PositionsAreBalanced(packets: seq<string>, models: seq<string>, slots: nat, position: nat, j: nat)
    requires |packets| > 0 && Distinct(models) && position < |models| && j < |models|
    ensures Count(Rows(packets, models, slots), AtPosition(|models|, position, models[j]))
         == slots / |models| + if OffsetFor(|models|, j, position) < slots % |models| then 1 else 0
  {
    PositionsMatchSlots(packets, models, slots, position, j);
    OffsetsCount(|packets|, |models|, slots, OffsetFor(|models|, j, position));
    RemaindersAreBalanced(slots, |models|, OffsetFor(|models|, j, position));
  }

  // ----- the gate -----

  function IterationsSeen(rows: seq<Row>, model: string, packet: string): set<nat> {
    set r | r in rows && r.model == model && r.packet == packet :: r.iteration
  }

  function UpTo(n: nat): set<nat> {
    if n == 0 then {} else UpTo(n - 1) + {n}
  }

  lemma {:induction false} InUpTo(n: nat, i: nat)
    ensures i in UpTo(n) <==> 1 <= i <= n
  {
    if n > 0 { InUpTo(n - 1, i); }
  }

  /** The preregistered repeat-count test for one model and one packet. */
  predicate RepeatsMet(rows: seq<Row>, model: string, packet: string, repeats: nat) {
    && IterationsSeen(rows, model, packet) == UpTo(repeats)
    && Count(rows, Cell(model, packet, None)) == repeats
  }

  predicate GatePasses(rows: seq<Row>, models: seq<string>, packets: seq<string>, repeats: nat) {
    forall m, p :: m in models && p in packets ==> RepeatsMet(rows, m, p, repeats)
  }

  lemma {:induction false} CountedIsThere(rows: seq<Row>, p: Row -> bool)
    ensures Count(rows, p) > 0 <==> exists r :: r in rows && p(r)
  {
    if rows != [] {
      var last := |rows| - 1;
      CountedIsThere(rows[..last], p);
      assert rows == rows[..last] + [rows[last]];
    }
  }

  lemma SeenExactly(rows: seq<Row>, iterations: nat, model: string, packet: string)
    requires forall i: nat :: Count(rows, Cell(model, packet, Some(i))) > 0 <==> 1 <= i <= iterations
    ensures IterationsSeen(rows, model, packet) == UpTo(iterations)
  {
    forall i: nat ensures i in IterationsSeen(rows, model, packet) <==> i in UpTo(iterations) {
      InUpTo(iterations, i);
      SeenMeansCounted(rows, model, packet, i);
    }
  }

  lemma CountedCell(packets: seq<string>, models: seq<string>, iterations: nat, model: string, packet: string, i: nat)
    requires Distinct(models) && model in models && packet in packets
    ensures Count(Rows(packets, models, iterations * |packets|), Cell(model, packet, Some(i))) > 0 <==> 1 <= i <= iterations
  {
    Listed(packets, packet);
    TripleCount(packets, models, iterations, model, packet, i);
  }

  lemma SeenMeansCounted(rows: seq<Row>, model: string, packet: string, i: nat)
    ensures i in IterationsSeen(rows, model, packet) <==> Count(rows, Cell(model, packet, Some(i))) > 0
  {
    CountedIsThere(rows, Cell(model, packet, Some(i)));
    if i in IterationsSeen(rows, model, packet) {
      var r :| r in rows && r.model == model && r.packet == packet && r.iteration == i;
      assert Cell(model, packet, Some(i))(r);
    }
  }

  lemma {:induction false} Listed(xs: seq<string>, x: string)
    requires x in xs
    ensures Count(xs, Is(x)) > 0
  {
    var last := |xs| - 1;
    if xs[last] != x {
      assert xs == xs[..last] + [xs[last]];
      Listed(xs[..last], x);
    }
  }

  /** Listing something at two places counts it twice. */
  lemma {:induction false} ListedTwice(xs: seq<string>, i: nat, j: nat)
    requires i < j < |xs| && xs[i] == xs[j]
    ensures Count(xs, Is(xs[i])) >= 2
  {
    var x := xs[i];
    assert xs == xs[..j] + xs[j..];
    CountConcat(xs[..j], xs[j..], Is(x));
    assert xs[..j][i] == x && xs[j..][0] == x;
    Listed(xs[..j], x);
    Listed(xs[j..], x);
  }

  lemma SameRange(a: nat, b: nat)
    ensures UpTo(a) == UpTo(b) ==> a == b
  {
    InUpTo(a, a);
    InUpTo(a, b);
    InUpTo(b, a);
    InUpTo(b, b);
  }

  /** The rows of the schedule pass their gate exactly when the registered repeat count is the number of
      iterations and no two packets share a fingerprint. */
  lemma OwnGateIsMet(packets: seq<string>, models: seq<string>, iterations: nat, repeats: nat)
    requires packets != [] && models != [] && Distinct(models) && iterations >= 1
    ensures GatePasses(Rows(packets, models, iterations * |packets|), models, packets, repeats)
       <==> repeats == iterations && Distinct(packets)
  {
    var rows := Rows(packets, models, iterations * |packets|);
    forall m, p | m in models && p in packets
      ensures RepeatsMet(rows, m, p, repeats) <==> repeats == iterations && Count(packets, Is(p)) == 1
    {
      OneCell(packets, models, iterations, repeats, m, p);
    }
    if Distinct(packets) {
      forall p | p in packets ensures Count(packets, Is(p)) == 1 { CountOnce(packets, p); }
    } else {
      var i, j :| 0 <= i < j < |packets| && packets[i] == packets[j];
      ListedTwice(packets, i, j);
      assert !RepeatsMet(rows, models[0], packets[i], repeats);
    }
    assert models[0] in models && packets[0] in packets;
  }

  lemma OneCell(packets: seq<string>, models: seq<string>, iterations: nat, repeats: nat, m: string, p: string)
    requires Distinct(models) && m in models && p in packets && iterations >= 1
    ensures RepeatsMet(Rows(packets, models, iterations * |packets|), m, p, repeats)
       <==> repeats == iterations && Count(packets, Is(p)) == 1
  {
    var rows := Rows(packets, models, iterations * |packets|);
    forall i: nat ensures Count(rows, Cell(m, p, Some(i))) > 0 <==> 1 <= i <= iterations {
      CountedCell(packets, models, iterations, m, p, i);
    }
    SeenExactly(rows, iterations, m, p);
    CellCount(packets, models, iterations, m, p);
    SameRange(repeats, iterations);
    TimesIsOne(iterations, Count(packets, Is(p)));
  }

  lemma TimesIsOne(a: nat, k: nat)
    requires a >= 1
    ensures a * k == a <==> k == 1
  {
    if k == 0 {
      assert a * k == 0;
    } else if k > 1 {
      MulOrder(2, k, a);
    }
  }
}
