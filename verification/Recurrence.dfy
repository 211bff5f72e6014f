/**
 Recurrence counting with decay.

 Models the recurrence part of `WorkspaceIngestionLayer` in runtime_core/ingestion.py.
 Counts are reals where the code has floats; the proposal an event leads to is not part of
 this model, only its signals.
 */
module Recurrence {
  import opened Results

  const THRESHOLD: real := 3.0

  /** Every signal of the map; the two that the recurrence rule treats apart come first. */
  datatype Signal =
    | Observed | RepeatedlyRevisited
    | Referenced | Edited | TerminalReferenced | StructurallyCentral | OperatorFocused | GitStagedDiscussed

  const SIGNAL_MAP: map<string, Signal> := map[
    "file_opened" := Observed,
    "file_referenced" := Referenced,
    "symbol_referenced" := Referenced,
    "file_edited" := Edited,
    "file_saved" := Edited,
    "terminal_command" := TerminalReferenced,
    "terminal_referenced" := TerminalReferenced,
    "file_revisited" := RepeatedlyRevisited,
    "structurally_central" := StructurallyCentral,
    "operator_focus" := OperatorFocused,
    "operator_focused" := OperatorFocused,
    "git_staged_discussed" := GitStagedDiscussed]

  datatype WorkspaceEvent = WorkspaceEvent(kind: string, path: Option<string>, symbol: Option<string>, command: Option<string>)

  /** What the signal map has for the kind of the event. */
  function SignalOf(event: WorkspaceEvent): Option<Signal> {
    if event.kind in SIGNAL_MAP then Some(SIGNAL_MAP[event.kind]) else None
  }

  function Given(s: Option<string>): string {
    if s.Some? then s.value else ""
  }

  /** `entity`: the first of path, symbol and command that is not empty. */
  function Entity(event: WorkspaceEvent): string {
    if Given(event.path) != "" then Given(event.path)
    else if Given(event.symbol) != "" then Given(event.symbol)
    else Given(event.command)
  }

  /** What becomes of an event: `signals` and `count` go into its proposal, if it gets one. */
  datatype Summary = UnknownKind | BelowThreshold(signal: Signal) | Scored(signals: seq<Signal>, count: real)

  datatype Table = Table(counts: map<string, real>, lastCycle: map<string, int>)

  /** The decay rate to the power `n`. */
  function Pow(n: nat): real {
    if n == 0 then 1.0 else Pow(n - 1) * 0.85
  }

  /** A count after idle cycles, one cycle at a time. */
  function Decayed(count: real, idle: nat): real {
    if idle == 0 then count else Decayed(count, idle - 1) * 0.85
  }

  /** The code multiplies by a power instead. */
  lemma {:induction false} DecayedIsProduct(count: real, idle: nat, power: real)
    requires power == Pow(idle)
    ensures Decayed(count, idle) == count * power
  {
    if idle > 0 {
      DecayedIsProduct(count, idle - 1, Pow(idle - 1));
      Regroup(count, Pow(idle - 1), 0.85);
    }
  }

  lemma Regroup(a: real, b: real, c: real)
    ensures a * (b * c) == (a * b) * c
  {
  }

  function Idle(last: int, cycle: int): nat {
    if cycle > last then cycle - last else 0
  }

  function Seen(t: Table, entity: string, cycle: int): Table {
    var last := if entity in t.lastCycle then t.lastCycle[entity] else cycle;
    var count := if entity in t.counts then t.counts[entity] else 0.0;
    Table(t.counts[entity := Decayed(count, Idle(last, cycle)) + 1.0], t.lastCycle[entity := cycle])
  }

  function Signals(signal: Signal, entity: string, count: real): seq<Signal> {
    [signal] + if entity != "" && count >= THRESHOLD && signal != RepeatedlyRevisited then [RepeatedlyRevisited] else []
  }

  function Tracked(t: Table, event: WorkspaceEvent, cycle: int): Table {
    if SignalOf(event).Some? && Entity(event) != "" then Seen(t, Entity(event), cycle) else t
  }

  function CountIn(t: Table, entity: string): real {
    if entity in t.counts then t.counts[entity] else 0.0
  }

  /** The summary of an event, given the table that counts it. */
  function Summarized(t: Table, event: WorkspaceEvent): Summary {
    if SignalOf(event).None? then UnknownKind
    else
      var signal := SignalOf(event).value;
      var count := CountIn(t, Entity(event));
      if signal.Observed? then BelowThreshold(signal) else Scored(Signals(signal, Entity(event), count), count)
  }

  class WorkspaceIngestionLayer {
    var entityCounts: map<string, real>
    var entityLastCycle: map<string, int>

    ghost function Value(): Table
      reads this
    {
      Table(entityCounts, entityLastCycle)
    }

    constructor ()
      ensures Value() == Table(map[], map[])
    {
      entityCounts, entityLastCycle := map[], map[];
    }

    method Ingest(event: WorkspaceEvent, cycle: int) returns (r: Summary)
      modifies this
      ensures Value() == Tracked(old(Value()), event, cycle) && r == Summarized(Value(), event)
    {
      if SignalOf(event).None? {
        return UnknownKind;
      }
      var signal := SignalOf(event).value;
      var entity := Entity(event);
      if entity != "" {
        var last := if entity in entityLastCycle then entityLastCycle[entity] else cycle;
        var prior := if entity in entityCounts then entityCounts[entity] else 0.0;
        var idle := Idle(last, cycle);
        var power := Pow(idle);
        var decayed := prior * power;
        DecayedIsProduct(prior, idle, power);
        assert decayed == Decayed(prior, idle);
        entityCounts := entityCounts[entity := decayed + 1.0];
        entityLastCycle := entityLastCycle[entity := cycle];
        assert Value() == Seen(old(Value()), entity, cycle);
      }
      if signal.Observed? {
        return BelowThreshold(signal);
      }
      var signals := [signal];
      var count := if entity in entityCounts then entityCounts[entity] else 0.0;
      if entity != "" && count >= THRESHOLD && RepeatedlyRevisited !in signals {
        signals := signals + [RepeatedlyRevisited];
      }
      r := Scored(signals, count);
    }

    method ResetRecurrence()
      modifies this
      ensures Value() == Table(map[], map[])
    {
      entityCounts, entityLastCycle := map[], map[];
    }
  }

  // ---------------------------------------------------------------------
  // Histories
  // ---------------------------------------------------------------------

  datatype Arrival = Arrival(event: WorkspaceEvent, cycle: int)

  /** The table after a history, from an empty one. */
  function After(history: seq<Arrival>): Table {
    if history == [] then Table(map[], map[])
    else
      var last := history[|history| - 1];
      Tracked(After(history[..|history| - 1]), last.event, last.cycle)
  }

  predicate Sights(a: Arrival, entity: string) {
    SignalOf(a.event).Some? && Entity(a.event) == entity
  }

  /** The cycles in which an entity was seen. */
  function Sightings(history: seq<Arrival>, entity: string): seq<int> {
    if history == [] then []
    else
      var last := history[|history| - 1];
      Sightings(history[..|history| - 1], entity) + if Sights(last, entity) then [last.cycle] else []
  }

  /** The running count over the sightings of one entity. */
  function Count(cycles: seq<int>): real {
    if cycles == [] then 0.0
    else if |cycles| == 1 then 1.0
    else Decayed(Count(cycles[..|cycles| - 1]), Idle(cycles[|cycles| - 2], cycles[|cycles| - 1])) + 1.0
  }

  /** The table holds the running count and the last cycle of an entity seen in these cycles. */
  predicate Holds(t: Table, entity: string, cycles: seq<int>) {
    && (entity in t.counts <==> cycles != []) && (entity in t.lastCycle <==> cycles != [])
    && (cycles != [] ==> t.counts[entity] == Count(cycles) && t.lastCycle[entity] == cycles[|cycles| - 1])
  }

  /** The table holds exactly the entities seen, each with its running count, whatever else was seen in between. */
  lemma {:induction false} TableHoldsCounts(history: seq<Arrival>, entity: string)
    requires entity != ""
    ensures Holds(After(history), entity, Sightings(history, entity))
  {
    if history != [] {
      hide Seen, Count, SignalOf, Entity, Holds;
      var k := |history| - 1;
      TableHoldsCounts(history[..k], entity);
      ArrivalCounts(After(history[..k]), Sightings(history[..k], entity), entity, history[k]);
    } else {
      assert After(history) == Table(map[], map[]) && Sightings(history, entity) == [];
    }
  }

  lemma ArrivalCounts(t: Table, before: seq<int>, entity: string, a: Arrival)
    requires entity != "" && Holds(t, entity, before)
    ensures Holds(Tracked(t, a.event, a.cycle), entity, before + if Sights(a, entity) then [a.cycle] else [])
  {
    hide SignalOf, Count;
    if Sights(a, entity) {
      SightingCounts(t, before, entity, a.cycle);
    } else {
      assert before + [] == before;
    }
  }

  lemma SightingCounts(t: Table, before: seq<int>, entity: string, cycle: int)
    requires Holds(t, entity, before)
    ensures Seen(t, entity, cycle).counts[entity] == Count(before + [cycle])
  {
    var cycles := before + [cycle];
    assert cycles[..|before|] == before;
    if before == [] {
      assert Pow(0) == 1.0;
      assert Decayed(0.0, Idle(cycle, cycle)) == 0.0;
    } else {
      assert cycles[|cycles| - 2] == before[|before| - 1];
    }
  }

  // ---------------------------------------------------------------------
  // The closed form
  // ---------------------------------------------------------------------

  predicate Rising(cycles: seq<int>) {
    forall i, j :: 0 <= i <= j < |cycles| ==> cycles[i] <= cycles[j]
  }

  /** The sum over the sightings of the decay from each to `now`. */
  function DecayedSum(cycles: seq<int>, now: int): real
    requires forall i :: 0 <= i < |cycles| ==> cycles[i] <= now
  {
    if cycles == [] then 0.0 else DecayedSum(cycles[..|cycles| - 1], now) + Pow(now - cycles[|cycles| - 1])
  }

  lemma {:induction false} PowAdds(m: nat, n: nat)
    ensures Pow(m + n) == Decayed(Pow(m), n)
  {
    if n > 0 {
      PowAdds(m, n - 1);
    }
  }

  lemma {:induction false} SumDecays(cycles: seq<int>, now: int, later: int)
    requires now <= later && forall i :: 0 <= i < |cycles| ==> cycles[i] <= now
    ensures DecayedSum(cycles, later) == Decayed(DecayedSum(cycles, now), later - now)
  {
    if cycles == [] {
      DecayOfZero(later - now);
    } else {
      var k := |cycles| - 1;
      SumDecays(cycles[..k], now, later);
      PowAdds(now - cycles[k], later - now);
      assert now - cycles[k] + (later - now) == later - cycles[k];
      DistributeDecay(DecayedSum(cycles[..k], now), Pow(now - cycles[k]), later - now);
    }
  }

  lemma {:induction false} DistributeDecay(a: real, b: real, n: nat)
    ensures Decayed(a + b, n) == Decayed(a, n) + Decayed(b, n)
  {
    if n > 0 {
      DistributeDecay(a, b, n - 1);
    }
  }

  lemma {:induction false} DecayOfZero(n: nat)
    ensures Decayed(0.0, n) == 0.0
  {
    if n > 0 {
      DecayOfZero(n - 1);
    }
  }

  /** For cycles that never go down, the count is the sum over all sightings of 0.85 to the cycles since each. */
  lemma {:induction false} CountIsDecayedSum(cycles: seq<int>)
    requires cycles != [] && Rising(cycles)
    ensures Count(cycles) == DecayedSum(cycles, cycles[|cycles| - 1])
  {
    var k := |cycles| - 1;
    var now := cycles[k];
    assert Pow(now - now) == 1.0;
    if k > 0 {
      CountIsDecayedSum(cycles[..k]);
      SumDecays(cycles[..k], cycles[k - 1], now);
    } else {
      assert cycles[..0] == [];
    }
  }

  // ---------------------------------------------------------------------
  // Crossing the threshold
  // ---------------------------------------------------------------------

  /** A larger count stays larger, and a longer wait leaves less. */
  lemma {:induction false} DecayIsMonotone(x: real, y: real, n: nat)
    requires 0.0 <= x <= y
    ensures 0.0 <= Decayed(x, n) <= Decayed(y, n)
  {
    if n > 0 {
      DecayIsMonotone(x, y, n - 1);
    }
  }

  lemma {:induction false} DecayFalls(x: real, m: nat, n: nat)
    requires 0.0 <= x && m <= n
    ensures Decayed(x, n) <= Decayed(x, m)
    decreases n
  {
    if m < n {
      DecayFalls(x, m, n - 1);
      DecayIsMonotone(0.0, x, n - 1);
      DecayOfZero(n - 1);
    }
  }

  lemma SmallDecays(x: real)
    ensures Decayed(x, 2) == x * 0.7225 && Decayed(x, 3) == x * 0.614125
  {
    assert Decayed(x, 1) == x * 0.85;
    assert Decayed(x, 2) == x * 0.7225;
  }

  /** No two sightings closer than `gap`. */
  predicate GapsAtLeast(cycles: seq<int>, gap: nat) {
    forall i :: 0 < i < |cycles| ==> cycles[i] - cycles[i - 1] >= gap
  }

  predicate GapsAtMost(cycles: seq<int>, gap: nat) {
    forall i :: 0 < i < |cycles| ==> 0 <= cycles[i] - cycles[i - 1] <= gap
  }

  lemma {:induction false} CountIsPositive(cycles: seq<int>)
    ensures Count(cycles) >= 0.0
  {
    if |cycles| > 1 {
      var k := |cycles| - 1;
      CountIsPositive(cycles[..k]);
      DecayIsMonotone(0.0, Count(cycles[..k]), Idle(cycles[k - 1], cycles[k]));
      DecayOfZero(Idle(cycles[k - 1], cycles[k]));
    }
  }

  /** An entity seen at most once every three cycles stays at or below 8000/3087, under the threshold, for ever. */
  lemma {:induction false} SparseStaysBelow(cycles: seq<int>)
    requires GapsAtLeast(cycles, 3)
    ensures Count(cycles) <= 8000.0 / 3087.0 < THRESHOLD
  {
    if |cycles| > 1 {
      var k := |cycles| - 1;
      SparseStaysBelow(cycles[..k]);
      CountIsPositive(cycles[..k]);
      DecayFalls(Count(cycles[..k]), 3, Idle(cycles[k - 1], cycles[k]));
      SmallDecays(Count(cycles[..k]));
    }
  }

  /** The count after `n` sightings two cycles apart. */
  function Pace(n: nat): real {
    if n == 0 then 0.0 else Pace(n - 1) * 0.7225 + 1.0
  }

  lemma {:induction false} PaceRises(n: nat)
    ensures 0.0 <= Pace(n) <= Pace(n + 1)
  {
    if n > 0 {
      PaceRises(n - 1);
      assert Pace(n - 1) * 0.7225 <= Pace(n) * 0.7225;
    }
  }

  lemma {:induction false} PaceIsMonotone(m: nat, n: nat)
    requires m <= n
    ensures Pace(m) <= Pace(n)
    decreases n
  {
    if m < n {
      PaceIsMonotone(m, n - 1);
      PaceRises(n - 1);
    }
  }

  /** Five sightings at that pace stay below the threshold, the sixth crosses it. */
  lemma PaceCrossesAtSix(n: nat)
    ensures Pace(n) >= THRESHOLD <==> n >= 6
  {
    assert Pace(1) == 1.0;
    assert Pace(2) == 1.7225;
    assert Pace(3) == 2.24450625;
    assert Pace(4) == 2.621655765625;
    assert Pace(5) == 2.8941462906640625;
    assert Pace(6) > 3.0;
    if n >= 6 {
      PaceIsMonotone(6, n);
    } else {
      PaceIsMonotone(n, 5);
    }
  }

  lemma {:induction false} DenserCountsMore(cycles: seq<int>)
    requires GapsAtMost(cycles, 2)
    ensures Count(cycles) >= Pace(|cycles|)
  {
    if |cycles| > 1 {
      var k := |cycles| - 1;
      DenserCountsMore(cycles[..k]);
      CountIsPositive(cycles[..k]);
      DecayFalls(Count(cycles[..k]), Idle(cycles[k - 1], cycles[k]), 2);
      SmallDecays(Count(cycles[..k]));
    }
  }

  lemma {:induction false} SparserCountsLess(cycles: seq<int>)
    requires GapsAtLeast(cycles, 2)
    ensures Count(cycles) <= Pace(|cycles|)
  {
    if |cycles| > 1 {
      var k := |cycles| - 1;
      SparserCountsLess(cycles[..k]);
      CountIsPositive(cycles[..k]);
      DecayFalls(Count(cycles[..k]), 2, Idle(cycles[k - 1], cycles[k]));
      SmallDecays(Count(cycles[..k]));
    }
  }

  /**
   Around the pace of one sighting every two cycles: at that pace or faster, six sightings
   cross the threshold; at that pace or slower, five do not. At exactly that pace the sixth
   sighting is the first to cross.
   */
  lemma EveryTwoCyclesCrossesAtSix(cycles: seq<int>)
    ensures GapsAtMost(cycles, 2) && |cycles| >= 6 ==> Count(cycles) >= THRESHOLD
    ensures GapsAtLeast(cycles, 2) && |cycles| <= 5 ==> Count(cycles) < THRESHOLD
    ensures GapsAtMost(cycles, 2) && GapsAtLeast(cycles, 2) ==> (Count(cycles) >= THRESHOLD <==> |cycles| >= 6)
  {
    PaceCrossesAtSix(|cycles|);
    if GapsAtMost(cycles, 2) {
      DenserCountsMore(cycles);
    }
    if GapsAtLeast(cycles, 2) {
      SparserCountsLess(cycles);
    }
  }

  /** An event, counted in the table, adds the recurrence signal. */
  predicate Recurs(t: Table, event: WorkspaceEvent) {
    var summary := Summarized(t, event);
    && SignalOf(event).Some? && !SignalOf(event).value.RepeatedlyRevisited?
    && summary.Scored? && RepeatedlyRevisited in summary.signals
  }

  /** The last event of a history adds the recurrence signal. */
  predicate AddsRecurrence(history: seq<Arrival>)
    requires history != []
  {
    Recurs(After(history), history[|history| - 1].event)
  }

  lemma RecursFromThreshold(t: Table, event: WorkspaceEvent)
    requires SignalOf(event).Some? && !SignalOf(event).value.Observed? && !SignalOf(event).value.RepeatedlyRevisited?
    ensures Recurs(t, event) <==> Entity(event) != "" && CountIn(t, Entity(event)) >= THRESHOLD
  {
    SignalsRecur(SignalOf(event).value, Entity(event), CountIn(t, Entity(event)));
  }

  lemma RecursNeedsCount(t: Table, event: WorkspaceEvent)
    requires Recurs(t, event)
    ensures Entity(event) != "" && CountIn(t, Entity(event)) >= THRESHOLD
  {
    SignalsRecur(SignalOf(event).value, Entity(event), CountIn(t, Entity(event)));
  }

  /** Opening a file is below the proposal threshold, and a revisit is the recurrence signal already. */
  lemma KindsApart(event: WorkspaceEvent)
    ensures SignalOf(event).Some? <==> event.kind in SIGNAL_MAP
    ensures SignalOf(event) == Some(Observed) <==> event.kind == "file_opened"
    ensures SignalOf(event) == Some(RepeatedlyRevisited) <==> event.kind == "file_revisited"
  {
    if event.kind in SIGNAL_MAP {
      assert SignalOf(event) == Some(SIGNAL_MAP[event.kind]);
    }
  }

  lemma SignalsRecur(signal: Signal, entity: string, count: real)
    requires !signal.RepeatedlyRevisited?
    ensures RepeatedlyRevisited in Signals(signal, entity, count) <==> entity != "" && count >= THRESHOLD
  {
  }

  /** The last event of a history adds the recurrence signal exactly when the decayed sum of its entity's sightings is 3 or more. */
  lemma RecurrenceIsDecayedSum(history: seq<Arrival>)
    requires history != []
    requires var event := history[|history| - 1].event;
      && event.kind in SIGNAL_MAP && event.kind != "file_opened" && event.kind != "file_revisited" && Entity(event) != ""
      && Rising(Sightings(history, Entity(event)))
    ensures var last := history[|history| - 1];
      var cycles := Sightings(history, Entity(last.event));
      && (forall i :: 0 <= i < |cycles| ==> cycles[i] <= last.cycle)
      && (AddsRecurrence(history) <==> DecayedSum(cycles, last.cycle) >= THRESHOLD)
  {
    var last := history[|history| - 1];
    var cycles := Sightings(history, Entity(last.event));
    hide SignalOf;
    KindsApart(last.event);
    LastSighting(history, last);
    CountIsDecayedSum(cycles);
    RecursFromThreshold(After(history), last.event);
  }

  /** The last event of a history is counted with all its sightings. */
  lemma LastSighting(history: seq<Arrival>, last: Arrival)
    requires history != [] && last == history[|history| - 1] && SignalOf(last.event).Some? && Entity(last.event) != ""
    ensures var cycles := Sightings(history, Entity(last.event));
      && cycles != [] && cycles[|cycles| - 1] == last.cycle && CountIn(After(history), Entity(last.event)) == Count(cycles)
  {
    var entity := Entity(last.event);
    TableHoldsCounts(history, entity);
    assert Sightings(history, entity) == Sightings(history[..|history| - 1], entity) + [last.cycle];
  }

  lemma SparseCount(history: seq<Arrival>, entity: string)
    requires entity != "" && GapsAtLeast(Sightings(history, entity), 3)
    ensures CountIn(After(history), entity) < THRESHOLD
  {
    TableHoldsCounts(history, entity);
    SparseStaysBelow(Sightings(history, entity));
  }

  /** In any history, an entity seen at most once every three cycles never adds the recurrence signal. */
  lemma {:induction false} SparseNeverRecurs(history: seq<Arrival>)
    requires history != []
    requires GapsAtLeast(Sightings(history, Entity(history[|history| - 1].event)), 3)
    ensures !AddsRecurrence(history)
  {
    var event := history[|history| - 1].event;
    if Recurs(After(history), event) {
      RecursNeedsCount(After(history), event);
      SparseCount(history, Entity(event));
    }
  }
}
