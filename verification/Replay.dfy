/**
 Rebuilding the runtime state from its event log.

 Models `Replayer` of runtime_core/replay.py: `_apply_event` changes a state object in
 place, the replays are loops over the loaded events. The properties are about single-run
 logs, where a sequence number names one event and the cycle never goes down.
 */
module Replay {
  import opened Results
  import opened Sequences
  import opened Strings
  import opened RuntimeStates
  import opened EventLogs

  datatype Diagnostics = Diagnostics(totalLines: nat, parsedEvents: nat, malformedLines: nat, malformedLineNumbers: seq<nat>)

  datatype ForkPoint = ForkPoint(runId: string, parentRunId: string, parentCycle: int, parentSeq: int, state: RuntimeState, log: seq<Line>)

  // ---------------------------------------------------------------------
  // Operations
  // ---------------------------------------------------------------------

  method LoadEventsWithDiagnostics(lines: seq<Line>) returns (events: seq<Event>, diagnostics: Diagnostics)
    ensures events == Loaded(lines)
    ensures diagnostics.totalLines == |lines| && diagnostics.parsedEvents == |events|
    ensures diagnostics.malformedLineNumbers == MalformedLines(lines) && diagnostics.malformedLines == |MalformedLines(lines)|
  {
    events := [];
    var malformed: seq<nat> := [];
    for i := 0 to |lines|
      invariant events == Events(lines[..i]) && malformed == MalformedLines(lines[..i])
    {
      assert lines[..i + 1][..i] == lines[..i];
      match lines[i]
      case Blank =>
      case Malformed => malformed := malformed + [i + 1];
      case Parsed(event) => events := events + [event];
    }
    assert lines[..|lines|] == lines;
    SortResult(events);
    assert |multiset(events)| == |multiset(SortedBySeq(events))|;
    events := SortedBySeq(events);
    diagnostics := Diagnostics(|lines|, |events|, |malformed|, malformed);
  }

  /** `_apply_event`, on the state object. */
  method ApplyEvent(state: RuntimeState, event: Event, deltas: set<string>)
    modifies state
    ensures state.Value() == Applied(old(state.Value()), event.change, deltas)
  {
    hide ForMode, Lower, Strip;
    match event.change
    case UserMessage(content) =>
      if content != "" {
        state.frames := state.frames + [("user", content)];
      }
    case TurnComplete(content) =>
      if content != "" {
        state.frames := state.frames + [("assistant", content)];
      }
    case LoopPulse(tick) =>
      if tick.Some? {
        state.tickCount := tick.value;
      }
    case GovernanceModeSet(mode) =>
      if mode != "" {
        state.governance := ForMode(mode, state.governance.operatorAuthority, deltas);
      }
    case OperatorAuthoritySet(authority, trustLevel) =>
      var given := if authority.Some? then authority else trustLevel;
      if given.Some? && given.value != "" {
        state.governance := state.governance.(operatorAuthority := given.value);
      }
    case ExecutionModeSet(mode, enabled) =>
      if mode.Some? {
        var lowered := Lower(Strip(mode.value));
        if lowered == "execute" || lowered == "plan" {
          state.executionMode := lowered;
        }
      } else if enabled.Some? {
        state.executionMode := if enabled.value then "execute" else "plan";
      }
    case KillswitchEngaged(reason, at) =>
      state.killswitchEngaged := true;
      state.killswitchReason := reason;
      state.killswitchAt := at;
      state.executionMode := "plan";
      state.remainingBudget := 0.0;
    case KillswitchReleased =>
      state.killswitchEngaged := false;
      state.killswitchReason := "";
      state.killswitchAt := None;
    case CalibrationUpdated(key, value) =>
      if key != "" && value != "" {
        state.calibrations := state.calibrations[key := value];
      }
    case SymbolIgnited(glyph, meaning) =>
      if glyph != "" {
        state.calibrations := state.calibrations["symbol." + glyph := meaning];
      }
    case Other(_) =>
  }

  class Replayer {
    const deltas: set<string>

    constructor (deltas: set<string>)
      ensures this.deltas == deltas
    {
      this.deltas := deltas;
    }

    method Replay(lines: seq<Line>) returns (state: RuntimeState)
      ensures fresh(state) && state.Value() == Fold(Fresh(), Loaded(lines), deltas)
    {
      state := new RuntimeState();
      var events, _ := LoadEventsWithDiagnostics(lines);
      for i := 0 to |events|
        invariant state.Value() == Fold(Fresh(), events[..i], deltas)
      {
        ApplyEvent(state, events[i], deltas);
        assert events[..i + 1][..i] == events[..i];
      }
      assert events[..|events|] == events;
    }

    /** Stops at the first event past the cycle. */
    method ReplayUntil(lines: seq<Line>, cycle: int) returns (state: RuntimeState)
      ensures var events := Loaded(lines);
        fresh(state) && state.Value() == Fold(Fresh(), events[..Within(events, cycle)], deltas)
    {
      state := new RuntimeState();
      var events, _ := LoadEventsWithDiagnostics(lines);
      var i := 0;
      assert events[0..] == events;
      while i < |events|
        invariant NotPast(events, i, cycle)
        invariant state.Value() == Fold(Fresh(), events[..i], deltas)
      {
        OnePastMore(events, i, cycle);
        if Cycle(events[i]) > cycle {
          break;
        }
        ApplyEvent(state, events[i], deltas);
        assert events[..i + 1][..i] == events[..i];
        i := i + 1;
      }
    }

    /** The state at the boundary, its anchor in the parent log, and the log the fork starts with. */
    method ForkFrom(lines: seq<Line>, cycle: int, forkRunId: string) returns (fork: ForkPoint)
      ensures fresh(fork.state)
      ensures var events := Loaded(lines);
        var cut := events[..Within(events, cycle)];
        && fork.state.Value() == Fold(Fresh(), cut, deltas)
        && fork.parentRunId == LastRun(cut) && fork.parentSeq == GreatestSeq(cut) && fork.parentCycle == cycle
        && fork.runId == forkRunId && fork.log == ForkLog(forkRunId)
    {
      hide NotPast, LastRun, GreatestSeq, Within, Loaded, Fold, Seq, Cycle;
      var events, _ := LoadEventsWithDiagnostics(lines);
      var parentRun, parentSeq := "", 0;
      var i := 0;
      NothingCut(events, cycle);
      while i < |events|
        invariant i <= |events| && NotPast(events, i, cycle)
        invariant parentRun == LastRun(events[..i]) && parentSeq == GreatestSeq(events[..i])
      {
        OnePastMore(events, i, cycle);
        if Cycle(events[i]) > cycle {
          break;
        }
        if events[i].runId.Some? {
          parentRun := events[i].runId.value;
        }
        if Seq(events[i]) > parentSeq {
          parentSeq := Seq(events[i]);
        }
        OneMoreCut(events, i);
        i := i + 1;
      }
      if i == |events| {
        AllCut(events, cycle);
      }
      var state := ReplayUntil(lines, cycle);
      fork := ForkPoint(forkRunId, parentRun, cycle, parentSeq, state, ForkLog(forkRunId));
    }
  }

  // ---------------------------------------------------------------------
  // What the loops compute
  // ---------------------------------------------------------------------

  /** The first `i` events are within the cycle. */
  ghost predicate NotPast(events: seq<Event>, i: nat, cycle: int) {
    i <= |events| && i + Within(events[i..], cycle) == Within(events, cycle)
  }

  lemma OnePastMore(events: seq<Event>, i: nat, cycle: int)
    requires i < |events| && NotPast(events, i, cycle)
    ensures if Cycle(events[i]) > cycle then Within(events, cycle) == i else NotPast(events, i + 1, cycle)
  {
    assert events[i..][1..] == events[i + 1..];
  }

  function LastRun(events: seq<Event>): string {
    if events == [] then ""
    else
      var last := events[|events| - 1];
      if last.runId.Some? then last.runId.value else LastRun(events[..|events| - 1])
  }

  function GreatestSeq(events: seq<Event>): int {
    if events == [] then 0
    else
      var before := GreatestSeq(events[..|events| - 1]);
      if Seq(events[|events| - 1]) > before then Seq(events[|events| - 1]) else before
  }

  lemma NothingCut(events: seq<Event>, cycle: int)
    ensures NotPast(events, 0, cycle) && LastRun(events[..0]) == "" && GreatestSeq(events[..0]) == 0
  {
    assert events[0..] == events;
  }

  lemma AllCut(events: seq<Event>, cycle: int)
    ensures NotPast(events, |events|, cycle) ==> Within(events, cycle) == |events|
  {
  }

  lemma OneMoreCut(events: seq<Event>, i: nat)
    requires i < |events|
    ensures LastRun(events[..i + 1]) == if events[i].runId.Some? then events[i].runId.value else LastRun(events[..i])
    ensures var before := GreatestSeq(events[..i]);
      GreatestSeq(events[..i + 1]) == if Seq(events[i]) > before then Seq(events[i]) else before
  {
    assert events[..i + 1][..i] == events[..i];
  }

  function ForkLog(runId: string): seq<Line> {
    [Parsed(Event(Some(runId), Some(0), Some(0), Other("fork.created")))]
  }

  // ---------------------------------------------------------------------
  // Main results
  // ---------------------------------------------------------------------

  /** The order of the lines does not matter where a number names one event. */
  lemma ReplayIgnoresLineOrder(a: seq<Line>, b: seq<Line>)
    requires multiset(a) == multiset(b) && SeqNamesEvent(Events(a))
    ensures Loaded(a) == Loaded(b)
  {
    SameLinesSameEvents(a, b);
    SortResult(Events(a));
    SortResult(Events(b));
    SameSize(Events(a), Loaded(a));
    OrderIsUnique(Loaded(a), Loaded(b));
  }

  /** Two events of one number keep the order of their lines, so there the order matters. */
  lemma SameNumberKeepsLineOrder(e: Event, f: Event)
    requires Seq(e) == Seq(f)
    ensures Loaded([Parsed(e), Parsed(f)]) == [e, f]
  {
    var lines := [Parsed(e), Parsed(f)];
    assert lines[..1] == [Parsed(e)] && lines[..1][..0] == [];
    assert Events(lines[..1]) == [e];
    assert Events(lines) == [e, f];
    SortOfOrdered([e, f]);
  }

  /** Numbers name events and the cycle never goes down with the number. */
  ghost predicate SingleRun(events: seq<Event>) {
    && SeqNamesEvent(events)
    && forall e, f :: e in events && f in events && Seq(e) < Seq(f) ==> Cycle(e) <= Cycle(f)
  }

  lemma LoadedCyclesRise(lines: seq<Line>)
    requires SingleRun(Events(lines))
    ensures var events := Loaded(lines);
      && SingleRun(events) && Ordered(events)
      && forall i, j :: 0 <= i < j < |events| ==> Cycle(events[i]) <= Cycle(events[j])
  {
    var events := Loaded(lines);
    SortResult(Events(lines));
    SameSize(Events(lines), events);
    forall i, j | 0 <= i < j < |events|
      ensures Cycle(events[i]) <= Cycle(events[j])
    {
      assert Seq(events[i]) <= Seq(events[j]);
    }
  }

  lemma {:induction false} FilterAll<T>(s: seq<T>, keep: T -> bool)
    requires forall i :: 0 <= i < |s| ==> keep(s[i])
    ensures Filter(s, keep) == s
  {
    if s != [] {
      FilterAll(s[1..], keep);
    }
  }

  lemma {:induction false} FilterNone<T>(s: seq<T>, keep: T -> bool)
    requires forall i :: 0 <= i < |s| ==> !keep(s[i])
    ensures Filter(s, keep) == []
  {
    if s != [] {
      FilterNone(s[1..], keep);
    }
  }

  /** No event that is kept comes after one that is not. */
  ghost predicate KeptFirst(events: seq<Event>, keep: Event -> bool) {
    forall i, j :: 0 <= i < j < |events| && keep(events[j]) ==> keep(events[i])
  }

  lemma FilterPrefix(events: seq<Event>, n: nat, keep: Event -> bool)
    requires n <= |events| && forall i :: 0 <= i < n ==> keep(events[i])
    ensures Filter(events, keep) == events[..n] + Filter(events[n..], keep)
  {
    var front, rest := events[..n], events[n..];
    assert events == front + rest;
    FilterAll(front, keep);
    FilterConcat(front, rest, keep);
  }

  lemma NoneKept(events: seq<Event>, keep: Event -> bool)
    requires events != [] && !keep(events[0])
    ensures Filter(events, keep) == [] <==> KeptFirst(events, keep)
  {
    FilterMembers(events, keep);
    if Filter(events, keep) == [] {
      forall i | 0 <= i < |events|
        ensures !keep(events[i])
      {
        assert events[i] !in Filter(events, keep);
      }
    } else if KeptFirst(events, keep) {
      FilterNone(events, keep);
    }
  }

  lemma KeptPrefix(events: seq<Event>, n: nat, keep: Event -> bool)
    requires n < |events| && (forall i :: 0 <= i < n ==> keep(events[i])) && !keep(events[n])
    ensures events[..n] == Filter(events, keep) <==> KeptFirst(events, keep)
  {
    FilterPrefix(events, n, keep);
    NoneKept(events[n..], keep);
    KeptFirstFrom(events, n, keep);
    assert events[..n] == Filter(events, keep) <==> Filter(events[n..], keep) == [];
  }

  lemma KeptFirstFrom(events: seq<Event>, n: nat, keep: Event -> bool)
    requires n < |events| && forall i :: 0 <= i < n ==> keep(events[i])
    ensures KeptFirst(events, keep) <==> KeptFirst(events[n..], keep)
  {
    if KeptFirst(events[n..], keep) {
      forall i, j | 0 <= i < j < |events| && keep(events[j])
        ensures keep(events[i])
      {
        if i >= n {
          assert events[n..][i - n] == events[i] && events[n..][j - n] == events[j];
        }
      }
    }
  }

  /** Stopping at the boundary takes exactly the events within it when, and only when, none comes after a later one. */
  lemma {:induction false} CutIsFilterExactly(events: seq<Event>, cycle: int)
    ensures var keep := e => Cycle(e) <= cycle;
      events[..Within(events, cycle)] == Filter(events, keep) <==> KeptFirst(events, keep)
  {
    var n := Within(events, cycle);
    var keep := e => Cycle(e) <= cycle;
    if n < |events| {
      KeptPrefix(events, n, keep);
    } else {
      FilterAll(events, keep);
    }
  }

  /** In a single-run log, replaying until a cycle applies exactly the events of that cycle and before. */
  lemma ReplayUntilIsExact(lines: seq<Line>, cycle: int)
    requires SingleRun(Events(lines))
    ensures var events := Loaded(lines);
      events[..Within(events, cycle)] == Filter(events, e => Cycle(e) <= cycle)
  {
    LoadedCyclesRise(lines);
    CutIsFilterExactly(Loaded(lines), cycle);
  }

  lemma {:induction false} GreatestIsLast(events: seq<Event>)
    requires Ordered(events)
    ensures var last := if events == [] then 0 else Seq(events[|events| - 1]);
      GreatestSeq(events) == if last > 0 then last else 0
  {
    if events != [] {
      GreatestIsLast(events[..|events| - 1]);
    }
  }

  /**
   The anchor of a fork cuts a single-run log: with the numbers a runtime gives, from 1 on,
   an event is in the fork's past exactly when its number is at most `parent_seq`.
   */
  lemma AnchorCutsTheLog(lines: seq<Line>, cycle: int)
    requires SingleRun(Events(lines)) && forall e :: e in Events(lines) ==> Seq(e) >= 1
    ensures var events := Loaded(lines);
      var anchor := GreatestSeq(events[..Within(events, cycle)]);
      && (forall e :: e in events ==> (Cycle(e) <= cycle <==> Seq(e) <= anchor))
      && (anchor == 0 <==> forall e :: e in events ==> Cycle(e) > cycle)
      && (anchor > 0 ==> exists e :: e in events && Seq(e) == anchor && Cycle(e) <= cycle)
  {
    LoadedCyclesRise(lines);
    SortResult(Events(lines));
    SameSize(Events(lines), Loaded(lines));
    AnchorCutsOrdered(Loaded(lines), Within(Loaded(lines), cycle), cycle);
  }

  lemma AnchorCutsOrdered(events: seq<Event>, n: nat, cycle: int)
    requires n == Within(events, cycle) && Ordered(events) && SeqNamesEvent(events)
    requires forall e :: e in events ==> Seq(e) >= 1
    requires forall i, j :: 0 <= i < j < |events| ==> Cycle(events[i]) <= Cycle(events[j])
    ensures var anchor := GreatestSeq(events[..n]);
      && (forall e :: e in events ==> (Cycle(e) <= cycle <==> Seq(e) <= anchor))
      && (anchor == 0 <==> forall e :: e in events ==> Cycle(e) > cycle)
      && (anchor > 0 ==> exists e :: e in events && Seq(e) == anchor && Cycle(e) <= cycle)
  {
    hide Ordered, SeqNamesEvent, Seq, Cycle, GreatestSeq;
    AnchorOf(events, n);
    AnchorCuts(events, n, cycle, GreatestSeq(events[..n]));
  }

  lemma AnchorOf(events: seq<Event>, n: nat)
    requires n <= |events| && Ordered(events) && forall e :: e in events ==> Seq(e) >= 1
    ensures GreatestSeq(events[..n]) == if n == 0 then 0 else Seq(events[n - 1])
  {
    hide Seq;
    GreatestIsLast(events[..n]);
    if n > 0 {
      assert events[n - 1] in events;
    }
  }

  lemma AnchorCuts(events: seq<Event>, n: nat, cycle: int, anchor: int)
    requires n <= |events| && Ordered(events) && SeqNamesEvent(events)
    requires forall e :: e in events ==> Seq(e) >= 1
    requires forall i, j :: 0 <= i < j < |events| ==> Cycle(events[i]) <= Cycle(events[j])
    requires forall i :: 0 <= i < n ==> Cycle(events[i]) <= cycle
    requires n < |events| ==> Cycle(events[n]) > cycle
    requires anchor == if n == 0 then 0 else Seq(events[n - 1])
    ensures forall e :: e in events ==> (Cycle(e) <= cycle <==> Seq(e) <= anchor)
    ensures anchor == 0 <==> forall e :: e in events ==> Cycle(e) > cycle
    ensures anchor > 0 ==> exists e :: e in events && Seq(e) == anchor && Cycle(e) <= cycle
  {
    forall e | e in events
      ensures Cycle(e) <= cycle <==> Seq(e) <= anchor
    {
      var i :| 0 <= i < |events| && events[i] == e;
      if i >= n {
        assert Cycle(events[n]) <= Cycle(events[i]);
        if n > 0 {
          assert Seq(events[n - 1]) <= Seq(events[i]) && events[n - 1] != events[i];
        }
      }
    }
    if n > 0 {
      assert events[n - 1] in events;
    }
  }

  /** The events numbered above an anchor. */
  function PastAnchor(events: seq<Event>, anchor: int): seq<Event> {
    Filter(events, e => Seq(e) > anchor)
  }

  /**
   A fork followed by the parent's events after its anchor ends where the parent ended: in a
   single-run log, the numbers above `parent_seq` are exactly what the fork has not seen.
   */
  lemma ForkThenRestIsParent(lines: seq<Line>, cycle: int, deltas: set<string>)
    requires SingleRun(Events(lines)) && forall e :: e in Events(lines) ==> Seq(e) >= 1
    ensures var events := Loaded(lines);
      var cut := events[..Within(events, cycle)];
      Fold(Fold(Fresh(), cut, deltas), PastAnchor(events, GreatestSeq(cut)), deltas) == Fold(Fresh(), events, deltas)
  {
    hide Fold, PastAnchor, SingleRun, Ordered;
    var events := Loaded(lines);
    var n := Within(events, cycle);
    AnchorCutsTheLog(lines, cycle);
    LoadedCyclesRise(lines);
    RestIsPastAnchor(events, n, cycle, GreatestSeq(events[..n]));
    CutThenRest(events, n, deltas);
  }

  lemma CutThenRest(events: seq<Event>, n: nat, deltas: set<string>)
    requires n <= |events|
    ensures Fold(Fold(Fresh(), events[..n], deltas), events[n..], deltas) == Fold(Fresh(), events, deltas)
  {
    FoldConcat(Fresh(), events[..n], events[n..], deltas);
    assert events[..n] + events[n..] == events;
  }

  lemma RestIsPastAnchor(events: seq<Event>, n: nat, cycle: int, anchor: int)
    requires n == Within(events, cycle)
    requires forall e :: e in events ==> (Cycle(e) <= cycle <==> Seq(e) <= anchor)
    requires forall i, j :: 0 <= i < j < |events| ==> Cycle(events[i]) <= Cycle(events[j])
    ensures PastAnchor(events, anchor) == events[n..]
  {
    hide PastAnchor, Seq, Cycle;
    forall i | 0 <= i < |events|
      ensures Seq(events[i]) > anchor <==> i >= n
    {
      assert events[i] in events;
      assert i > n ==> Cycle(events[n]) <= Cycle(events[i]);
    }
    PastAnchorFrom(events, n, anchor);
  }

  lemma PastAnchorFrom(events: seq<Event>, n: nat, anchor: int)
    requires n <= |events| && forall i :: 0 <= i < |events| ==> (Seq(events[i]) > anchor <==> i >= n)
    ensures PastAnchor(events, anchor) == events[n..]
  {
    hide Seq;
    var past := e => Seq(e) > anchor;
    var cut, rest := events[..n], events[n..];
    assert events == cut + rest;
    FilterNone(cut, past);
    FilterAll(rest, past);
    FilterConcat(cut, rest, past);
    assert [] + rest == rest;
  }

  /** The fork's own log starts from a fresh state: its parent's past is only in the saved state. */
  lemma ForkLogStartsFresh(runId: string, deltas: set<string>)
    ensures Fold(Fresh(), Loaded(ForkLog(runId)), deltas) == Fresh()
  {
    var lines := ForkLog(runId);
    assert lines[..0] == [];
    assert Events(lines) == [lines[0].event];
    SortOfOrdered(Events(lines));
    assert Loaded(lines)[..0] == [];
  }
}
