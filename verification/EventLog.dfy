/**
 The append-only event log and its fold.

 Models the loading of a log and `_apply_event` in runtime_core/replay.py as functions.
 The fields of an event have the types their emitters write. Identity nodes and signal
 vectors are not part of this model, so their events change nothing here.
 */
module EventLogs {
  import opened Results
  import opened Strings
  import opened RuntimeStates

  datatype Change =
    | UserMessage(content: string)
    | TurnComplete(content: string)
    | LoopPulse(tick: Option<int>)
    | GovernanceModeSet(mode: string)
    | OperatorAuthoritySet(authority: Option<string>, trustLevel: Option<string>)
    | ExecutionModeSet(executionMode: Option<string>, toolUseEnabled: Option<bool>)
    | KillswitchEngaged(reason: string, at: Option<real>)
    | KillswitchReleased
    | CalibrationUpdated(key: string, value: string)
    | SymbolIgnited(glyph: string, meaning: string)
    | Other(kind: string)

  /** `number` is the `seq` of the event. */
  datatype Event = Event(runId: Option<string>, cycle: Option<int>, number: Option<int>, change: Change)

  /** A log line: blank, not JSON, or an event. */
  datatype Line = Blank | Malformed | Parsed(event: Event)

  function Seq(e: Event): int {
    if e.number.Some? then e.number.value else 0
  }

  function Cycle(e: Event): int {
    if e.cycle.Some? then e.cycle.value else 0
  }

  // ---------------------------------------------------------------------
  // The fold
  // ---------------------------------------------------------------------

  /** `_apply_event` as a function; `deltas` are the known tool deltas. */
  function Applied(s: State, change: Change, deltas: set<string>): State {
    match change
    case UserMessage(content) => if content == "" then s else s.(frames := s.frames + [("user", content)])
    case TurnComplete(content) => if content == "" then s else s.(frames := s.frames + [("assistant", content)])
    case LoopPulse(tick) => if tick.Some? then s.(tickCount := tick.value) else s
    case GovernanceModeSet(mode) =>
      if mode == "" then s else s.(governance := ForMode(mode, s.governance.operatorAuthority, deltas))
    case OperatorAuthoritySet(authority, trustLevel) =>
      var given := if authority.Some? then authority else trustLevel;
      if given.None? || given.value == "" then s
      else s.(governance := s.governance.(operatorAuthority := given.value))
    case ExecutionModeSet(mode, enabled) =>
      if mode.Some? then
        var lowered := Lower(Strip(mode.value));
        if lowered == "execute" || lowered == "plan" then s.(executionMode := lowered) else s
      else if enabled.Some? then s.(executionMode := if enabled.value then "execute" else "plan")
      else s
    case KillswitchEngaged(reason, at) =>
      s.(killswitchEngaged := true, killswitchReason := reason, killswitchAt := at,
         executionMode := "plan", remainingBudget := 0.0)
    case KillswitchReleased => s.(killswitchEngaged := false, killswitchReason := "", killswitchAt := None)
    case CalibrationUpdated(key, value) =>
      if key == "" || value == "" then s else s.(calibrations := s.calibrations[key := value])
    case SymbolIgnited(glyph, meaning) =>
      if glyph == "" then s else s.(calibrations := s.calibrations["symbol." + glyph := meaning])
    case Other(_) => s
  }

  function Fold(s: State, events: seq<Event>, deltas: set<string>): State {
    if events == [] then s
    else Applied(Fold(s, events[..|events| - 1], deltas), events[|events| - 1].change, deltas)
  }

  lemma {:induction false} FoldConcat(s: State, a: seq<Event>, b: seq<Event>, deltas: set<string>)
    ensures Fold(s, a + b, deltas) == Fold(Fold(s, a, deltas), b, deltas)
  {
    if b == [] {
      assert a + b == a;
    } else {
      assert (a + b)[..|a + b| - 1] == a + b[..|b| - 1];
      FoldConcat(s, a, b[..|b| - 1], deltas);
    }
  }

  // ---------------------------------------------------------------------
  // Loading
  // ---------------------------------------------------------------------

  function Events(lines: seq<Line>): seq<Event> {
    if lines == [] then []
    else
      var last := lines[|lines| - 1];
      Events(lines[..|lines| - 1]) + if last.Parsed? then [last.event] else []
  }

  /** The 1-based numbers of the malformed lines. */
  function MalformedLines(lines: seq<Line>): seq<nat> {
    if lines == [] then []
    else MalformedLines(lines[..|lines| - 1]) + if lines[|lines| - 1].Malformed? then [|lines|] else []
  }

  /** Puts an event after every event with the same or a lower number. */
  function Insert(events: seq<Event>, e: Event): seq<Event> {
    if events == [] || Seq(events[|events| - 1]) <= Seq(e) then events + [e]
    else Insert(events[..|events| - 1], e) + [events[|events| - 1]]
  }

  /** The stable sort by `seq`. */
  function SortedBySeq(events: seq<Event>): seq<Event> {
    if events == [] then [] else Insert(SortedBySeq(events[..|events| - 1]), events[|events| - 1])
  }

  /** `_load_events`. */
  function Loaded(lines: seq<Line>): seq<Event> {
    SortedBySeq(Events(lines))
  }

  /** How many leading events lie within a cycle: the loop stops at the first one past it. */
  function Within(events: seq<Event>, cycle: int): (n: nat)
    ensures n <= |events| && (forall i :: 0 <= i < n ==> Cycle(events[i]) <= cycle)
    ensures n < |events| ==> Cycle(events[n]) > cycle
  {
    if events == [] || Cycle(events[0]) > cycle then 0 else 1 + Within(events[1..], cycle)
  }

  // ---------------------------------------------------------------------
  // Sorting
  // ---------------------------------------------------------------------

  ghost predicate Ordered(events: seq<Event>) {
    forall i, j :: 0 <= i < j < |events| ==> Seq(events[i]) <= Seq(events[j])
  }

  lemma OneMore<T>(s: seq<T>, x: T)
    ensures multiset(s + [x]) == multiset(s) + multiset{x}
  {
  }

  lemma LastApart<T>(s: seq<T>)
    requires s != []
    ensures multiset(s) == multiset(s[..|s| - 1]) + multiset{s[|s| - 1]}
  {
    assert s == s[..|s| - 1] + [s[|s| - 1]];
  }

  lemma {:induction false} InsertKeepsEvents(events: seq<Event>, e: Event)
    ensures multiset(Insert(events, e)) == multiset(events) + multiset{e}
  {
    if events == [] || Seq(events[|events| - 1]) <= Seq(e) {
      OneMore(events, e);
    } else {
      var k := |events| - 1;
      InsertKeepsEvents(events[..k], e);
      OneMore(Insert(events[..k], e), events[k]);
      LastApart(events);
    }
  }

  ghost predicate AtMost(events: seq<Event>, n: int) {
    forall i :: 0 <= i < |events| ==> Seq(events[i]) <= n
  }

  lemma {:induction false} InsertAtMost(events: seq<Event>, e: Event, n: int)
    requires AtMost(events, n) && Seq(e) <= n
    ensures AtMost(Insert(events, e), n)
  {
    if events != [] && Seq(events[|events| - 1]) > Seq(e) {
      InsertAtMost(events[..|events| - 1], e, n);
    }
  }

  lemma {:induction false} InsertKeepsOrder(events: seq<Event>, e: Event)
    requires Ordered(events)
    ensures Ordered(Insert(events, e))
  {
    if events != [] && Seq(events[|events| - 1]) > Seq(e) {
      var k := |events| - 1;
      InsertKeepsOrder(events[..k], e);
      InsertAtMost(events[..k], e, Seq(events[k]));
    }
  }

  lemma {:induction false} SortResult(events: seq<Event>)
    ensures Ordered(SortedBySeq(events)) && multiset(SortedBySeq(events)) == multiset(events)
  {
    if events != [] {
      var k := |events| - 1;
      SortResult(events[..k]);
      InsertKeepsOrder(SortedBySeq(events[..k]), events[k]);
      InsertKeepsEvents(SortedBySeq(events[..k]), events[k]);
      LastApart(events);
    }
  }

  /** Sorting leaves an ordered list alone. */
  lemma {:induction false} SortOfOrdered(events: seq<Event>)
    requires Ordered(events)
    ensures SortedBySeq(events) == events
  {
    if events != [] {
      SortOfOrdered(events[..|events| - 1]);
      assert events == events[..|events| - 1] + [events[|events| - 1]];
    }
  }

  /** A number names one event. */
  ghost predicate SeqNamesEvent(events: seq<Event>) {
    forall e, f :: e in events && f in events && Seq(e) == Seq(f) ==> e == f
  }

  /** Two orderings of the same distinct numbers are the same. */
  lemma {:induction false} OrderIsUnique(a: seq<Event>, b: seq<Event>)
    requires Ordered(a) && Ordered(b) && multiset(a) == multiset(b) && SeqNamesEvent(a)
    ensures a == b
  {
    SameSize(a, b);
    if a != [] {
      hide Ordered, SeqNamesEvent;
      var k := |a| - 1;
      LastIsGreatest(a, b);
      DropSameLast(a, b);
      PrefixIsOrdered(a, k);
      PrefixIsOrdered(b, k);
      OrderIsUnique(a[..k], b[..k]);
      assert a == a[..k] + [a[k]] && b == b[..k] + [b[k]];
    }
  }

  lemma PrefixIsOrdered(events: seq<Event>, k: nat)
    requires k <= |events| && Ordered(events)
    ensures Ordered(events[..k]) && (SeqNamesEvent(events) ==> SeqNamesEvent(events[..k]))
  {
    assert forall e :: e in events[..k] ==> e in events;
  }

  lemma SameSize(a: seq<Event>, b: seq<Event>)
    requires multiset(a) == multiset(b)
    ensures |a| == |b| && forall x :: x in a <==> x in b
  {
    assert |a| == |multiset(a)| && |b| == |multiset(b)|;
    assert forall x :: x in a <==> x in multiset(a);
    assert forall x :: x in b <==> x in multiset(b);
  }

  lemma DropSameLast<T>(a: seq<T>, b: seq<T>)
    requires multiset(a) == multiset(b) && |a| == |b| > 0 && a[|a| - 1] == b[|b| - 1]
    ensures multiset(a[..|a| - 1]) == multiset(b[..|b| - 1])
  {
    LastApart(a);
    LastApart(b);
    Cancel(multiset(a[..|a| - 1]), multiset(b[..|b| - 1]), a[|a| - 1]);
  }

  lemma Cancel<T>(a: multiset<T>, b: multiset<T>, x: T)
    requires a + multiset{x} == b + multiset{x}
    ensures a == b
  {
    assert a == (a + multiset{x}) - multiset{x};
  }

  lemma LastIsGreatest(a: seq<Event>, b: seq<Event>)
    requires Ordered(a) && Ordered(b) && SeqNamesEvent(a) && |a| == |b| > 0
    requires forall x :: x in a <==> x in b
    ensures a[|a| - 1] == b[|b| - 1]
  {
    var k := |a| - 1;
    assert a[k] in b && b[k] in a;
    var i :| 0 <= i <= k && b[i] == a[k];
    var j :| 0 <= j <= k && a[j] == b[k];
    assert Seq(a[k]) <= Seq(b[k]) && Seq(b[k]) <= Seq(a[k]);
  }

  // ---------------------------------------------------------------------
  // Line order
  // ---------------------------------------------------------------------

  function EventOf(line: Line): multiset<Event> {
    if line.Parsed? then multiset{line.event} else multiset{}
  }

  lemma EventsSplit(lines: seq<Line>)
    requires lines != []
    ensures multiset(Events(lines)) == multiset(Events(lines[..|lines| - 1])) + EventOf(lines[|lines| - 1])
  {
    var last := lines[|lines| - 1];
    if last.Parsed? {
      OneMore(Events(lines[..|lines| - 1]), last.event);
    }
  }

  function Without<T>(s: seq<T>, i: nat): seq<T>
    requires i < |s|
  {
    s[..i] + s[i + 1..]
  }

  lemma WithoutInside<T>(s: seq<T>, i: nat)
    requires i < |s| - 1
    ensures Without(s, i) == Without(s[..|s| - 1], i) + [s[|s| - 1]]
  {
  }

  lemma {:induction false} EventsWithout(lines: seq<Line>, i: nat)
    requires i < |lines|
    ensures multiset(Events(lines)) == multiset(Events(Without(lines, i))) + EventOf(lines[i])
  {
    var k := |lines| - 1;
    EventsSplit(lines);
    if i == k {
      assert Without(lines, i) == lines[..k];
    } else {
      EventsWithout(lines[..k], i);
      WithoutInside(lines, i);
      EventsAppended(Without(lines[..k], i), lines[k]);
      Exchange(multiset(Events(Without(lines[..k], i))), EventOf(lines[i]), EventOf(lines[k]));
    }
  }

  lemma EventsAppended(lines: seq<Line>, line: Line)
    ensures multiset(Events(lines + [line])) == multiset(Events(lines)) + EventOf(line)
  {
    assert (lines + [line])[..|lines|] == lines;
    EventsSplit(lines + [line]);
  }

  lemma Exchange<T>(a: multiset<T>, b: multiset<T>, c: multiset<T>)
    ensures (a + b) + c == (a + c) + b
  {
  }

  lemma OneLess<T>(s: seq<T>, i: nat)
    requires i < |s|
    ensures multiset(s) == multiset(Without(s, i)) + multiset{s[i]}
  {
    assert s == s[..i] + [s[i]] + s[i + 1..];
  }

  /** Reordered lines hold the same events. */
  lemma {:induction false} SameLinesSameEvents(a: seq<Line>, b: seq<Line>)
    requires multiset(a) == multiset(b)
    ensures multiset(Events(a)) == multiset(Events(b))
  {
    assert |a| == |multiset(a)| && |b| == |multiset(b)|;
    if a != [] {
      var k := |a| - 1;
      LastApart(a);
      assert a[k] in multiset(b);
      var i :| 0 <= i < |b| && b[i] == a[k];
      var fewer := Without(b, i);
      OneLess(b, i);
      Cancel(multiset(a[..k]), multiset(fewer), a[k]);
      SameLinesSameEvents(a[..k], fewer);
      EventsSplit(a);
      EventsWithout(b, i);
    }
  }
}
