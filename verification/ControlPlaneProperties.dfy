/** Live and replayed control state agree, and the gate never overwrites a foreign state file. */
module ControlPlaneProperties {
  import opened Results
  import opened Strings
  import opened RuntimeStates
  import opened EventLogs
  import opened Replay
  import opened ControlPlane

  // ---------------------------------------------------------------------
  // Lower-case names
  // ---------------------------------------------------------------------

  lemma LowerIsFixed(s: string)
    ensures Lower(Lower(s)) == Lower(s)
  {
    assert forall i :: 0 <= i < |s| ==> LowerChar(LowerChar(s[i])) == LowerChar(s[i]);
  }

  lemma ModeNamesAreFixed()
    ensures Lower(Strip("execute")) == "execute" && Lower(Strip("plan")) == "plan"
    ensures Lower("execute") == "execute" && Lower("plan") == "plan"
  {
    StrippedIsFixed("execute");
    StrippedIsFixed("plan");
    assert Lower("execute") == "execute";
    assert Lower("plan") == "plan";
  }

  /** A profile carries the name it was asked for, so asking for the profile by its own name gives it again. */
  lemma ProfileNamesItself(mode: string, authority: string, deltas: set<string>)
    requires Lower(mode) in GOVERNANCE_MODES
    ensures ForMode(mode, authority, deltas).mode == Lower(mode)
    ensures ForMode(ForMode(mode, authority, deltas).mode, authority, deltas) == ForMode(mode, authority, deltas)
  {
    LowerIsFixed(mode);
  }

  // ---------------------------------------------------------------------
  // The gate
  // ---------------------------------------------------------------------

  /** A save keeps the gate as it is: an open one open, a closed one closed with nothing written. */
  lemma GateKeeps(w: World, change: Change, now: real)
    ensures var r := GatedThenEmitted(w, change, now);
      && (Open(w) <==> r.outcome.Done?) && (Open(w) <==> Open(r.world))
      && (Open(w) ==>
            && r.world.state == w.state && r.world.file == Saved(OfState(w.state))
            && r.world.log == w.log + [EventFor(w, Other("runtime.gate_state_promoted")), EventFor(w.(seqNo := w.seqNo + 1), change)]
            && r.world == w.(file := r.world.file, anchor := r.world.anchor, log := r.world.log, seqNo := w.seqNo + 2))
      && (!Open(w) ==>
            && r.world == w.(state := r.world.state)
            && r.world.state.killswitchEngaged && r.world.state.executionMode == "plan")
  {
  }

  /** While only the runtime writes the state file, no call is rejected, and after each valid call the file holds the live state. */
  lemma OpenGateStaysOpen(w: World, timed: Timed, deltas: set<string>)
    requires Open(w)
    ensures var r := Do(w, timed, deltas);
      && Open(r.world) && !r.outcome.GateRejected?
      && (r.outcome.Invalid? <==> IsInvalid(w.state, timed.call)) && (r.outcome.Invalid? ==> r.world == w)
      && (r.outcome.Done? ==> r.world.file == Saved(OfState(r.world.state)))
  {
    if !IsInvalid(w.state, timed.call) && !timed.call.EngageKillswitch? {
      var effect := Effect(w.state, timed.call, deltas);
      GateKeeps(w.(state := effect.0), effect.1, timed.gateNow);
    }
  }

  /** In no call of the run the gate rejects the save. */
  predicate NoneRejected(w: World, calls: seq<Timed>, deltas: set<string>)
    decreases |calls|
  {
    calls != [] ==>
      && !Do(w, calls[0], deltas).outcome.GateRejected?
      && NoneRejected(Do(w, calls[0], deltas).world, calls[1..], deltas)
  }

  /** While only the runtime writes the state file, no sequence of control calls meets a closed gate. */
  lemma {:induction false} OpenGateNeverRejects(w: World, calls: seq<Timed>, deltas: set<string>)
    requires Open(w)
    ensures NoneRejected(w, calls, deltas) && Open(Run(w, calls, deltas))
    ensures ReachesSave(w, calls, deltas) ==> Run(w, calls, deltas).file == Saved(OfState(Run(w, calls, deltas).state))
    decreases |calls|
  {
    if calls != [] {
      OpenGateStaysOpen(w, calls[0], deltas);
      var next := Do(w, calls[0], deltas).world;
      OpenGateNeverRejects(next, calls[1..], deltas);
      if !ReachesSave(next, calls[1..], deltas) {
        NothingReached(next, calls[1..], deltas);
      }
    }
  }

  lemma {:induction false} NothingReached(w: World, calls: seq<Timed>, deltas: set<string>)
    requires !ReachesSave(w, calls, deltas)
    ensures Run(w, calls, deltas) == w
    decreases |calls|
  {
    if calls != [] {
      NothingReached(Do(w, calls[0], deltas).world, calls[1..], deltas);
    }
  }

  predicate HaltedInPlan(s: State) {
    s.killswitchEngaged && s.executionMode == "plan"
  }

  lemma ClosedGateStaysClosed(w: World, timed: Timed, deltas: set<string>)
    requires !Open(w)
    ensures var r := Do(w, timed, deltas);
      && r.world.file == w.file && r.world.anchor == w.anchor
      && (if IsInvalid(w.state, timed.call) then r.world == w else HaltedInPlan(r.world.state))
      && (r.outcome.Done? <==> timed.call.EngageKillswitch?)
  {
    if !IsInvalid(w.state, timed.call) && !timed.call.EngageKillswitch? {
      var effect := Effect(w.state, timed.call, deltas);
      GateKeeps(w.(state := effect.0), effect.1, timed.gateNow);
    }
  }

  /**
   Once the state file differs from the anchor, or either is missing or unreadable, no
   sequence of control calls writes the file, and the runtime is halted in plan mode from
   the first call that reaches the save.
   */
  lemma {:induction false} ClosedGateNeverWrites(w: World, calls: seq<Timed>, deltas: set<string>)
    requires !Open(w)
    ensures var end := Run(w, calls, deltas);
      && end.file == w.file && end.anchor == w.anchor
      && (ReachesSave(w, calls, deltas) ==> HaltedInPlan(end.state))
    decreases |calls|
  {
    if calls != [] {
      ClosedGateStaysClosed(w, calls[0], deltas);
      var next := Do(w, calls[0], deltas).world;
      ClosedGateNeverWrites(next, calls[1..], deltas);
      if !ReachesSave(next, calls[1..], deltas) {
        NothingReached(next, calls[1..], deltas);
      }
    }
  }

  /** A file that anyone else wrote after the anchor was taken is never overwritten unless it reads the same. */
  lemma ForeignFileSurvives(w: World, before: seq<Timed>, file: StateFile, after: seq<Timed>, deltas: set<string>)
    requires Open(w)
    ensures var written := Run(w, before, deltas).(file := file);
      && (Open(written) <==> MarkOf(file) == MarkOf(Run(w, before, deltas).file))
      && (!Open(written) ==> Run(written, after, deltas).file == file)
      && (!Open(written) && ReachesSave(written, after, deltas) ==> HaltedInPlan(Run(written, after, deltas).state))
  {
    OpenGateNeverRejects(w, before, deltas);
    var written := Run(w, before, deltas).(file := file);
    if !Open(written) {
      ClosedGateNeverWrites(written, after, deltas);
    }
  }

  // ---------------------------------------------------------------------
  // Parity
  // ---------------------------------------------------------------------

  /** The events that `after` logged beyond `before`. */
  function NewEvents(before: World, after: World): seq<Event>
    requires before.log <= after.log
  {
    after.log[|before.log|..]
  }

  /** Folding the new events over the old live state gives the new live state. */
  ghost predicate Mirrored(before: World, after: World, deltas: set<string>) {
    before.log <= after.log && Fold(before.state, NewEvents(before, after), deltas) == after.state
  }

  lemma FoldTwo(s: State, e: Event, f: Event, deltas: set<string>)
    ensures Fold(s, [e, f], deltas) == Applied(Applied(s, e.change, deltas), f.change, deltas)
  {
    FoldConcat(s, [e], [f], deltas);
    assert [e] + [f] == [e, f] && [e][..0] == [];
    assert forall t: State, g: Event :: Fold(t, [g], deltas) == Applied(Fold(t, [g][..0], deltas), g.change, deltas);
  }

  /** What an open gate lets through is mirrored when the event has the effect of the call. */
  lemma SavedIsMirrored(w: World, changed: World, change: Change, now: real, deltas: set<string>)
    requires Open(w) && changed == w.(state := changed.state)
    ensures Mirrored(w, GatedThenEmitted(changed, change, now).world, deltas) <==> Applied(w.state, change, deltas) == changed.state
  {
    GateKeeps(changed, change, now);
    var after := GatedThenEmitted(changed, change, now).world;
    var e, f := EventFor(w, Other("runtime.gate_state_promoted")), EventFor(w.(seqNo := w.seqNo + 1), change);
    assert NewEvents(w, after) == [e, f];
    FoldTwo(w.state, e, f, deltas);
  }

  /** The event of a control call has the effect of the call, but for an execution request that is blocked out of execute mode. */
  lemma ExecutionCallMirrors(w: World, enabled: bool, timed: Timed, deltas: set<string>)
    requires Open(w) && timed.call == SetExecutionMode(enabled)
    ensures Mirrored(w, Do(w, timed, deltas).world, deltas)
      <==> !(enabled && Blocked(w.state) && w.state.executionMode != "plan")
  {
    hide Lower, Strip, ForMode;
    ModeNamesAreFixed();
    var s := w.state;
    if enabled && Blocked(s) {
      SavedIsMirrored(w, w.(state := s.(executionMode := "plan")), Other("runtime.execution_mode_blocked"), timed.gateNow, deltas);
    } else {
      var mode := if enabled then "execute" else "plan";
      SavedIsMirrored(w, w.(state := s.(executionMode := mode)), ExecutionModeSet(Some(mode), None), timed.gateNow, deltas);
    }
  }

  lemma GovernanceCallMirrors(w: World, mode: string, timed: Timed, deltas: set<string>)
    requires Open(w) && timed.call == SetGovernanceMode(mode) && !IsInvalid(w.state, timed.call)
    ensures Mirrored(w, Do(w, timed, deltas).world, deltas)
  {
    var s := w.state;
    var normalized := Lower(Strip(mode));
    LowerIsFixed(Strip(mode));
    ProfileNamesItself(normalized, s.governance.operatorAuthority, deltas);
    var governance := ForMode(normalized, s.governance.operatorAuthority, deltas);
    SavedIsMirrored(w, w.(state := s.(governance := governance)), GovernanceModeSet(governance.mode), timed.gateNow, deltas);
  }

  lemma EngageMirrors(w: World, reason: string, timed: Timed, deltas: set<string>)
    requires Open(w) && timed.call == EngageKillswitch(reason)
    ensures Mirrored(w, Do(w, timed, deltas).world, deltas)
  {
    hide Lower, Strip, ForMode;
    var halted := Halted(w.state, Reason(reason), timed.now).(remainingBudget := 0.0);
    SavedIsMirrored(w, w.(state := halted), KillswitchEngaged(Reason(reason), Some(timed.now)), timed.gateNow, deltas);
  }

  lemma ReleaseMirrors(w: World, timed: Timed, deltas: set<string>)
    requires Open(w) && timed.call == ReleaseKillswitch
    ensures Mirrored(w, Do(w, timed, deltas).world, deltas)
  {
    var released := w.state.(killswitchEngaged := false, killswitchReason := "", killswitchAt := None);
    SavedIsMirrored(w, w.(state := released), KillswitchReleased, timed.gateNow, deltas);
  }

  lemma AuthorityCallMirrors(w: World, authority: string, timed: Timed, deltas: set<string>)
    requires Open(w) && timed.call == SetOperatorAuthority(authority) && !IsInvalid(w.state, timed.call)
    ensures Mirrored(w, Do(w, timed, deltas).world, deltas)
  {
    var normalized := Lower(Strip(authority));
    var changed := w.state.(governance := w.state.governance.(operatorAuthority := normalized));
    SavedIsMirrored(w, w.(state := changed), OperatorAuthoritySet(Some(normalized), None), timed.gateNow, deltas);
  }

  /** The events of a permission call say nothing to the replay: they mirror it only when it changes nothing. */
  lemma PermissionCallMirrors(w: World, mode: string, canaryOpen: bool, timed: Timed, deltas: set<string>)
    requires Open(w) && timed.call == SetPermissionMode(mode, canaryOpen) && !IsInvalid(w.state, timed.call)
    ensures var normalized := Lower(Strip(mode));
      Mirrored(w, Do(w, timed, deltas).world, deltas) <==>
        && w.state.permissionMode == normalized && w.state.executionMode == TargetMode(w.state, normalized)
        && (normalized == "autonomous" || w.state.remainingBudget == 0.0)
  {
    hide Lower, Strip, ForMode;
    var normalized := Lower(Strip(mode));
    SavedIsMirrored(w, w.(state := Permitted(w.state, normalized)), Other("runtime.permission_mode"), timed.gateNow, deltas);
  }

  /** The one control call whose events do not tell its effect, short of permission changes. */
  predicate Untold(s: State, call: Call) {
    call.SetExecutionMode? && call.enabled && Blocked(s) && s.executionMode != "plan"
  }

  /** Behind an open gate, a control call is mirrored by its events exactly when it is not such a call. */
  lemma CallIsMirroredExactly(w: World, timed: Timed, deltas: set<string>)
    requires Open(w) && !timed.call.SetPermissionMode?
    ensures Mirrored(w, Do(w, timed, deltas).world, deltas) <==> !Untold(w.state, timed.call)
  {
    if IsInvalid(w.state, timed.call) {
      assert w.log[|w.log|..] == [];
    } else {
      match timed.call
      case SetExecutionMode(enabled) => ExecutionCallMirrors(w, enabled, timed, deltas);
      case SetGovernanceMode(mode) => GovernanceCallMirrors(w, mode, timed, deltas);
      case SetOperatorAuthority(authority) => AuthorityCallMirrors(w, authority, timed, deltas);
      case EngageKillswitch(reason) => EngageMirrors(w, reason, timed, deltas);
      case ReleaseKillswitch => ReleaseMirrors(w, timed, deltas);
    }
  }

  /** A halt that leaves execute mode on, as a non-repairable fault does, lets the next execution request go untold. */
  lemma HaltOutsidePlanIsUntold(w: World, now: real, gateNow: real, deltas: set<string>)
    requires Open(w) && w.state.killswitchEngaged && w.state.executionMode == "execute"
    ensures !Mirrored(w, Do(w, Timed(SetExecutionMode(true), now, gateNow), deltas).world, deltas)
  {
    CallIsMirroredExactly(w, Timed(SetExecutionMode(true), now, gateNow), deltas);
  }

  /** A blocked runtime is in plan mode. */
  predicate BlockedMeansPlan(s: State) {
    Blocked(s) ==> s.executionMode == "plan"
  }

  lemma CallKeepsPlan(w: World, timed: Timed, deltas: set<string>)
    requires Open(w) && BlockedMeansPlan(w.state)
    ensures BlockedMeansPlan(Do(w, timed, deltas).world.state)
  {
    hide Lower, Strip, ForMode;
  }

  ghost predicate NoPermissionCalls(calls: seq<Timed>) {
    forall i :: 0 <= i < |calls| ==> !calls[i].call.SetPermissionMode?
  }

  lemma MirrorsCompose(a: World, b: World, c: World, deltas: set<string>)
    requires Mirrored(a, b, deltas) && Mirrored(b, c, deltas)
    ensures Mirrored(a, c, deltas)
  {
    FoldConcat(a.state, NewEvents(a, b), NewEvents(b, c), deltas);
    assert NewEvents(a, c) == NewEvents(a, b) + NewEvents(b, c);
  }

  /** From a state where blocked means plan, the events of any run of control calls rebuild the live state. */
  lemma {:induction false} RunIsMirrored(w: World, calls: seq<Timed>, deltas: set<string>)
    requires Open(w) && BlockedMeansPlan(w.state) && NoPermissionCalls(calls)
    ensures Mirrored(w, Run(w, calls, deltas), deltas)
    decreases |calls|
  {
    if calls == [] {
      assert w.log[|w.log|..] == [];
    } else {
      var next := Do(w, calls[0], deltas).world;
      CallIsMirroredExactly(w, calls[0], deltas);
      CallKeepsPlan(w, calls[0], deltas);
      OpenGateStaysOpen(w, calls[0], deltas);
      RunIsMirrored(next, calls[1..], deltas);
      MirrorsCompose(w, next, Run(next, calls[1..], deltas), deltas);
    }
  }

  // ---------------------------------------------------------------------
  // From the log file
  // ---------------------------------------------------------------------

  /** A runtime numbers its events from 1. */
  ghost predicate Numbered(w: World) {
    w.seqNo == |w.log| && forall i :: 0 <= i < |w.log| ==> w.log[i].number == Some(i + 1)
  }

  lemma EmittedKeepsNumbers(w: World, change: Change)
    requires Numbered(w)
    ensures Numbered(Emitted(w, change))
  {
  }

  lemma SaveKeepsNumbers(w: World, now: real)
    requires Numbered(w)
    ensures Numbered(Gated(w, now).world)
  {
    if Open(w) {
      var file := Saved(OfState(w.state));
      EmittedKeepsNumbers(w.(file := file, anchor := MarkOf(file)), Other("runtime.gate_state_promoted"));
    }
  }

  lemma CallKeepsNumbers(w: World, timed: Timed, deltas: set<string>)
    requires Numbered(w)
    ensures Numbered(Do(w, timed, deltas).world)
  {
    if !IsInvalid(w.state, timed.call) {
      if timed.call.EngageKillswitch? {
        var reason := timed.call.reason;
        var halted := w.(state := Halted(w.state, Reason(reason), timed.now).(remainingBudget := 0.0));
        SaveKeepsNumbers(halted, timed.gateNow);
        var saved := Gated(halted, timed.gateNow).world;
        EmittedKeepsNumbers(saved, KillswitchEngaged(Reason(reason), saved.state.killswitchAt));
      } else {
        var effect := Effect(w.state, timed.call, deltas);
        var changed := w.(state := effect.0);
        SaveKeepsNumbers(changed, timed.gateNow);
        if Open(changed) {
          EmittedKeepsNumbers(Gated(changed, timed.gateNow).world, effect.1);
        }
      }
    }
  }

  lemma {:induction false} RunKeepsNumbers(w: World, calls: seq<Timed>, deltas: set<string>)
    requires Numbered(w)
    ensures Numbered(Run(w, calls, deltas))
    decreases |calls|
  {
    if calls != [] {
      CallKeepsNumbers(w, calls[0], deltas);
      RunKeepsNumbers(Do(w, calls[0], deltas).world, calls[1..], deltas);
    }
  }

  /** The lines of a log file. */
  function LinesOf(events: seq<Event>): seq<Line> {
    seq(|events|, i requires 0 <= i < |events| => Parsed(events[i]))
  }

  lemma {:induction false} EventsOfLines(events: seq<Event>)
    ensures Events(LinesOf(events)) == events
  {
    if events != [] {
      var k := |events| - 1;
      EventsOfLines(events[..k]);
      assert LinesOf(events)[..k] == LinesOf(events[..k]);
    }
  }

  /**
   The whole way round: after any run of control calls by a fresh runtime, replaying its log
   file, its lines in any order, gives the live state.
   */
  lemma {:induction false} ReplayRebuildsTheLiveState(w: World, calls: seq<Timed>, lines: seq<Line>, deltas: set<string>)
    requires Open(w) && w.state == Fresh() && w.log == [] && w.seqNo == 0 && NoPermissionCalls(calls)
    requires multiset(lines) == multiset(LinesOf(Run(w, calls, deltas).log))
    ensures Fold(Fresh(), Loaded(lines), deltas) == Run(w, calls, deltas).state
  {
    var end := Run(w, calls, deltas);
    RunIsMirrored(w, calls, deltas);
    RunKeepsNumbers(w, calls, deltas);
    assert NewEvents(w, end) == end.log;
    EventsOfLines(end.log);
    assert SeqNamesEvent(end.log);
    SortOfOrdered(end.log);
    ReplayIgnoresLineOrder(LinesOf(end.log), lines);
  }
}
