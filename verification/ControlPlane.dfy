/**
 The control calls of the runtime and the gate before its state file.

 Models `_emit`, `save_state` and the control methods of runtime_core/runtime.py as
 functions of a world: the live state, the state file, the anchor and the emitted log. The
 class `Runtime` performs them in place. The hash of a payload is the payload itself.
 */
module ControlPlane {
  import opened Results
  import opened Strings
  import opened RuntimeStates
  import opened EventLogs

  /** What the state file holds when read as JSON. */
  datatype Payload = OfState(state: State) | OtherJson(text: string)

  datatype StateFile = NoFile | Garbage | Saved(payload: Payload)

  datatype Mark = Unset | Missing | Unreadable | Digest(payload: Payload)

  /** `_hash_persisted_runtime_state`. */
  function MarkOf(file: StateFile): Mark {
    match file
    case NoFile => Missing
    case Garbage => Unreadable
    case Saved(payload) => Digest(payload)
  }

  datatype World = World(state: State, file: StateFile, anchor: Mark, log: seq<Event>, seqNo: int, runId: string, cycle: int)

  datatype Call =
    | SetExecutionMode(enabled: bool)
    | SetGovernanceMode(mode: string)
    | SetOperatorAuthority(authority: string)
    | EngageKillswitch(reason: string)
    | ReleaseKillswitch
    | SetPermissionMode(mode: string, canaryOpen: bool)

  /** A call and the clock at its start and at the gate. */
  datatype Timed = Timed(call: Call, now: real, gateNow: real)

  datatype Outcome = Done | GateRejected | Invalid

  datatype Reply = Reply(world: World, outcome: Outcome)

  // ---------------------------------------------------------------------
  // Emitting and saving
  // ---------------------------------------------------------------------

  function EventFor(w: World, change: Change): Event {
    Event(Some(w.runId), Some(w.cycle), Some(w.seqNo + 1), change)
  }

  function Emitted(w: World, change: Change): World {
    w.(seqNo := w.seqNo + 1, log := w.log + [EventFor(w, change)])
  }

  /** The gate lets a save through. */
  predicate Open(w: World) {
    w.anchor.Digest? && MarkOf(w.file) == w.anchor
  }

  function Halted(s: State, reason: string, now: real): State {
    s.(killswitchEngaged := true, killswitchReason := reason, killswitchAt := Some(now), executionMode := "plan")
  }

  /** `save_state`: a save through the gate, or a halt. */
  function Gated(w: World, now: real): Reply {
    var mark := MarkOf(w.file);
    if !w.anchor.Digest? || !mark.Digest? then
      Reply(w.(state := Halted(w.state, "the_gate: unknown anchor state", now)), GateRejected)
    else if mark != w.anchor then
      Reply(w.(state := Halted(w.state, "the_gate: anchor mismatch", now)), GateRejected)
    else
      var file := Saved(OfState(w.state));
      Reply(Emitted(w.(file := file, anchor := MarkOf(file)), Other("runtime.gate_state_promoted")), Done)
  }

  /** A save, then the event of the call unless the gate rejected. */
  function GatedThenEmitted(w: World, change: Change, now: real): Reply {
    var saved := Gated(w, now);
    if saved.outcome.Done? then Reply(Emitted(saved.world, change), Done) else saved
  }

  // ---------------------------------------------------------------------
  // The control calls
  // ---------------------------------------------------------------------

  predicate Blocked(s: State) {
    s.permissionMode == "buddy" || s.killswitchEngaged
  }

  /** The execution mode that a permission mode sets. */
  function TargetMode(s: State, mode: string): string {
    if mode == "buddy" then "plan"
    else if mode == "task" then if s.killswitchEngaged then "plan" else "execute"
    else "execute"
  }

  function Permitted(s: State, mode: string): State {
    s.(permissionMode := mode, executionMode := TargetMode(s, mode),
       remainingBudget := if mode == "autonomous" then s.remainingBudget else 0.0)
  }

  /** The call is refused before it changes anything. */
  predicate IsInvalid(s: State, call: Call) {
    match call
    case SetGovernanceMode(mode) => Lower(Strip(mode)) !in GOVERNANCE_MODES
    case SetOperatorAuthority(authority) => Lower(Strip(authority)) !in OPERATOR_AUTHORITIES
    case SetPermissionMode(mode, canaryOpen) =>
      var normalized := Lower(Strip(mode));
      normalized !in PERMISSION_MODES || (normalized == "autonomous" && (s.killswitchEngaged || !canaryOpen))
    case _ => false
  }

  function Reason(given: string): string {
    var stripped := Strip(given);
    if stripped == "" then "operator_requested" else stripped
  }

  /** A halt goes through whatever the gate says. */
  function Engaged(w: World, reason: string, now: real, gateNow: real): World {
    var halted := Halted(w.state, Reason(reason), now).(remainingBudget := 0.0);
    var saved := Gated(w.(state := halted), gateNow).world;
    Emitted(saved, KillswitchEngaged(Reason(reason), saved.state.killswitchAt))
  }

  /** What a call other than a halt changes, and the event it emits. */
  function Effect(s: State, call: Call, deltas: set<string>): (State, Change)
    requires !call.EngageKillswitch?
  {
    match call
    case SetExecutionMode(enabled) =>
      if enabled && Blocked(s) then (s.(executionMode := "plan"), Other("runtime.execution_mode_blocked"))
      else
        var mode := if enabled then "execute" else "plan";
        (s.(executionMode := mode), ExecutionModeSet(Some(mode), None))
    case SetGovernanceMode(mode) =>
      var governance := ForMode(Lower(Strip(mode)), s.governance.operatorAuthority, deltas);
      (s.(governance := governance), GovernanceModeSet(governance.mode))
    case SetOperatorAuthority(authority) =>
      var normalized := Lower(Strip(authority));
      (s.(governance := s.governance.(operatorAuthority := normalized)), OperatorAuthoritySet(Some(normalized), None))
    case ReleaseKillswitch =>
      (s.(killswitchEngaged := false, killswitchReason := "", killswitchAt := None), KillswitchReleased)
    case SetPermissionMode(mode, _) => (Permitted(s, Lower(Strip(mode))), Other("runtime.permission_mode"))
  }

  function Do(w: World, timed: Timed, deltas: set<string>): Reply {
    if IsInvalid(w.state, timed.call) then Reply(w, Invalid)
    else if timed.call.EngageKillswitch? then Reply(Engaged(w, timed.call.reason, timed.now, timed.gateNow), Done)
    else
      var effect := Effect(w.state, timed.call, deltas);
      GatedThenEmitted(w.(state := effect.0), effect.1, timed.gateNow)
  }

  function Run(w: World, calls: seq<Timed>, deltas: set<string>): World
    decreases |calls|
  {
    if calls == [] then w else Run(Do(w, calls[0], deltas).world, calls[1..], deltas)
  }

  /** Some call of the run gets as far as the save. */
  predicate ReachesSave(w: World, calls: seq<Timed>, deltas: set<string>)
    decreases |calls|
  {
    && calls != []
    && (!IsInvalid(w.state, calls[0].call) || ReachesSave(Do(w, calls[0], deltas).world, calls[1..], deltas))
  }

  // ---------------------------------------------------------------------
  // In place
  // ---------------------------------------------------------------------

  class Runtime {
    const state: RuntimeState
    const deltas: set<string>
    const runId: string
    const cycle: int
    var file: StateFile
    var anchor: Mark
    var log: seq<Event>
    var seqNo: int

    ghost function Value(): World
      reads this, state
    {
      World(state.Value(), file, anchor, log, seqNo, runId, cycle)
    }

    /** A missing state file is written first, so that the anchor is known; an unreadable one is not replaced. */
    constructor (state: RuntimeState, file: StateFile, deltas: set<string>, runId: string, cycle: int)
      ensures this.state == state && this.deltas == deltas
      ensures this.file == (if file.NoFile? then Saved(OfState(state.Value())) else file)
      ensures Value() == World(state.Value(), this.file, MarkOf(this.file), [], 0, runId, cycle)
      ensures Open(Value()) <==> !file.Garbage?
    {
      this.state := state;
      this.deltas := deltas;
      this.runId := runId;
      this.cycle := cycle;
      var kept := if file.NoFile? then Saved(OfState(state.Value())) else file;
      this.file := kept;
      anchor := MarkOf(kept);
      log := [];
      seqNo := 0;
    }

    method Emit(change: Change)
      modifies this`log, this`seqNo
      ensures Value() == Emitted(old(Value()), change)
    {
      seqNo := seqNo + 1;
      log := log + [Event(Some(runId), Some(cycle), Some(seqNo), change)];
    }

    method SaveState(now: real) returns (outcome: Outcome)
      modifies this`file, this`anchor, this`log, this`seqNo, state
      ensures Reply(Value(), outcome) == Gated(old(Value()), now)
    {
      var persisted := MarkOf(file);
      if !anchor.Digest? || !persisted.Digest? {
        Halt("the_gate: unknown anchor state", now);
        return GateRejected;
      }
      if persisted != anchor {
        Halt("the_gate: anchor mismatch", now);
        return GateRejected;
      }
      file := Saved(OfState(state.Value()));
      anchor := MarkOf(file);
      Emit(Other("runtime.gate_state_promoted"));
      outcome := Done;
    }

    method Halt(reason: string, now: real)
      modifies state
      ensures state.Value() == Halted(old(state.Value()), reason, now)
    {
      state.killswitchEngaged := true;
      state.killswitchReason := reason;
      state.killswitchAt := Some(now);
      state.executionMode := "plan";
    }

    method SaveThenEmit(change: Change, now: real) returns (outcome: Outcome)
      modifies this`file, this`anchor, this`log, this`seqNo, state
      ensures Reply(Value(), outcome) == GatedThenEmitted(old(Value()), change, now)
    {
      outcome := SaveState(now);
      if outcome.Done? {
        Emit(change);
      }
    }

    method SetExecutionMode(enabled: bool, now: real, gateNow: real) returns (outcome: Outcome)
      modifies this`file, this`anchor, this`log, this`seqNo, state
      ensures Reply(Value(), outcome) == Do(old(Value()), Timed(Call.SetExecutionMode(enabled), now, gateNow), deltas)
    {
      if enabled && state.permissionMode == "buddy" {
        state.executionMode := "plan";
        outcome := SaveThenEmit(Other("runtime.execution_mode_blocked"), gateNow);
        return;
      }
      if enabled && state.killswitchEngaged {
        state.executionMode := "plan";
        outcome := SaveThenEmit(Other("runtime.execution_mode_blocked"), gateNow);
        return;
      }
      state.executionMode := if enabled then "execute" else "plan";
      outcome := SaveThenEmit(ExecutionModeSet(Some(state.executionMode), None), gateNow);
    }

    method SetGovernanceMode(mode: string, now: real, gateNow: real) returns (outcome: Outcome)
      modifies this`file, this`anchor, this`log, this`seqNo, state
      ensures Reply(Value(), outcome) == Do(old(Value()), Timed(Call.SetGovernanceMode(mode), now, gateNow), deltas)
    {
      var normalized := Lower(Strip(mode));
      if normalized !in GOVERNANCE_MODES {
        return Invalid;
      }
      state.governance := ForMode(normalized, state.governance.operatorAuthority, deltas);
      outcome := SaveThenEmit(GovernanceModeSet(state.governance.mode), gateNow);
    }

    method SetOperatorAuthority(authority: string, now: real, gateNow: real) returns (outcome: Outcome)
      modifies this`file, this`anchor, this`log, this`seqNo, state
      ensures Reply(Value(), outcome) == Do(old(Value()), Timed(Call.SetOperatorAuthority(authority), now, gateNow), deltas)
    {
      var normalized := Lower(Strip(authority));
      if normalized !in OPERATOR_AUTHORITIES {
        return Invalid;
      }
      state.governance := state.governance.(operatorAuthority := normalized);
      outcome := SaveThenEmit(OperatorAuthoritySet(Some(normalized), None), gateNow);
    }

    method EngageKillswitch(reason: string, now: real, gateNow: real)
      modifies this`file, this`anchor, this`log, this`seqNo, state
      ensures Reply(Value(), Done) == Do(old(Value()), Timed(Call.EngageKillswitch(reason), now, gateNow), deltas)
    {
      var normalized := Strip(reason);
      if normalized == "" {
        normalized := "operator_requested";
      }
      Halt(normalized, now);
      state.remainingBudget := 0.0;
      var _ := SaveState(gateNow);
      Emit(KillswitchEngaged(normalized, state.killswitchAt));
    }

    method ReleaseKillswitch(now: real, gateNow: real) returns (outcome: Outcome)
      modifies this`file, this`anchor, this`log, this`seqNo, state
      ensures Reply(Value(), outcome) == Do(old(Value()), Timed(Call.ReleaseKillswitch, now, gateNow), deltas)
    {
      state.killswitchEngaged := false;
      state.killswitchReason := "";
      state.killswitchAt := None;
      outcome := SaveThenEmit(KillswitchReleased, gateNow);
    }

    method SetPermissionMode(mode: string, canaryOpen: bool, now: real, gateNow: real) returns (outcome: Outcome)
      modifies this`file, this`anchor, this`log, this`seqNo, state
      ensures Reply(Value(), outcome) == Do(old(Value()), Timed(Call.SetPermissionMode(mode, canaryOpen), now, gateNow), deltas)
    {
      hide Lower, Strip, ForMode, GatedThenEmitted;
      var normalized := Lower(Strip(mode));
      if normalized !in PERMISSION_MODES {
        return Invalid;
      }
      if normalized == "autonomous" {
        if state.killswitchEngaged {
          return Invalid;
        }
        if !canaryOpen {
          return Invalid;
        }
      }
      state.permissionMode := normalized;
      if normalized == "buddy" {
        state.executionMode := "plan";
        state.remainingBudget := 0.0;
      } else if normalized == "task" {
        state.executionMode := if state.killswitchEngaged then "plan" else "execute";
        state.remainingBudget := 0.0;
      } else {
        state.executionMode := "execute";
      }
      outcome := SaveThenEmit(Other("runtime.permission_mode"), gateNow);
    }
  }
}
