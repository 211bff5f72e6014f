/**
 The part of the runtime state that events rebuild.

 Models `RuntimeState` of runtime_core/state.py, cut down to the fields the control calls
 and the replay use, and `GovernanceProfile` of runtime_core/policy_engine.py.
 */
module RuntimeStates {
  import opened Results
  import opened Strings

  datatype GovernanceProfile = GovernanceProfile(
    mode: string,
    operatorAuthority: string,
    confirmMutations: bool,
    allowScopeExpansion: bool,
    rewriteBroadRequests: bool,
    allowCompoundActions: bool,
    hardDenies: set<string>)

  const STANDARD_DENIES := {"fabricate_authority", "drop_constraint", "destructive_external_ops", "secrets_exfiltration"}
  const GOVERNANCE_MODES := {"guided", "standard", "expert", "unlocked", "degraded_repair"}
  const OPERATOR_AUTHORITIES := {"user", "builder"}
  const PERMISSION_MODES := {"buddy", "task", "autonomous"}

  function Standard(authority: string): GovernanceProfile {
    GovernanceProfile("standard", authority, true, false, true, false, STANDARD_DENIES)
  }

  /** `GovernanceProfile.for_mode`; `deltas` are the known tool deltas, all denied in repair. */
  function ForMode(mode: string, authority: string, deltas: set<string>): GovernanceProfile {
    var normalized := Lower(mode);
    if normalized == "guided" then Standard(authority).(mode := "guided")
    else if normalized == "expert" then GovernanceProfile("expert", authority, false, true, false, true, STANDARD_DENIES)
    else if normalized == "unlocked" then GovernanceProfile("unlocked", authority, false, true, false, true, {"secrets_exfiltration"})
    else if normalized == "degraded_repair" then Standard("user").(mode := "degraded_repair", hardDenies := deltas)
    else Standard(authority)
  }

  datatype State = State(
    frames: seq<(string, string)>,
    tickCount: int,
    governance: GovernanceProfile,
    permissionMode: string,
    executionMode: string,
    killswitchEngaged: bool,
    killswitchReason: string,
    killswitchAt: Option<real>,
    remainingBudget: real,
    calibrations: map<string, string>)

  function Fresh(): State {
    State([], 0, Standard("user"), "task", "plan", false, "", None, 0.0, map[])
  }

  class RuntimeState {
    var frames: seq<(string, string)>
    var tickCount: int
    var governance: GovernanceProfile
    var permissionMode: string
    var executionMode: string
    var killswitchEngaged: bool
    var killswitchReason: string
    var killswitchAt: Option<real>
    var remainingBudget: real
    var calibrations: map<string, string>

    function Value(): State
      reads this
    {
      State(frames, tickCount, governance, permissionMode, executionMode,
            killswitchEngaged, killswitchReason, killswitchAt, remainingBudget, calibrations)
    }

    constructor ()
      ensures Value() == Fresh()
    {
      frames, tickCount, governance := [], 0, Standard("user");
      permissionMode, executionMode := "task", "plan";
      killswitchEngaged, killswitchReason, killswitchAt := false, "", None;
      remainingBudget, calibrations := 0.0, map[];
    }
  }
}
