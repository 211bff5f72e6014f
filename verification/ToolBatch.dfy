/**
 Running a batch of tools, all or nothing.

 Models `_bind_tool_batch`, `_batch_execution_errors` and `_rollback_executed_tools` of
 runtime_core/runtime.py. A tool is a list of sandbox operations and a verdict: it stops at
 the first operation that fails, and it may fail, or be rejected by the gate, after any.
 */
module ToolBatch {
  import opened Results
  import opened Sequences
  import opened Strings
  import opened SandboxModel
  import opened SandboxProperties
  import opened StateSandboxes
  import opened PrecommitBarriers

  const SNAPSHOT_COST := 2.0

  datatype Safety = ReadOnly | Reversible | Irreversible

  datatype ToolSpec = ToolSpec(mutates: bool, safety: Safety, hasRollback: bool)

  /** How the execution of a tool ends when none of its operations fails. */
  datatype Ending = Completes | Raises | GateRejectsBefore | GateRejectsAfter

  datatype ToolPlan = ToolPlan(
    name: string,
    allowed: bool,
    nuke: bool,
    spec: Option<ToolSpec>,
    argumentsValid: bool,
    script: seq<Op>,
    ending: Ending,
    engagesKillswitch: bool,
    undo: seq<Op>)

  datatype Phase =
    | Done | Killswitched | PolicyBlock | PlanOnly | BatchBlocked | ValidationFailed
    | PrecommitRejected | ExecutionFailed | GateRejected | BatchRolledBack

  datatype ToolResult = ToolResult(name: string, ok: bool, phase: Phase, rolledBack: bool)

  datatype BatchOutcome = Results(results: seq<ToolResult>) | Raised(error: Error)

  // ---------------------------------------------------------------------
  // The effect of running and undoing tools
  // ---------------------------------------------------------------------

  /** The operations of a script that are attempted: those up to and including the first that fails. */
  function Effective(s: State, ops: seq<Op>): seq<Op>
    decreases |ops|
  {
    if ops == [] then []
    else [ops[0]] + if Apply(s, ops[0]).Failure? then [] else Effective(Next(s, ops[0]), ops[1..])
  }

  predicate RunsThrough(s: State, ops: seq<Op>)
    decreases |ops|
  {
    ops != [] ==> Apply(s, ops[0]).Success? && RunsThrough(Next(s, ops[0]), ops[1..])
  }

  /** The operations a tool performs. */
  function Performed(s: State, plan: ToolPlan, killswitched: bool): seq<Op> {
    if killswitched || plan.ending.GateRejectsBefore? then [] else Effective(s, plan.script)
  }

  function ResultOf(s: State, plan: ToolPlan, killswitched: bool): ToolResult {
    var phase :=
      if killswitched then Killswitched
      else if plan.ending.GateRejectsBefore? then GateRejected
      else if !RunsThrough(s, plan.script) || plan.ending.Raises? then ExecutionFailed
      else if plan.ending.GateRejectsAfter? then GateRejected
      else Done;
    ToolResult(plan.name, phase.Done?, phase, false)
  }

  predicate Undoable(plan: ToolPlan) {
    plan.spec.Some? && plan.spec.value.safety.Reversible? && plan.spec.value.hasRollback
  }

  /** How many tools succeed before one fails or the batch ends. */
  function Succeeding(s: State, plans: seq<ToolPlan>, killswitched: bool): (n: nat)
    ensures n <= |plans|
    decreases |plans|
  {
    if plans == [] || !ResultOf(s, plans[0], killswitched).ok then 0
    else 1 + Succeeding(AfterTool(s, plans[0], killswitched), plans[1..], killswitched || plans[0].engagesKillswitch)
  }

  function AfterTool(s: State, plan: ToolPlan, killswitched: bool): State {
    Run(s, Performed(s, plan, killswitched))
  }

  /** Everything the tools of the batch do, up to and including the first that fails. */
  function ToolsTrace(s: State, plans: seq<ToolPlan>, killswitched: bool): seq<Op>
    decreases |plans|
  {
    if plans == [] then []
    else
      Performed(s, plans[0], killswitched)
      + if !ResultOf(s, plans[0], killswitched).ok then []
        else ToolsTrace(AfterTool(s, plans[0], killswitched), plans[1..], killswitched || plans[0].engagesKillswitch)
  }

  /** Everything the best-effort rollback does, last tool first. */
  function UndoTrace(s: State, executed: seq<ToolPlan>): seq<Op>
    decreases |executed|
  {
    if executed == [] then []
    else
      var last := executed[|executed| - 1];
      var ops := if Undoable(last) then Effective(s, last.undo) else [];
      ops + UndoTrace(Run(s, ops), executed[..|executed| - 1])
  }

  /** The sandbox when the snapshot is about to be restored. */
  function BeforeRestore(s: State, plans: seq<ToolPlan>, killswitched: bool): State {
    var failed := Run(s, ToolsTrace(s, plans, killswitched));
    Run(failed, UndoTrace(failed, plans[..Succeeding(s, plans, killswitched)]))
  }

  function Names(plans: seq<ToolPlan>): seq<string> {
    seq(|plans|, i requires 0 <= i < |plans| => plans[i].name)
  }

  predicate OneResultPerPlan(results: seq<ToolResult>, plans: seq<ToolPlan>) {
    |results| == |plans| && forall i :: 0 <= i < |plans| ==> results[i].name == plans[i].name
  }

  predicate Mutating(plans: seq<ToolPlan>) {
    exists i :: 0 <= i < |plans| && plans[i].spec.Some? && plans[i].spec.value.mutates
  }

  // ---------------------------------------------------------------------
  // What tools can cost
  // ---------------------------------------------------------------------

  /** The most that an operation takes from the file budget. */
  function FileCost(op: Op): (cost: real)
    ensures cost >= 0.0
  {
    match op
    case WriteFile(_, _, cost) => if cost < 0.0 then 0.0 else cost
    case RollbackWriteFile(_, _, _, cost) => if cost < 0.0 then 0.0 else cost
    case DeleteFile(_, cost) => if cost < 0.0 then 0.0 else cost
    case RollbackDeleteFile(_, _, cost) => if cost < 0.0 then 0.0 else cost
    case TakeSnapshot(cost) => if cost < 0.0 then 0.0 else cost
    case RestoreSnapshot(_, cost) => if cost < 0.0 then 0.0 else cost
    case _ => 0.0
  }

  function FileCosts(ops: seq<Op>): (cost: real)
    ensures cost >= 0.0
  {
    if ops == [] then 0.0 else FileCost(ops[0]) + FileCosts(ops[1..])
  }

  function ScriptCosts(plans: seq<ToolPlan>): (cost: real)
    ensures cost >= 0.0
  {
    if plans == [] then 0.0 else FileCosts(plans[0].script) + ScriptCosts(plans[1..])
  }

  function UndoCosts(plans: seq<ToolPlan>): (cost: real)
    ensures cost >= 0.0
  {
    if plans == [] then 0.0 else UndoCosts(plans[..|plans| - 1]) + FileCosts(plans[|plans| - 1].undo)
  }

  /** The most that the tools of a batch, and their undoing, take from the file budget. */
  function BatchCost(plans: seq<ToolPlan>): real {
    ScriptCosts(plans) + UndoCosts(plans)
  }

  lemma StepLeaves(s: State, op: Op, amount: real)
    requires amount >= 0.0 && AffordsFileWrites(s, amount + FileCost(op))
    ensures AffordsFileWrites(Next(s, op), amount)
  {
  }

  lemma {:induction false} RunLeaves(s: State, ops: seq<Op>, amount: real)
    requires amount >= 0.0 && AffordsFileWrites(s, amount + FileCosts(ops))
    ensures AffordsFileWrites(Run(s, ops), amount)
    decreases |ops|
  {
    if ops != [] {
      StepLeaves(s, ops[0], amount + FileCosts(ops[1..]));
      RunLeaves(Next(s, ops[0]), ops[1..], amount);
    }
  }

  lemma {:induction false} EffectiveCostsLess(s: State, ops: seq<Op>)
    ensures FileCosts(Effective(s, ops)) <= FileCosts(ops)
    decreases |ops|
  {
    if ops != [] {
      if Apply(s, ops[0]).Success? {
        EffectiveCostsLess(Next(s, ops[0]), ops[1..]);
        assert Effective(s, ops)[1..] == Effective(Next(s, ops[0]), ops[1..]);
      } else {
        assert Effective(s, ops)[1..] == [];
      }
    }
  }

  lemma {:induction false} CostsAdd(a: seq<Op>, b: seq<Op>)
    ensures FileCosts(a + b) == FileCosts(a) + FileCosts(b)
  {
    if a == [] {
      assert a + b == b;
    } else {
      assert (a + b)[1..] == a[1..] + b;
      CostsAdd(a[1..], b);
    }
  }

  lemma {:induction false} RunConcat(s: State, a: seq<Op>, b: seq<Op>)
    ensures Run(s, a + b) == Run(Run(s, a), b)
    decreases |a|
  {
    if a == [] {
      assert a + b == b;
    } else {
      assert (a + b)[1..] == a[1..] + b;
      RunConcat(Next(s, a[0]), a[1..], b);
    }
  }

  lemma {:induction false} ToolsCostAtMost(s: State, plans: seq<ToolPlan>, killswitched: bool)
    ensures FileCosts(ToolsTrace(s, plans, killswitched)) <= ScriptCosts(plans)
    decreases |plans|
  {
    if plans != [] {
      var performed := Performed(s, plans[0], killswitched);
      EffectiveCostsLess(s, plans[0].script);
      if ResultOf(s, plans[0], killswitched).ok {
        var ks := killswitched || plans[0].engagesKillswitch;
        var rest := ToolsTrace(AfterTool(s, plans[0], killswitched), plans[1..], ks);
        ToolsCostAtMost(AfterTool(s, plans[0], killswitched), plans[1..], ks);
        CostsAdd(performed, rest);
      } else {
        assert ToolsTrace(s, plans, killswitched) == performed;
      }
    }
  }

  lemma {:induction false} UndoCostsAtMost(s: State, executed: seq<ToolPlan>)
    ensures FileCosts(UndoTrace(s, executed)) <= UndoCosts(executed)
    decreases |executed|
  {
    if executed != [] {
      var last := executed[|executed| - 1];
      var ops := if Undoable(last) then Effective(s, last.undo) else [];
      EffectiveCostsLess(s, last.undo);
      UndoCostsAtMost(Run(s, ops), executed[..|executed| - 1]);
      CostsAdd(ops, UndoTrace(Run(s, ops), executed[..|executed| - 1]));
    }
  }

  lemma {:induction false} UndoCostsOfPart(plans: seq<ToolPlan>, n: nat)
    requires n <= |plans|
    ensures UndoCosts(plans[..n]) <= UndoCosts(plans)
  {
    if n == |plans| {
      assert plans[..n] == plans;
    } else {
      assert plans[..|plans| - 1][..n] == plans[..n];
      UndoCostsOfPart(plans[..|plans| - 1], n);
    }
  }

  /** A budget that covers every tool, snapshot and restore leaves enough for the restore. */
  lemma EnoughForRestore(s: State, plans: seq<ToolPlan>, killswitched: bool, amount: real)
    requires amount >= 0.0 && AffordsFileWrites(s, amount + BatchCost(plans))
    ensures AffordsFileWrites(BeforeRestore(s, plans, killswitched), amount)
  {
    var trace := ToolsTrace(s, plans, killswitched);
    var failed, n := Run(s, trace), Succeeding(s, plans, killswitched);
    ToolsCostAtMost(s, plans, killswitched);
    var left := amount + UndoCosts(plans);
    assert AffordsFileWrites(s, left + FileCosts(trace));
    RunLeaves(s, trace, left);
    UndoCostsOfPart(plans, n);
    UndoCostsAtMost(failed, plans[..n]);
    assert AffordsFileWrites(failed, amount + FileCosts(UndoTrace(failed, plans[..n])));
    RunLeaves(failed, UndoTrace(failed, plans[..n]), amount);
  }

  /** What the precommit reserves, one per tool and the snapshot, may not cover the restore. */
  lemma PrecommitReserveIsTooSmall()
    ensures var plan := ToolPlan("write", true, false, Some(ToolSpec(true, Reversible, false)), true,
                                 [WriteFile("a", "x", 1.0)], Raises, false, []);
      var s := State(EMPTY_MEMORY, map[], {}, None, map[], 0, Some(Budget(Unlimited, Unlimited, Limited(3.0))));
      var taken := Next(s, TakeSnapshot(SNAPSHOT_COST));
      && RefusalOf(ExecutionPlan(["write"], 1.0, Allow), false, SNAPSHOT_COST, Limited(3.0)).None?
      && Succeeding(taken, [plan], false) == 0
      && !AffordsFileWrites(BeforeRestore(taken, [plan], false), SNAPSHOT_COST)
  {
    var script := [WriteFile("a", "x", 1.0)];
    var plan := ToolPlan("write", true, false, Some(ToolSpec(true, Reversible, false)), true, script, Raises, false, []);
    var s := State(EMPTY_MEMORY, map[], {}, None, map[], 0, Some(Budget(Unlimited, Unlimited, Limited(3.0))));
    var taken := Next(s, TakeSnapshot(SNAPSHOT_COST));
    assert taken.budget.value.fileWrites == Limited(1.0);
    PathA();
    var written := Next(taken, script[0]);
    assert written.budget.value.fileWrites == Limited(0.0);
    assert script[1..] == [] && Effective(taken, script) == script;
    assert ToolsTrace(taken, [plan], false) == script;
    assert Run(taken, script) == Run(written, []) == written;
    assert [plan][..0] == [];
  }

  lemma PathA()
    ensures ParsePath("a") == Some("a")
  {
    assert Slashes("a") == "a";
    assert "a"[1..] == "";
    assert SplitOn("", '/') == [""];
    assert "a"[0] == 'a' && ['a'] + "" == "a" && [""][1..] == [];
    assert SplitOn("a", '/') == ["a"];
    assert Strip("a") == "a";
  }

  // ---------------------------------------------------------------------
  // The batch executor
  // ---------------------------------------------------------------------

  /** The same result for every plan, in plan order. */
  function ForEach(plans: seq<ToolPlan>, phase: Phase): (results: seq<ToolResult>)
    ensures OneResultPerPlan(results, plans)
  {
    seq(|plans|, i requires 0 <= i < |plans| => ToolResult(plans[i].name, false, phase, false))
  }

  /** `_batch_execution_errors`: an irreversible tool runs alone, and invalid arguments stop the batch. */
  function BatchErrors(plans: seq<ToolPlan>): (results: seq<ToolResult>)
    ensures results == [] || OneResultPerPlan(results, plans)
  {
    if |plans| > 1 && exists i :: 0 <= i < |plans| && plans[i].spec.Some? && plans[i].spec.value.safety.Irreversible? then
      ForEach(plans, BatchBlocked)
    else if exists i :: 0 <= i < |plans| && !plans[i].argumentsValid then
      seq(|plans|, i requires 0 <= i < |plans| =>
        ToolResult(plans[i].name, false, if plans[i].argumentsValid then BatchBlocked else ValidationFailed, false))
    else []
  }

  class BatchRuntime {
    const sandbox: StateSandbox
    const barrier: PrecommitBarrier
    var killswitched: bool
    var executing: bool

    constructor (sandbox: StateSandbox, barrier: PrecommitBarrier)
      ensures this.sandbox == sandbox && this.barrier == barrier && !killswitched && !executing
    {
      this.sandbox, this.barrier := sandbox, barrier;
      killswitched, executing := false, false;
    }

    /** Performs operations up to the first that fails. */
    method Perform(ops: seq<Op>) returns (ok: bool)
      modifies sandbox
      ensures ok <==> RunsThrough(old(sandbox.View()), ops)
      ensures sandbox.View() == Run(old(sandbox.View()), Effective(old(sandbox.View()), ops))
    {
      ghost var s0 := sandbox.View();
      for i := 0 to |ops|
        invariant OpsUnderWay(s0, ops, i, sandbox.View())
      {
        OpStep(s0, ops, i, sandbox.View());
        ok := sandbox.Perform(ops[i]);
        if !ok {
          return;
        }
      }
      OpsAllDone(s0, ops, sandbox.View());
      ok := true;
    }

    /** `_bind_tool_execution`, as far as the sandbox and the killswitch are concerned. */
    method ExecuteTool(plan: ToolPlan) returns (result: ToolResult)
      modifies sandbox, this`killswitched
      ensures result == ResultOf(old(sandbox.View()), plan, old(killswitched))
      ensures sandbox.View() == AfterTool(old(sandbox.View()), plan, old(killswitched))
      ensures result.ok ==> killswitched == (old(killswitched) || plan.engagesKillswitch)
    {
      if killswitched {
        return ToolResult(plan.name, false, Killswitched, false);
      }
      killswitched := plan.engagesKillswitch;
      if plan.ending.GateRejectsBefore? {
        return ToolResult(plan.name, false, GateRejected, false);
      }
      var ok := Perform(plan.script);
      if !ok || plan.ending.Raises? {
        return ToolResult(plan.name, false, ExecutionFailed, false);
      }
      if plan.ending.GateRejectsAfter? {
        return ToolResult(plan.name, false, GateRejected, false);
      }
      return ToolResult(plan.name, true, Done, false);
    }

    /** One round of the execution loop. */
    method ExecuteNext(plans: seq<ToolPlan>, i: nat, ghost s0: State, ghost ks0: bool, ghost done: seq<Op>)
      returns (result: ToolResult, ghost more: seq<Op>)
      requires i < |plans| && ToolsUnderWay(s0, ks0, plans, i, done, sandbox.View(), killswitched)
      modifies sandbox, this`killswitched
      ensures result.name == plans[i].name
      ensures result.ok ==> ToolsUnderWay(s0, ks0, plans, i + 1, more, sandbox.View(), killswitched)
      ensures !result.ok ==> ToolsEnded(s0, ks0, plans, i, sandbox.View())
    {
      ToolStep(s0, ks0, plans, i, done, sandbox.View(), killswitched);
      more := done + Performed(sandbox.View(), plans[i], killswitched);
      result := ExecuteTool(plans[i]);
    }

    /** The execution loop: one result per tool up to and including the first that fails. */
    method ExecuteTools(plans: seq<ToolPlan>) returns (results: seq<ToolResult>, executed: nat)
      modifies sandbox, this`killswitched
      ensures ToolsEnded(old(sandbox.View()), old(killswitched), plans, executed, sandbox.View())
      ensures OneResultEach(results, plans, executed)
    {
      results, executed := [], 0;
      ghost var s0, ks0, done := sandbox.View(), killswitched, [];
      NoToolYet(s0, ks0, plans);
      while executed < |plans|
        invariant AllOkSoFar(results, plans, executed)
        invariant ToolsUnderWay(s0, ks0, plans, executed, done, sandbox.View(), killswitched)
      {
        var result;
        result, done := ExecuteNext(plans, executed, s0, ks0, done);
        OneResultMore(results, result, plans, executed);
        results := results + [result];
        if !result.ok {
          return;
        }
        executed := executed + 1;
      }
      ToolsAllDone(s0, ks0, plans, done, sandbox.View(), killswitched);
    }

    /** `_rollback_executed_tools`: best effort, last tool first; a failing rollback is skipped over. */
    method RollBackExecuted(plans: seq<ToolPlan>, executed: nat, results: seq<ToolResult>)
      returns (after: seq<ToolResult>)
      requires executed <= |plans| && executed <= |results|
      modifies sandbox
      ensures |after| == |results|
      ensures forall i :: 0 <= i < |after| ==> after[i].name == results[i].name && after[i].ok == results[i].ok
      ensures sandbox.View() == Run(old(sandbox.View()), UndoTrace(old(sandbox.View()), plans[..executed]))
    {
      hide Run, UndoTrace, Effective;
      after := results;
      ghost var s0, done := sandbox.View(), [];
      NothingUndoneYet(s0, plans[..executed]);
      for i := executed downto 0
        invariant |after| == |results|
        invariant forall k :: 0 <= k < |after| ==> after[k].name == results[k].name && after[k].ok == results[k].ok
        invariant UndoUnderWay(s0, plans[..executed], i, done, sandbox.View())
      {
        UndoStep(s0, plans[..executed], i, done, sandbox.View());
        if Undoable(plans[i]) {
          done := done + Effective(sandbox.View(), plans[i].undo);
          var ok := Perform(plans[i].undo);
          after := after[i := after[i].(rolledBack := ok)];
        }
      }
      AllUndone(s0, plans[..executed], done, sandbox.View());
    }

    /** After a tool failed: best-effort rollback, then the authoritative restore. */
    method CleanUp(plans: seq<ToolPlan>, executed: nat, results: seq<ToolResult>, snapshot: Option<nat>,
                   ghost s0: State, ghost taken: State, ghost ks: bool)
      returns (after: seq<ToolResult>, error: Option<Error>)
      requires executed < |plans| && executed < |results| && ToolsEnded(taken, ks, plans, executed, sandbox.View())
      requires FromSnapshot(s0, taken, snapshot)
      modifies sandbox
      ensures |after| == |results|
      ensures forall i :: 0 <= i < |after| ==> after[i].name == results[i].name && after[i].ok == results[i].ok
      ensures snapshot.None? ==> error.None? && sandbox.View() == BeforeRestore(taken, plans, ks)
      ensures snapshot.Some? ==>
        (error.Some? <==> !AffordsFileWrites(BeforeRestore(taken, plans, ks), SNAPSHOT_COST))
      ensures snapshot.Some? && error.None? ==> SameContents(sandbox.View(), s0)
    {
      after := RollBackExecuted(plans, executed, results);
      AttemptIsReversible(s0, taken, plans, ks, snapshot);
      error := None;
      if snapshot.Some? {
        error := sandbox.Restore(snapshot.value, SNAPSHOT_COST);
      }
    }

    /** Running the tools, and cleaning up after a failure. */
    method AttemptBatch(plans: seq<ToolPlan>, snapshot: Option<nat>, ghost s0: State) returns (outcome: BatchOutcome)
      requires FromSnapshot(s0, sandbox.View(), snapshot)
      modifies sandbox, this`killswitched
      ensures outcome.Results? ==>
        OneResultPerPlan(outcome.results, plans)
        && forall i :: 0 <= i < |plans| ==>
             outcome.results[i].ok == (i < Succeeding(old(sandbox.View()), plans, old(killswitched)))
      ensures Attempted(s0, old(sandbox.View()), plans, old(killswitched), snapshot.Some?, sandbox.View(), outcome)
    {
      hide Run, UndoTrace, ToolsTrace, SameContents, Succeeding, BeforeRestore, FromSnapshot, AffordsFileWrites;
      ghost var taken, ks := sandbox.View(), killswitched;
      var results, executed := ExecuteTools(plans);
      if executed == |plans| {
        return Results(results);
      }
      var after, error := CleanUp(plans, executed, results, snapshot, s0, taken, ks);
      if error.Some? {
        return Raised(error.value);
      }
      RestIsRolledBack(plans, executed, results, after);
      return Results(after + ForEach(plans[executed + 1..], BatchRolledBack));
    }

    /** The results of a batch that never reaches the barrier; an empty list lets it through. */
    method RefuseEarly(plans: seq<ToolPlan>) returns (results: seq<ToolResult>)
      requires plans != []
      ensures results == [] <==> ReachesBarrier(plans, killswitched, executing)
      ensures results == [] || (OneResultPerPlan(results, plans) && NoneOk(results))
    {
      if killswitched {
        return ForEach(plans, Killswitched);
      }
      if exists i :: 0 <= i < |plans| && !plans[i].allowed {
        return ForEach(plans, PolicyBlock);
      }
      if !executing {
        return ForEach(plans, PlanOnly);
      }
      return BatchErrors(plans);
    }

    /** The barrier, the snapshot of a mutating batch, and the consumption of the token. */
    method PassBarrier(plans: seq<ToolPlan>) returns (admitted: bool, snapshot: Option<nat>)
      requires Ordered(sandbox.View()) && barrier.Valid() && !killswitched
      modifies sandbox, barrier
      ensures barrier.Valid() && barrier.activeTokens == old(barrier.activeTokens)
      ensures admitted <==> BarrierAdmits(plans, old(sandbox.View()))
      ensures !admitted ==> sandbox.View() == old(sandbox.View())
      ensures admitted ==> FromSnapshot(old(sandbox.View()), sandbox.View(), snapshot) && snapshot.Some? == Mutating(plans)
    {
      var verdict := if exists i :: 0 <= i < |plans| && plans[i].nuke then NukeTriggered else Allow;
      var budget := if sandbox.budget.None? then Unlimited else sandbox.budget.value.fileWrites;
      ghost var tokens := barrier.activeTokens;
      var token := barrier.Precommit(ExecutionPlan(Names(plans), |plans| as real, verdict), killswitched, SNAPSHOT_COST, budget);
      if token.Failure? {
        return false, None;
      }
      snapshot := None;
      if Mutating(plans) {
        var id := sandbox.SnapshotState(SNAPSHOT_COST);
        assert id.Success?;
        snapshot := Some(id.value);
      }
      var consumed := barrier.Consume(token.value);
      assert barrier.activeTokens == tokens;
      return true, snapshot;
    }

    /**
     `_bind_tool_batch`: one result per plan in plan order, and a mutating batch in which a
     tool fails leaves memory, files and manifest as they were before it. The restore can
     only be refused for lack of budget, which a budget for all tools, the snapshot and the
     restore rules out.
     */
    method BindToolBatch(plans: seq<ToolPlan>) returns (outcome: BatchOutcome)
      requires Ordered(sandbox.View()) && barrier.Valid()
      modifies this`killswitched, sandbox, barrier
      ensures barrier.Valid() && barrier.activeTokens == old(barrier.activeTokens)
      ensures outcome.Results? ==> OneResultPerPlan(outcome.results, plans)
      ensures var s0 := old(sandbox.View());
        if plans == [] || !ReachesBarrier(plans, old(killswitched), executing) || !BarrierAdmits(plans, s0) then
          outcome.Results? && NoneOk(outcome.results) && sandbox.View() == s0
        else
          Attempted(s0, AfterSnapshot(s0, plans), plans, false, Mutating(plans), sandbox.View(), outcome)
      ensures Mutating(plans) && outcome.Results? && (exists i :: 0 <= i < |outcome.results| && !outcome.results[i].ok) ==>
        SameContents(sandbox.View(), old(sandbox.View()))
      ensures AffordsFileWrites(old(sandbox.View()), 2.0 * SNAPSHOT_COST + BatchCost(plans)) ==> outcome.Results?
    {
      if plans == [] {
        return Results([]);
      }
      var refused := RefuseEarly(plans);
      if refused != [] {
        return Results(refused);
      }
      ghost var s0 := sandbox.View();
      var admitted, snapshot := PassBarrier(plans);
      if !admitted {
        return Results(ForEach(plans, PrecommitRejected));
      }
      RestoreIsAffordable(s0, plans);
      outcome := AttemptBatch(plans, snapshot, s0);
    }
  }

  predicate NoneOk(results: seq<ToolResult>) {
    forall i :: 0 <= i < |results| ==> !results[i].ok
  }

  /** No rule before the barrier stops the batch. */
  predicate ReachesBarrier(plans: seq<ToolPlan>, killswitched: bool, executing: bool) {
    !killswitched && executing && (forall i :: 0 <= i < |plans| ==> plans[i].allowed) && BatchErrors(plans) == []
  }

  /** The barrier reserves one unit per tool and the snapshot. */
  predicate BarrierAdmits(plans: seq<ToolPlan>, s: State) {
    && (forall i :: 0 <= i < |plans| ==> !plans[i].nuke)
    && AffordsFileWrites(s, |plans| as real + SNAPSHOT_COST)
  }

  /** The state from which the tools of an admitted batch run. */
  function AfterSnapshot(s: State, plans: seq<ToolPlan>): State {
    if Mutating(plans) then Next(s, TakeSnapshot(SNAPSHOT_COST)) else s
  }

  lemma RestoreIsAffordable(s0: State, plans: seq<ToolPlan>)
    ensures AffordsFileWrites(s0, 2.0 * SNAPSHOT_COST + BatchCost(plans)) ==>
      AffordsFileWrites(BeforeRestore(AfterSnapshot(s0, plans), plans, false), SNAPSHOT_COST)
  {
    if AffordsFileWrites(s0, 2.0 * SNAPSHOT_COST + BatchCost(plans)) {
      StepLeaves(s0, TakeSnapshot(SNAPSHOT_COST), SNAPSHOT_COST + BatchCost(plans));
      EnoughForRestore(AfterSnapshot(s0, plans), plans, false, SNAPSHOT_COST);
    }
  }

  /** `taken` is the state `s0`, or the state that taking a snapshot of `s0` leaves. */
  ghost predicate FromSnapshot(s0: State, taken: State, snapshot: Option<nat>) {
    && Ordered(s0)
    && (snapshot.None? ==> taken == s0)
    && (snapshot.Some? ==>
          && AffordsFileWrites(s0, SNAPSHOT_COST) && snapshot.value == s0.nextSnapshot
          && taken == Next(s0, TakeSnapshot(SNAPSHOT_COST)))
  }

  /** What an attempted batch leaves, from the state `taken` after its snapshot, if it takes one. */
  ghost predicate Attempted(s0: State, taken: State, plans: seq<ToolPlan>, ks: bool, snapshot: bool,
                            after: State, outcome: BatchOutcome)
  {
    var fails := Succeeding(taken, plans, ks) < |plans|;
    && (!fails ==> outcome.Results? && after == Run(taken, ToolsTrace(taken, plans, ks)))
    && (fails && !snapshot ==> outcome.Results? && after == BeforeRestore(taken, plans, ks))
    && (fails && snapshot ==>
          && (outcome.Raised? <==> !AffordsFileWrites(BeforeRestore(taken, plans, ks), SNAPSHOT_COST))
          && (outcome.Results? ==> SameContents(after, s0)))
  }

  /** Whatever the tools and their rollbacks did, the snapshot brings back what was there before. */
  lemma AttemptIsReversible(s0: State, taken: State, plans: seq<ToolPlan>, ks: bool, snapshot: Option<nat>)
    requires FromSnapshot(s0, taken, snapshot)
    ensures snapshot.Some? ==>
      var restored := Apply(BeforeRestore(taken, plans, ks), RestoreSnapshot(snapshot.value, SNAPSHOT_COST));
      && (restored.Success? <==> AffordsFileWrites(BeforeRestore(taken, plans, ks), SNAPSHOT_COST))
      && (restored.Success? ==> SameContents(restored.value, s0))
  {
    if snapshot.Some? {
      var trace := ToolsTrace(taken, plans, ks);
      var undo := UndoTrace(Run(taken, trace), plans[..Succeeding(taken, plans, ks)]);
      RunConcat(taken, trace, undo);
      RestoreIsExact(s0, SNAPSHOT_COST, trace + undo, SNAPSHOT_COST);
    }
  }

  /** The first `i` operations succeeded; what is left to do follows them. */
  ghost predicate OpsUnderWay(s0: State, ops: seq<Op>, i: nat, s: State) {
    && i <= |ops| && s == Run(s0, ops[..i]) && Effective(s0, ops) == ops[..i] + Effective(s, ops[i..])
    && (RunsThrough(s0, ops) <==> RunsThrough(s, ops[i..]))
  }

  lemma OpStep(s0: State, ops: seq<Op>, i: nat, s: State)
    requires i < |ops| && OpsUnderWay(s0, ops, i, s)
    ensures Next(s, ops[i]) == Run(s0, ops[..i + 1])
    ensures Apply(s, ops[i]).Success? ==> OpsUnderWay(s0, ops, i + 1, Next(s, ops[i]))
    ensures Apply(s, ops[i]).Failure? ==> Effective(s0, ops) == ops[..i + 1] && !RunsThrough(s0, ops)
  {
    assert ops[i..][0] == ops[i] && ops[i..][1..] == ops[i + 1..];
    assert ops[..i + 1] == ops[..i] + [ops[i]];
    RunConcat(s0, ops[..i], [ops[i]]);
    RunOne(s, ops[i]);
    if Apply(s, ops[i]).Success? {
      Associative(ops[..i], [ops[i]], Effective(Next(s, ops[i]), ops[i + 1..]));
    }
  }

  lemma OpsAllDone(s0: State, ops: seq<Op>, s: State)
    requires OpsUnderWay(s0, ops, |ops|, s)
    ensures RunsThrough(s0, ops) && s == Run(s0, Effective(s0, ops))
  {
    assert ops[|ops|..] == [] && ops[..|ops|] == ops && ops + [] == ops;
  }

  lemma RunOne(s: State, op: Op)
    ensures Run(s, [op]) == Next(s, op)
  {
    assert [op][1..] == [];
  }

  /** `i` tools have succeeded; what is left to do follows what was done. */
  ghost predicate ToolsUnderWay(s0: State, ks0: bool, plans: seq<ToolPlan>, i: nat, done: seq<Op>, s: State, ks: bool) {
    && i <= |plans| && s == Run(s0, done)
    && ToolsTrace(s0, plans, ks0) == done + ToolsTrace(s, plans[i..], ks)
    && Succeeding(s0, plans, ks0) == i + Succeeding(s, plans[i..], ks)
  }

  /** The tools before `executed` succeeded, and the one at `executed`, if there is one, failed. */
  ghost predicate ToolsEnded(s0: State, ks0: bool, plans: seq<ToolPlan>, executed: nat, s: State) {
    executed == Succeeding(s0, plans, ks0) && s == Run(s0, ToolsTrace(s0, plans, ks0))
  }

  /** The results name the tools in order; those before `executed` are successes and the next one, if any, a failure. */
  predicate OneResultEach(results: seq<ToolResult>, plans: seq<ToolPlan>, executed: nat) {
    && |results| == (if executed < |plans| then executed + 1 else |plans|)
    && forall i :: 0 <= i < |results| ==> results[i].name == plans[i].name && results[i].ok == (i < executed)
  }

  /** After a failure the tools that did not run get their results too. */
  lemma RestIsRolledBack(plans: seq<ToolPlan>, executed: nat, results: seq<ToolResult>, after: seq<ToolResult>)
    requires executed < |plans| && OneResultEach(results, plans, executed) && |after| == |results|
    requires forall i :: 0 <= i < |after| ==> after[i].name == results[i].name && after[i].ok == results[i].ok
    ensures var all := after + ForEach(plans[executed + 1..], BatchRolledBack);
      OneResultPerPlan(all, plans) && forall i :: 0 <= i < |plans| ==> all[i].ok == (i < executed)
  {
    var rest := ForEach(plans[executed + 1..], BatchRolledBack);
    forall i | 0 <= i < |plans|
      ensures (after + rest)[i].name == plans[i].name && (after + rest)[i].ok == (i < executed)
    {
      if i > executed {
        assert (after + rest)[i] == rest[i - executed - 1];
      }
    }
  }

  ghost predicate AllOkSoFar(results: seq<ToolResult>, plans: seq<ToolPlan>, executed: nat) {
    && |results| == executed <= |plans|
    && forall i :: 0 <= i < executed ==> results[i].name == plans[i].name && results[i].ok
  }

  lemma OneResultMore(results: seq<ToolResult>, result: ToolResult, plans: seq<ToolPlan>, executed: nat)
    requires executed < |plans| && AllOkSoFar(results, plans, executed) && result.name == plans[executed].name
    ensures if result.ok then AllOkSoFar(results + [result], plans, executed + 1)
      else OneResultEach(results + [result], plans, executed)
  {
  }

  lemma NoToolYet(s0: State, ks0: bool, plans: seq<ToolPlan>)
    ensures ToolsUnderWay(s0, ks0, plans, 0, [], s0, ks0)
  {
    assert plans[0..] == plans;
    assert [] + ToolsTrace(s0, plans, ks0) == ToolsTrace(s0, plans, ks0);
  }

  lemma ToolsAllDone(s0: State, ks0: bool, plans: seq<ToolPlan>, done: seq<Op>, s: State, ks: bool)
    requires ToolsUnderWay(s0, ks0, plans, |plans|, done, s, ks)
    ensures ToolsEnded(s0, ks0, plans, |plans|, s)
  {
    assert plans[|plans|..] == [] && done + [] == done;
  }

  lemma FirstTool(s: State, plan: ToolPlan, rest: seq<ToolPlan>, ks: bool)
    ensures var performed, later := Performed(s, plan, ks), AfterTool(s, plan, ks);
      var ks' := ks || plan.engagesKillswitch;
      && ToolsTrace(s, [plan] + rest, ks)
         == performed + (if ResultOf(s, plan, ks).ok then ToolsTrace(later, rest, ks') else [])
      && Succeeding(s, [plan] + rest, ks)
         == if ResultOf(s, plan, ks).ok then 1 + Succeeding(later, rest, ks') else 0
  {
    assert ([plan] + rest)[0] == plan && ([plan] + rest)[1..] == rest;
  }

  lemma ToolStep(s0: State, ks0: bool, plans: seq<ToolPlan>, i: nat, done: seq<Op>, s: State, ks: bool)
    requires ToolsUnderWay(s0, ks0, plans, i, done, s, ks) && i < |plans|
    ensures var performed := Performed(s, plans[i], ks);
      if ResultOf(s, plans[i], ks).ok then
        ToolsUnderWay(s0, ks0, plans, i + 1, done + performed, AfterTool(s, plans[i], ks), ks || plans[i].engagesKillswitch)
      else
        && ToolsTrace(s0, plans, ks0) == done + performed && Succeeding(s0, plans, ks0) == i
        && AfterTool(s, plans[i], ks) == Run(s0, done + performed)
  {
    assert plans[i..] == [plans[i]] + plans[i + 1..];
    FirstTool(s, plans[i], plans[i + 1..], ks);
    var performed := Performed(s, plans[i], ks);
    RunConcat(s0, done, performed);
    Associative(done, performed,
                ToolsTrace(AfterTool(s, plans[i], ks), plans[i + 1..], ks || plans[i].engagesKillswitch));
  }

  ghost predicate UndoUnderWay(s0: State, executed: seq<ToolPlan>, i: nat, done: seq<Op>, s: State) {
    && i <= |executed| && s == Run(s0, done)
    && UndoTrace(s0, executed) == done + UndoTrace(s, executed[..i])
  }

  lemma NothingUndoneYet(s0: State, executed: seq<ToolPlan>)
    ensures UndoUnderWay(s0, executed, |executed|, [], s0)
  {
    assert executed[..|executed|] == executed;
    assert [] + UndoTrace(s0, executed) == UndoTrace(s0, executed);
  }

  lemma AllUndone(s0: State, executed: seq<ToolPlan>, done: seq<Op>, s: State)
    requires UndoUnderWay(s0, executed, 0, done, s)
    ensures s == Run(s0, UndoTrace(s0, executed))
  {
    assert executed[..0] == [] && done + [] == done;
  }

  lemma UndoStep(s0: State, executed: seq<ToolPlan>, i: nat, done: seq<Op>, s: State)
    requires i < |executed| && UndoUnderWay(s0, executed, i + 1, done, s)
    ensures var ops := if Undoable(executed[i]) then Effective(s, executed[i].undo) else [];
      UndoUnderWay(s0, executed, i, done + ops, Run(s, ops))
    ensures !Undoable(executed[i]) ==> UndoUnderWay(s0, executed, i, done, s)
  {
    assert executed[..i + 1][..i] == executed[..i] && executed[..i + 1][i] == executed[i];
    var ops := if Undoable(executed[i]) then Effective(s, executed[i].undo) else [];
    RunConcat(s0, done, ops);
    Associative(done, ops, UndoTrace(Run(s, ops), executed[..i]));
    assert done + [] == done;
  }
}
