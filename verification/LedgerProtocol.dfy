/**
 The ledger under concurrency and restarts.

 Handlers of runtime_core/comms_server.py run on threads. The lock covers the advance of
 the operation counter and the append of a line, but not what lies between them, so a
 handler is a task that takes an id and appends a row in separate steps. A restart loses
 every task and reloads the counter from the log.
 */
module LedgerProtocol {
  import opened Results
  import opened OperationLedger
  import opened LedgerProjection

  /** What an IDE request still has to write after its own row. */
  datatype IdeRow = RequestRow(key: Key, runnable: bool) | AttemptRow(ok: bool) | ClosingRow

  datatype Task =
    | IdeTask(todo: seq<IdeRow>, ide: Option<nat>, last: Option<nat>, held: Option<nat>)
    | DecisionTask(key: Key, decision: Decision, request: nat, held: Option<nat>)
    | LocatedTask(key: Key, request: nat)
    | ExecutionTask(key: Key, request: nat, outcome: Status, attempt: Option<nat>, result: Option<nat>, held: Option<nat>)

  datatype System = System(log: seq<Row>, counter: nat, tasks: map<nat, Task>)

  datatype Step =
    | StartIde(thread: nat, todo: seq<IdeRow>)
    | CheckDecision(thread: nat, key: Key, decision: Decision)
    | LocateRequest(thread: nat, key: Key)
    | CheckApproval(thread: nat, outcome: Status)
    | Allocate(thread: nat)
    | Append(thread: nat)
    | Abandon(thread: nat)
    | DecideAtOnce(key: Key, decision: Decision)
    | Restart

  const Initial := System([], 0, map[])

  // ---------------------------------------------------------------------
  // Rows that tasks write
  // ---------------------------------------------------------------------

  function PatchPart(key: Key): string {
    if key.lane.PatchLane? then key.id else ""
  }

  function ToolPart(key: Key): string {
    if key.lane.ToolLane? then key.id else ""
  }

  function KeyRow(id: nat, kind: OperationType, status: Status, parent: Option<nat>, key: Key, runnable: bool): Row {
    Row(id, kind, status, parent, PatchPart(key), ToolPart(key), "", None, runnable)
  }

  function DecisionRow(id: nat, key: Key, decision: Decision, request: nat): Row {
    Row(id, DecisionOn(key.lane), if decision.Approve? then Approved else Denied, Some(request),
        PatchPart(key), ToolPart(key), key.id, Some(decision), false)
  }

  function IdeTaskRow(id: nat, task: Task): Row
    requires task.IdeTask? && HasNext(task)
  {
    if task.ide.None? then Row(id, IdeExecute, Proposed, None, "", "", "", None, false)
    else
      match task.todo[0]
      case RequestRow(key, runnable) => KeyRow(id, Request(key.lane), Proposed, task.ide, key, runnable)
      case AttemptRow(ok) => Row(id, ExecutionAttempt, if ok then Executed else Failed, task.ide, "", "", "", None, false)
      case ClosingRow => Row(id, Reconciliation, Reconciled, task.last, "", "", "", None, false)
  }

  function ExecutionTaskRow(id: nat, task: Task): Row
    requires task.ExecutionTask? && HasNext(task)
  {
    if task.attempt.None? then KeyRow(id, ApplyAttempt(task.key.lane), Executed, Some(task.request), task.key, false)
    else if task.result.None? then KeyRow(id, ApplyResult(task.key.lane), task.outcome, task.attempt, task.key, false)
    else KeyRow(id, Reconciliation, Reconciled, task.result, task.key, false)
  }

  predicate HasNext(task: Task) {
    match task
    case IdeTask(todo, ide, _, _) => ide.None? || todo != []
    case LocatedTask(_, _) => false
    case _ => true
  }

  function NextRow(id: nat, task: Task): Row
    requires HasNext(task)
  {
    match task
    case IdeTask(_, _, _, _) => IdeTaskRow(id, task)
    case DecisionTask(key, decision, request, _) => DecisionRow(id, key, decision, request)
    case ExecutionTask(_, _, _, _, _, _) => ExecutionTaskRow(id, task)
  }

  /** A thread's state after its row with this id is in the log; None when the handler is done. */
  function Advance(id: nat, task: Task): Option<Task>
    requires HasNext(task)
  {
    match task
    case IdeTask(todo, ide, _, _) =>
      Some(IdeTask(if ide.None? then todo else todo[1..], if ide.None? then Some(id) else ide, Some(id), None))
    case DecisionTask(_, _, _, _) => None
    case ExecutionTask(key, request, outcome, attempt, result, _) =>
      if attempt.None? then Some(task.(attempt := Some(id), held := None))
      else if result.None? then Some(task.(result := Some(id), held := None))
      else None
  }

  // ---------------------------------------------------------------------
  // Steps
  // ---------------------------------------------------------------------

  predicate ValidTodo(todo: seq<IdeRow>) {
    forall i :: 0 <= i < |todo| && todo[i].RequestRow? && todo[i].key.lane.PatchLane? ==>
      todo[i].key.id != "" && todo[i].runnable
  }

  predicate MayDecide(log: seq<Row>, key: Key) {
    var found := FindRequest(log, key.id);
    found.Some? && found.value.0 == key.lane && FindDecision(log, key).None?
  }

  function Held(task: Task): Option<nat> {
    if task.LocatedTask? then None else task.held
  }

  predicate Enabled(s: System, step: Step) {
    match step
    case StartIde(t, todo) => t !in s.tasks && ValidTodo(todo)
    case CheckDecision(t, key, _) => t !in s.tasks && MayDecide(s.log, key)
    case LocateRequest(t, key) =>
      t !in s.tasks && FindRequest(s.log, key.id).Some? && FindRequest(s.log, key.id).value.0 == key.lane
    case CheckApproval(t, outcome) =>
      && t in s.tasks && s.tasks[t].LocatedTask? && ScanApproves(s.log, s.tasks[t].key)
      && (outcome.Applied? || outcome.Executed? || outcome.Failed?)
    case Allocate(t) => t in s.tasks && HasNext(s.tasks[t]) && Held(s.tasks[t]).None?
    case Append(t) => t in s.tasks && HasNext(s.tasks[t]) && Held(s.tasks[t]).Some?
    case Abandon(t) => t in s.tasks
    case DecideAtOnce(key, _) => MayDecide(s.log, key)
    case Restart => true
  }

  /** `_load_operation_counter`. */
  function HighestId(log: seq<Row>): nat {
    if log == [] then 0
    else
      var last, before := log[|log| - 1].operationId, HighestId(log[..|log| - 1]);
      if last > before then last else before
  }

  function Take(s: System, step: Step): System
    requires Enabled(s, step)
  {
    match step
    case StartIde(t, todo) => s.(tasks := s.tasks[t := IdeTask(todo, None, None, None)])
    case CheckDecision(t, key, decision) =>
      s.(tasks := s.tasks[t := DecisionTask(key, decision, FindRequest(s.log, key.id).value.1.operationId, None)])
    case LocateRequest(t, key) =>
      s.(tasks := s.tasks[t := LocatedTask(key, FindRequest(s.log, key.id).value.1.operationId)])
    case CheckApproval(t, outcome) =>
      s.(tasks := s.tasks[t := ExecutionTask(s.tasks[t].key, s.tasks[t].request, outcome, None, None, None)])
    case Allocate(t) =>
      s.(counter := s.counter + 1, tasks := s.tasks[t := s.tasks[t].(held := Some(s.counter + 1))])
    case Append(t) =>
      var id, rest := s.tasks[t].held.value, s.tasks - {t};
      var next := Advance(id, s.tasks[t]);
      s.(log := s.log + [NextRow(id, s.tasks[t])], tasks := if next.Some? then rest[t := next.value] else rest)
    case Abandon(t) => s.(tasks := s.tasks - {t})
    case DecideAtOnce(key, decision) =>
      var request := FindRequest(s.log, key.id).value.1.operationId;
      s.(counter := s.counter + 1, log := s.log + [DecisionRow(s.counter + 1, key, decision, request)])
    case Restart => System(s.log, HighestId(s.log), map[])
  }

  /** A run: steps that are not enabled do nothing. */
  function Run(steps: seq<Step>): System {
    if steps == [] then Initial
    else
      var before, step := Run(steps[..|steps| - 1]), steps[|steps| - 1];
      if Enabled(before, step) then Take(before, step) else before
  }

  predicate SerialDecisions(steps: seq<Step>) {
    forall i :: 0 <= i < |steps| ==> !steps[i].CheckDecision?
  }

  // ---------------------------------------------------------------------
  // The invariant
  // ---------------------------------------------------------------------

  predicate UniqueIds(log: seq<Row>) {
    forall i, j :: 0 <= i < j < |log| ==> log[i].operationId != log[j].operationId
  }

  predicate ParentsFirst(log: seq<Row>) {
    forall i :: 0 <= i < |log| && log[i].parent.Some? ==> IdSeen(log[..i], log[i].parent.value)
  }

  /** Ids in the log and ids held by tasks are all different and none is above the counter. */
  ghost predicate Numbered(s: System) {
    && UniqueIds(s.log)
    && (forall i :: 0 <= i < |s.log| ==> s.log[i].operationId <= s.counter)
    && (forall t :: t in s.tasks && Held(s.tasks[t]).Some? ==>
          Held(s.tasks[t]).value <= s.counter && !IdSeen(s.log, Held(s.tasks[t]).value))
    && (forall t, u :: t in s.tasks && u in s.tasks && t != u && Held(s.tasks[t]).Some? ==>
          Held(s.tasks[t]) != Held(s.tasks[u]))
  }

  predicate Known(log: seq<Row>, id: Option<nat>) {
    id.Some? ==> IdSeen(log, id.value)
  }

  /** What a task has found in the log, or put there, is in the log. */
  predicate TaskOk(log: seq<Row>, task: Task) {
    match task
    case IdeTask(todo, ide, last, _) =>
      ValidTodo(todo) && Known(log, ide) && Known(log, last) && (ide.Some? ==> last.Some?)
    case DecisionTask(key, _, request, _) =>
      key.id != "" && Requested(log, key) && IdSeen(log, request)
    case LocatedTask(key, request) =>
      key.id != "" && Requested(log, key) && IdSeen(log, request)
    case ExecutionTask(key, request, outcome, attempt, result, _) =>
      && key.id != "" && Requested(log, key) && IdSeen(log, request) && WasApproved(log, key)
      && (outcome.Applied? || outcome.Executed? || outcome.Failed?)
      && Known(log, attempt) && Known(log, result)
      && (attempt.Some? ==> Attempted(log, key)) && (result.Some? ==> Resulted(log, key))
  }

  ghost predicate Inv(s: System, serial: bool) {
    && Numbered(s)
    && ParentsFirst(s.log)
    && WellFormed(s.log, serial)
    && (forall t :: t in s.tasks ==> TaskOk(s.log, s.tasks[t]))
    && (serial ==> forall t :: t in s.tasks ==> !s.tasks[t].DecisionTask?)
  }

  // ---------------------------------------------------------------------
  // What the scans find
  // ---------------------------------------------------------------------

  lemma {:induction false} FoundRequest(log: seq<Row>, id: string)
    ensures var found := FindRequest(log, id);
      found.Some? ==>
        && id != "" && Requested(log, Key(found.value.0, id)) && IdSeen(log, found.value.1.operationId)
  {
    if log != [] && id != "" {
      var last := |log| - 1;
      FoundRequest(log[..last], id);
      assert log == log[..last] + [log[last]];
      SeenGrows(log[..last], log[last]);
      GrowthOfRequests(log[..last], log[last], Key(PatchLane, id));
      GrowthOfRequests(log[..last], log[last], Key(ToolLane, id));
    }
  }

  lemma {:induction false} FoundDecision(log: seq<Row>, key: Key)
    ensures ScanApproves(log, key) ==> WasApproved(log, key)
  {
    if log != [] {
      var last := |log| - 1;
      FoundDecision(log[..last], key);
      assert log == log[..last] + [log[last]];
      GrowthOfDecisions(log[..last], log[last], key);
    }
  }

  // ---------------------------------------------------------------------
  // Appending a row
  // ---------------------------------------------------------------------

  lemma TaskOkSurvives(log: seq<Row>, row: Row, task: Task)
    requires TaskOk(log, task)
    ensures TaskOk(log + [row], task)
  {
    SeenGrows(log, row);
    if !task.IdeTask? {
      GrowthOfRequests(log, row, task.key);
      GrowthOfExecutions(log, row, task.key);
      GrowthOfDecisions(log, row, task.key);
    }
  }

  /** A task writes only rows that its findings justify, under a parent that is in the log. */
  lemma NextRowIsJustified(log: seq<Row>, id: nat, task: Task, serial: bool)
    requires TaskOk(log, task) && HasNext(task) && (serial ==> !task.DecisionTask?)
    ensures Justified(log, NextRow(id, task), serial)
    ensures Known(log, NextRow(id, task).parent) && NextRow(id, task).operationId == id
  {
    var row := NextRow(id, task);
    if task.ExecutionTask? && task.result.Some? && task.attempt.Some? {
      assert Ref(row, task.key.lane) == task.key.id;
    }
  }

  lemma AdvanceIsOk(log: seq<Row>, id: nat, task: Task)
    requires TaskOk(log, task) && HasNext(task)
    ensures var next := Advance(id, task);
      next.Some? ==>
        TaskOk(log + [NextRow(id, task)], next.value) && !next.value.DecisionTask? && Held(next.value).None?
  {
    if task.ExecutionTask? {
      ExecutionAdvanceIsOk(log, id, task);
    } else {
      SeenGrows(log, NextRow(id, task));
    }
  }

  lemma ExecutionAdvanceIsOk(log: seq<Row>, id: nat, task: Task)
    requires TaskOk(log, task) && HasNext(task) && task.ExecutionTask?
    ensures var next := Advance(id, task);
      next.Some? ==>
        TaskOk(log + [NextRow(id, task)], next.value) && !next.value.DecisionTask? && Held(next.value).None?
  {
    hide IdSeen, Requested, WasApproved, Attempted, Resulted, Introduced, WasReconciled, FindDecision;
    var row := NextRow(id, task);
    SeenGrows(log, row);
    GrowthOfRequests(log, row, task.key);
    GrowthOfExecutions(log, row, task.key);
    GrowthOfDecisions(log, row, task.key);
  }

  lemma LogGrows(log: seq<Row>, row: Row, serial: bool)
    requires WellFormed(log, serial) && ParentsFirst(log) && UniqueIds(log)
    requires Justified(log, row, serial) && Known(log, row.parent) && !IdSeen(log, row.operationId)
    ensures WellFormed(log + [row], serial) && ParentsFirst(log + [row]) && UniqueIds(log + [row])
  {
    var more := log + [row];
    assert more[..|log|] == log;
    assert forall i :: 0 <= i < |log| ==> more[..i] == log[..i] && more[i] == log[i];
    assert forall i :: 0 <= i < |log| ==> log[i].operationId != row.operationId;
  }

  // ---------------------------------------------------------------------
  // Every step keeps the invariant
  // ---------------------------------------------------------------------

  lemma StartKeepsNumbers(s: System, t: nat, task: Task)
    requires Numbered(s) && Held(task).None?
    ensures Numbered(s.(tasks := s.tasks[t := task]))
  {
  }

  lemma StartKeepsInv(s: System, t: nat, task: Task, serial: bool)
    requires Inv(s, serial) && TaskOk(s.log, task) && Held(task).None? && (serial ==> !task.DecisionTask?)
    ensures Inv(s.(tasks := s.tasks[t := task]), serial)
  {
    StartKeepsNumbers(s, t, task);
  }

  lemma DropKeepsInv(s: System, t: nat, serial: bool)
    requires Inv(s, serial)
    ensures Inv(s.(tasks := s.tasks - {t}), serial)
  {
  }

  /** The next number is above every number in use. */
  lemma NextIsNew(s: System, t: nat, task: Task)
    requires Numbered(s) && Held(task) == Some(s.counter + 1)
    ensures Numbered(s.(counter := s.counter + 1, tasks := s.tasks[t := task]))
  {
    assert !IdSeen(s.log, s.counter + 1);
  }

  lemma HolderKeepsInv(s: System, t: nat, task: Task, serial: bool)
    requires Inv(s, serial) && Held(task) == Some(s.counter + 1) && TaskOk(s.log, task) && (serial ==> !task.DecisionTask?)
    ensures Inv(s.(counter := s.counter + 1, tasks := s.tasks[t := task]), serial)
  {
    NextIsNew(s, t, task);
  }

  lemma HoldingIsOk(log: seq<Row>, task: Task, id: nat)
    requires TaskOk(log, task) && HasNext(task)
    ensures TaskOk(log, task.(held := Some(id))) && Held(task.(held := Some(id))) == Some(id)
  {
  }

  lemma AllocateKeepsInv(s: System, t: nat, serial: bool)
    requires Inv(s, serial) && Enabled(s, Allocate(t))
    ensures Inv(Take(s, Allocate(t)), serial)
  {
    hide TaskOk, Numbered, ParentsFirst, WellFormed;
    var task := s.tasks[t].(held := Some(s.counter + 1));
    assert Take(s, Allocate(t)) == s.(counter := s.counter + 1, tasks := s.tasks[t := task]);
    HoldingIsOk(s.log, s.tasks[t], s.counter + 1);
    HolderKeepsInv(s, t, task, serial);
  }

  lemma AppendKeepsNumbers(s: System, t: nat)
    requires Numbered(s) && Enabled(s, Append(t))
    requires NextRow(s.tasks[t].held.value, s.tasks[t]).operationId == s.tasks[t].held.value
    requires var next := Advance(s.tasks[t].held.value, s.tasks[t]); next.Some? ==> Held(next.value).None?
    ensures Numbered(Take(s, Append(t)))
  {
    hide Numbered, NextRow, Advance;
    var id, rest := s.tasks[t].held.value, s.tasks - {t};
    var next := Advance(id, s.tasks[t]);
    HeldIdGoesToLog(s, t, NextRow(id, s.tasks[t]), if next.Some? then rest[t := next.value] else rest);
  }

  /** An id that a task held is an id of the log, and nobody else has it. */
  lemma HeldIdGoesToLog(s: System, t: nat, row: Row, tasks: map<nat, Task>)
    requires Numbered(s) && t in s.tasks && Held(s.tasks[t]) == Some(row.operationId)
    requires forall u :: u in tasks && u != t ==> u in s.tasks && tasks[u] == s.tasks[u]
    requires t in tasks ==> Held(tasks[t]).None?
    ensures Numbered(s.(log := s.log + [row], tasks := tasks))
  {
    SeenGrows(s.log, row);
    assert forall i :: 0 <= i < |s.log| ==> s.log[i].operationId != row.operationId;
  }

  lemma AppendKeepsInv(s: System, t: nat, serial: bool)
    requires Inv(s, serial) && Enabled(s, Append(t))
    ensures Inv(Take(s, Append(t)), serial)
  {
    hide ParentsFirst, WellFormed, Justified, TaskOk, NextRow, Known;
    var id := s.tasks[t].held.value;
    var row := NextRow(id, s.tasks[t]);
    assert Held(s.tasks[t]) == Some(id);
    NextRowIsJustified(s.log, id, s.tasks[t], serial);
    AdvanceIsOk(s.log, id, s.tasks[t]);
    LogGrows(s.log, row, serial);
    AppendKeepsNumbers(s, t);
    TasksSurvive(s, row);
  }

  lemma DecideKeepsNumbers(s: System, row: Row)
    requires Numbered(s) && row.operationId == s.counter + 1
    ensures Numbered(s.(counter := s.counter + 1, log := s.log + [row])) && !IdSeen(s.log, row.operationId)
  {
    SeenGrows(s.log, row);
  }

  /** A justified row under the next number keeps everything else as it is. */
  lemma DecidedRowKeepsInv(s: System, row: Row, serial: bool)
    requires Inv(s, serial) && row.operationId == s.counter + 1
    requires Justified(s.log, row, serial) && Known(s.log, row.parent)
    ensures Inv(s.(counter := s.counter + 1, log := s.log + [row]), serial)
  {
    DecideKeepsNumbers(s, row);
    LogGrows(s.log, row, serial);
    TasksSurvive(s, row);
  }

  lemma DecisionRowIsJustified(log: seq<Row>, key: Key, decision: Decision, id: nat, serial: bool)
    requires MayDecide(log, key)
    ensures var row := DecisionRow(id, key, decision, FindRequest(log, key.id).value.1.operationId);
      row.operationId == id && Justified(log, row, serial) && Known(log, row.parent)
  {
    FoundRequest(log, key.id);
  }

  lemma DecideKeepsInv(s: System, key: Key, decision: Decision, serial: bool)
    requires Inv(s, serial) && Enabled(s, DecideAtOnce(key, decision))
    ensures Inv(Take(s, DecideAtOnce(key, decision)), serial)
  {
    var row := DecisionRow(s.counter + 1, key, decision, FindRequest(s.log, key.id).value.1.operationId);
    assert Take(s, DecideAtOnce(key, decision)) == s.(counter := s.counter + 1, log := s.log + [row]);
    DecisionRowIsJustified(s.log, key, decision, s.counter + 1, serial);
    DecidedRowKeepsInv(s, row, serial);
  }

  lemma TasksSurvive(s: System, row: Row)
    requires forall t :: t in s.tasks ==> TaskOk(s.log, s.tasks[t])
    ensures forall t :: t in s.tasks ==> TaskOk(s.log + [row], s.tasks[t])
  {
    forall t | t in s.tasks
      ensures TaskOk(s.log + [row], s.tasks[t])
    {
      TaskOkSurvives(s.log, row, s.tasks[t]);
    }
  }

  lemma {:induction false} HighestIdBounds(log: seq<Row>)
    ensures forall i :: 0 <= i < |log| ==> log[i].operationId <= HighestId(log)
  {
    if log != [] {
      HighestIdBounds(log[..|log| - 1]);
      assert forall i :: 0 <= i < |log| - 1 ==> log[i] == log[..|log| - 1][i];
    }
  }

  lemma {:induction false} StepKeepsInv(s: System, step: Step, serial: bool)
    requires Inv(s, serial) && Enabled(s, step) && (serial ==> !step.CheckDecision?)
    ensures Inv(Take(s, step), serial)
  {
    match step
    case StartIde(t, todo) => StartKeepsInv(s, t, IdeTask(todo, None, None, None), serial);
    case CheckDecision(t, key, decision) =>
      FoundRequest(s.log, key.id);
      StartKeepsInv(s, t, DecisionTask(key, decision, FindRequest(s.log, key.id).value.1.operationId, None), serial);
    case LocateRequest(t, key) =>
      FoundRequest(s.log, key.id);
      StartKeepsInv(s, t, LocatedTask(key, FindRequest(s.log, key.id).value.1.operationId), serial);
    case CheckApproval(t, outcome) =>
      FoundDecision(s.log, s.tasks[t].key);
      assert TaskOk(s.log, s.tasks[t]);
      StartKeepsInv(s, t, ExecutionTask(s.tasks[t].key, s.tasks[t].request, outcome, None, None, None), serial);
    case Allocate(t) => AllocateKeepsInv(s, t, serial);
    case Append(t) => AppendKeepsInv(s, t, serial);
    case Abandon(t) => DropKeepsInv(s, t, serial);
    case DecideAtOnce(key, decision) => DecideKeepsInv(s, key, decision, serial);
    case Restart => HighestIdBounds(s.log);
  }

  lemma {:induction false} RunKeepsInv(steps: seq<Step>, serial: bool)
    requires serial ==> SerialDecisions(steps)
    ensures Inv(Run(steps), serial)
  {
    if steps != [] {
      var last := |steps| - 1;
      RunKeepsInv(steps[..last], serial);
      if Enabled(Run(steps[..last]), steps[last]) {
        StepKeepsInv(Run(steps[..last]), steps[last], serial);
      }
    }
  }

  // ---------------------------------------------------------------------
  // Main results
  // ---------------------------------------------------------------------

  /** Under every interleaving of threads and restarts, operation ids never repeat. */
  lemma OperationIdsNeverRepeat(steps: seq<Step>, i: nat, j: nat)
    requires i < j < |Run(steps).log|
    ensures Run(steps).log[i].operationId != Run(steps).log[j].operationId
  {
    RunKeepsInv(steps, false);
  }

  /** Every parent row precedes its child. */
  lemma ParentsPrecedeChildren(steps: seq<Step>, i: nat)
    requires i < |Run(steps).log| && Run(steps).log[i].parent.Some?
    ensures var log := Run(steps).log; exists j :: 0 <= j < i && log[j].operationId == log[i].parent.value
  {
    RunKeepsInv(steps, false);
    var log := Run(steps).log;
    var j :| 0 <= j < |log[..i]| && log[..i][j].operationId == log[i].parent.value;
    assert log[j] == log[..i][j];
  }

  /** Every apply attempt comes after a request row and an approving decision of its lane and id. */
  lemma AttemptsAreApproved(steps: seq<Step>, i: nat, key: Key)
    requires i < |Run(steps).log| && IsAttempt(Run(steps).log[i], key)
    ensures Requested(Run(steps).log[..i], key) && WasApproved(Run(steps).log[..i], key)
  {
    RunKeepsInv(steps, false);
    assert Justified(Run(steps).log[..i], Run(steps).log[i], false);
  }

  /** The log only grows: no step, and no restart, loses or changes a row. */
  lemma {:induction false} LogOnlyGrows(steps: seq<Step>, more: seq<Step>)
    ensures Run(steps).log <= Run(steps + more).log
  {
    if more == [] {
      assert steps + more == steps;
    } else {
      var last := |more| - 1;
      LogOnlyGrows(steps, more[..last]);
      assert (steps + more)[..|steps + more| - 1] == steps + more[..last];
    }
  }

  /** When each decision submission is one step, the projection results hold of every reachable log. */
  lemma {:induction false} SerialRunsAreWellFormed(steps: seq<Step>)
    requires SerialDecisions(steps)
    ensures WellFormed(Run(steps).log, true)
  {
    RunKeepsInv(steps, true);
  }
}
