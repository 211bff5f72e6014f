/**
 How long a decision holds, and what it decides.

 A decision is bound to a lane and a request id, not to the request row it was made on.
 The lemmas say what that keeps over every serial run of the protocol, and what it loses
 when an id is requested again.
 */
module LedgerDecisions {
  import opened Results
  import Strings
  import opened OperationLedger
  import opened LedgerProjection
  import opened LedgerProtocol
  import opened LedgerHandlers

  // ---------------------------------------------------------------------
  // What the reverse scans find
  // ---------------------------------------------------------------------

  lemma {:induction false} DecisionPlace(rows: seq<Row>, key: Key) returns (i: nat)
    requires FindDecision(rows, key).Some?
    ensures LastDecisionAt(rows, key, i) && FindDecision(rows, key) == Some(rows[i])
  {
    if IsDecision(rows[|rows| - 1], key) {
      i := |rows| - 1;
    } else {
      i := DecisionPlace(rows[..|rows| - 1], key);
    }
  }

  lemma {:induction false} FoundPlace(rows: seq<Row>, id: string) returns (i: nat)
    requires FindRequest(rows, id).Some?
    ensures i < |rows| && FindRequest(rows, id).value.1 == rows[i]
  {
    if RequestsId(rows[|rows| - 1], id) {
      i := |rows| - 1;
    } else {
      i := FoundPlace(rows[..|rows| - 1], id);
    }
  }

  lemma LastPlace(rows: seq<Row>, id: string, k: nat) returns (i: nat)
    requires k < |rows| && RequestsId(rows[k], id)
    ensures k <= i && LastRequestAt(rows, id, i)
    decreases |rows| - k
  {
    if j :| k < j < |rows| && RequestsId(rows[j], id) {
      i := LastPlace(rows, id, j);
    } else {
      i := k;
    }
  }

  lemma {:induction false} NoDecisionBefore(rows: seq<Row>, key: Key, i: nat)
    requires FindDecision(rows, key).None? && i < |rows|
    ensures !IsDecision(rows[i], key)
  {
    if i < |rows| - 1 {
      NoDecisionBefore(rows[..|rows| - 1], key, i);
    }
  }

  // ---------------------------------------------------------------------
  // Decisions stay
  // ---------------------------------------------------------------------

  /** A serial ledger holds at most one decision row per lane and id. */
  lemma OneDecisionPerKey(rows: seq<Row>, key: Key, i: nat, j: nat)
    requires WellFormed(rows, true) && i < |rows| && j < |rows|
    requires IsDecision(rows[i], key) && IsDecision(rows[j], key)
    ensures i == j
  {
    if i < j {
      assert Justified(rows[..j], rows[j], true);
      NoDecisionBefore(rows[..j], key, i);
    } else if j < i {
      assert Justified(rows[..i], rows[i], true);
      NoDecisionBefore(rows[..i], key, j);
    }
  }

  /** The place of a decision is its place in every longer ledger. */
  lemma DecisionStays(rows: seq<Row>, longer: seq<Row>, key: Key) returns (i: nat)
    requires WellFormed(longer, true) && rows <= longer && FindDecision(rows, key).Some?
    ensures LastDecisionAt(longer, key, i) && FindDecision(rows, key) == Some(longer[i])
    ensures forall j :: 0 <= j < |longer| && IsDecision(longer[j], key) ==> j == i
  {
    i := DecisionPlace(rows, key);
    assert longer[i] == rows[i];
    forall j | 0 <= j < |longer| && IsDecision(longer[j], key)
      ensures j == i
    {
      OneDecisionPerKey(longer, key, i, j);
    }
  }

  lemma DecidedWasRequested(rows: seq<Row>, key: Key, i: nat)
    requires WellFormed(rows, true) && i < |rows| && IsDecision(rows[i], key)
    ensures key.id != "" && Requested(rows, key)
  {
    assert Justified(rows[..i], rows[i], true);
    var k :| 0 <= k < |rows[..i]| && IsRequest(rows[..i][k], key);
    assert IsRequest(rows[k], key);
  }

  /** What a submission for a decided key answers. */
  lemma AnswerToDecided(rows: seq<Row>, counter: nat, key: Key, row: Row, decision: Decision, i: nat)
    requires key.id != "" && FindDecision(rows, key) == Some(row) && LastRequestAt(rows, key.id, i)
    ensures DecisionEffect(rows, counter, key, Some(decision), true)
         == (if !IsRequest(rows[i], key) then WrongLane(OtherLane(key.lane))
             else if row.decision == Some(decision) then Receipt(row)
             else ConflictingDecision(row.decision),
             rows)
  {
    LastRequestIsFound(rows, key.id, i);
  }

  /**
   Once a serial run has recorded a decision, it is the only decision of its lane and id in
   every continuation. No later submission for them writes a row. It is answered from the
   recorded row as long as the last request with the id is of the same lane, and refused as
   sent to the wrong lane otherwise.
   */
  lemma {:induction false} DecisionsAreFinal(steps: seq<Step>, more: seq<Step>, key: Key, row: Row, decision: Decision,
                                             counter: nat)
    requires SerialDecisions(steps) && SerialDecisions(more)
    requires FindDecision(Run(steps).log, key) == Some(row)
    ensures var log := Run(steps + more).log;
      && FindDecision(log, key) == Some(row)
      && (forall i :: 0 <= i < |log| && IsDecision(log[i], key) ==> log[i] == row)
      && exists i: nat ::
           && LastRequestAt(log, key.id, i)
           && DecisionEffect(log, counter, key, Some(decision), true)
              == (if !IsRequest(log[i], key) then WrongLane(OtherLane(key.lane))
                  else if row.decision == Some(decision) then Receipt(row)
                  else ConflictingDecision(row.decision),
                  log)
  {
    hide WellFormed, DecisionEffect;
    var log := Run(steps + more).log;
    SerialRunsAreWellFormed(steps + more);
    LogOnlyGrows(steps, more);
    var d := DecisionStays(Run(steps).log, log, key);
    LastDecisionIsFound(log, key, d);
    DecidedWasRequested(log, key, d);
    var k :| 0 <= k < |log| && IsRequest(log[k], key);
    var i := LastPlace(log, key.id, k);
    AnswerToDecided(log, counter, key, row, decision, i);
  }

  lemma OneMoreStep(steps: seq<Step>, step: Step, before: System)
    requires before == Run(steps) && Enabled(before, step)
    ensures Run(steps + [step]) == Take(before, step)
  {
    assert (steps + [step])[..|steps|] == steps;
  }

  /** A thread that has checked a decision writes it, whatever else is in the ledger by then. */
  lemma CheckedIsRecorded(steps: seq<Step>, s: System, t: nat, key: Key, decision: Decision, request: nat)
    requires s == Run(steps) && t in s.tasks && s.tasks[t] == DecisionTask(key, decision, request, None)
    ensures var after := Run(steps + [Allocate(t)] + [Append(t)]);
      && after.log == s.log + [DecisionRow(s.counter + 1, key, decision, request)] && after.counter == s.counter + 1
      && after.tasks == s.tasks - {t}
  {
    var held := s.(counter := s.counter + 1, tasks := s.tasks[t := DecisionTask(key, decision, request, Some(s.counter + 1))]);
    OneMoreStep(steps, Allocate(t), s);
    assert Run(steps + [Allocate(t)]) == held;
    OneMoreStep(steps + [Allocate(t)], Append(t), held);
  }

  /** Two threads check their decisions on a key before either writes its row. */
  function Race(steps: seq<Step>, key: Key, t: nat, u: nat, first: Decision, second: Decision): seq<Step> {
    steps + [CheckDecision(t, key, first)] + [CheckDecision(u, key, second)]
    + [Allocate(t)] + [Append(t)] + [Allocate(u)] + [Append(u)]
  }

  /**
   Serial submissions are needed: two threads that both check before either writes record
   both decisions, and the later row is the one that counts.
   */
  lemma RacingDecisionsAreBothRecorded(steps: seq<Step>, key: Key, t: nat, u: nat, first: Decision, second: Decision)
    requires MayDecide(Run(steps).log, key) && t !in Run(steps).tasks && u !in Run(steps).tasks && t != u
    ensures var s := Run(steps);
      var after := Run(Race(steps, key, t, u, first, second));
      var request := FindRequest(s.log, key.id).value.1.operationId;
      var row := DecisionRow(s.counter + 2, key, second, request);
      && after.log == s.log + [DecisionRow(s.counter + 1, key, first, request), row]
      && FindDecision(after.log, key) == Some(row)
  {
    hide Race, Run, FindRequest, FindDecision, DecisionRow, IsDecision, RequestsId;
    var s := Run(steps);
    var request := FindRequest(s.log, key.id).value.1.operationId;
    BothCheckThenWrite(steps, s, key, t, u, first, second, request);
    DecisionOfKey(s.counter + 2, key, second, request);
    LastOfTwo(s.log, DecisionRow(s.counter + 1, key, first, request), DecisionRow(s.counter + 2, key, second, request), key);
  }

  lemma BothCheckThenWrite(steps: seq<Step>, s: System, key: Key, t: nat, u: nat, first: Decision, second: Decision, request: nat)
    requires s == Run(steps) && MayDecide(s.log, key) && request == FindRequest(s.log, key.id).value.1.operationId
    requires t !in s.tasks && u !in s.tasks && t != u
    ensures Run(Race(steps, key, t, u, first, second)).log
         == s.log + [DecisionRow(s.counter + 1, key, first, request)] + [DecisionRow(s.counter + 2, key, second, request)]
  {
    BothCheck(steps, s, key, t, u, first, second, request);
    hide MayDecide, FindRequest, DecisionRow, Run;
    var checked := steps + [CheckDecision(t, key, first)] + [CheckDecision(u, key, second)];
    BothWrite(checked, Run(checked), key, t, u, first, second, request);
  }

  lemma BothCheck(steps: seq<Step>, s: System, key: Key, t: nat, u: nat, first: Decision, second: Decision, request: nat)
    requires s == Run(steps) && MayDecide(s.log, key) && request == FindRequest(s.log, key.id).value.1.operationId
    requires t !in s.tasks && u !in s.tasks && t != u
    ensures Run(steps + [CheckDecision(t, key, first)] + [CheckDecision(u, key, second)])
         == s.(tasks := s.tasks[t := DecisionTask(key, first, request, None)][u := DecisionTask(key, second, request, None)])
  {
    OneMoreStep(steps, CheckDecision(t, key, first), s);
    hide MayDecide, FindRequest, Run;
    var one := s.(tasks := s.tasks[t := DecisionTask(key, first, request, None)]);
    OneMoreStep(steps + [CheckDecision(t, key, first)], CheckDecision(u, key, second), one);
  }

  lemma BothWrite(steps: seq<Step>, s: System, key: Key, t: nat, u: nat, first: Decision, second: Decision, request: nat)
    requires s == Run(steps) && t in s.tasks && u in s.tasks && t != u
    requires s.tasks[t] == DecisionTask(key, first, request, None) && s.tasks[u] == DecisionTask(key, second, request, None)
    ensures Run(steps + [Allocate(t)] + [Append(t)] + [Allocate(u)] + [Append(u)]).log
         == s.log + [DecisionRow(s.counter + 1, key, first, request)] + [DecisionRow(s.counter + 2, key, second, request)]
  {
    hide Run, DecisionRow;
    CheckedIsRecorded(steps, s, t, key, first, request);
    var once := steps + [Allocate(t)] + [Append(t)];
    CheckedIsRecorded(once, Run(once), u, key, second, request);
  }

  lemma DecisionOfKey(id: nat, key: Key, decision: Decision, request: nat)
    ensures IsDecision(DecisionRow(id, key, decision, request), key)
  {
  }

  lemma LastOfTwo(log: seq<Row>, a: Row, b: Row, key: Key)
    requires IsDecision(b, key)
    ensures log + [a] + [b] == log + [a, b] && FindDecision(log + [a, b], key) == Some(b)
  {
  }

  /** A thread with a row to write takes a number and writes it. */
  lemma TaskWritesRow(steps: seq<Step>, s: System, t: nat)
    requires s == Run(steps) && t in s.tasks && HasNext(s.tasks[t]) && Held(s.tasks[t]).None?
    ensures var id, task := s.counter + 1, s.tasks[t].(held := Some(s.counter + 1));
      var next, rest := Advance(id, task), s.tasks - {t};
      Run(steps + [Allocate(t)] + [Append(t)])
      == System(s.log + [NextRow(id, task)], id, if next.Some? then rest[t := next.value] else rest)
  {
    hide Advance, NextRow;
    var held := s.(counter := s.counter + 1, tasks := s.tasks[t := s.tasks[t].(held := Some(s.counter + 1))]);
    OneMoreStep(steps, Allocate(t), s);
    assert Run(steps + [Allocate(t)]) == held;
    assert held.tasks - {t} == s.tasks - {t};
    OneMoreStep(steps + [Allocate(t)], Append(t), held);
  }

  /** One thread executes an approved request that it has located, to the end. */
  function ExecuteSteps(steps: seq<Step>, v: nat): seq<Step> {
    steps + [CheckApproval(v, Applied)] + [Allocate(v)] + [Append(v)] + [Allocate(v)] + [Append(v)] + [Allocate(v)] + [Append(v)]
  }

  lemma ExecutionIsRecorded(steps: seq<Step>, s: System, v: nat, key: Key, request: nat)
    requires s == Run(steps) && v in s.tasks && s.tasks[v] == LocatedTask(key, request) && ScanApproves(s.log, key)
    ensures Run(ExecuteSteps(steps, v))
         == System(s.log + [ApplyAttemptRow(s.counter + 1, key, request)] + [ApplyResultRow(s.counter + 2, key, Applied)]
                   + [ReconciliationRow(s.counter + 3, key)],
                   s.counter + 3, s.tasks - {v})
  {
    hide Run, ScanApproves;
    var c := s.counter;
    var one := s.(tasks := s.tasks[v := ExecutionTask(key, request, Applied, None, None, None)]);
    OneMoreStep(steps, CheckApproval(v, Applied), s);
    var first := steps + [CheckApproval(v, Applied)];
    TaskWritesRow(first, one, v);
    var two := System(s.log + [ApplyAttemptRow(c + 1, key, request)], c + 1,
                      s.tasks[v := ExecutionTask(key, request, Applied, Some(c + 1), None, None)]);
    RestIsSame(s.tasks, v, one.tasks[v], two.tasks[v]);
    var second := first + [Allocate(v)] + [Append(v)];
    assert Run(second) == two;
    TaskWritesRow(second, two, v);
    var three := System(two.log + [ApplyResultRow(c + 2, key, Applied)], c + 2,
                        s.tasks[v := ExecutionTask(key, request, Applied, Some(c + 1), Some(c + 2), None)]);
    RestIsSame(s.tasks, v, two.tasks[v], three.tasks[v]);
    var third := second + [Allocate(v)] + [Append(v)];
    assert Run(third) == three;
    TaskWritesRow(third, three, v);
    RestIsSame(s.tasks, v, three.tasks[v], three.tasks[v]);
  }

  lemma RestIsSame(tasks: map<nat, Task>, v: nat, a: Task, b: Task)
    ensures (tasks[v := a] - {v})[v := b] == tasks[v := b] && tasks[v := a] - {v} == tasks - {v}
  {
  }

  /** Two threads check an approval, one writes it, a third executes the request, and then the other one writes. */
  function LateRace(steps: seq<Step>, key: Key, t: nat, u: nat, v: nat): seq<Step> {
    ExecuteSteps(ApproveAndLocate(steps, key, t, u, v), v) + [Allocate(u)] + [Append(u)]
  }

  function ApproveAndLocate(steps: seq<Step>, key: Key, t: nat, u: nat, v: nat): seq<Step> {
    steps + [CheckDecision(t, key, Approve)] + [CheckDecision(u, key, Approve)]
    + [Allocate(t)] + [Append(t)] + [LocateRequest(v, key)]
  }

  /**
   A second approval that races past the execution of its request takes the request out of
   every list: it is neither pending nor ready nor closed.
   */
  lemma RacedApprovalUnlists(steps: seq<Step>, key: Key, t: nat, u: nat, v: nat)
    requires MayDecide(Run(steps).log, key) && key.id != "" && key in Rebuild(Run(steps).log)
    requires t !in Run(steps).tasks && u !in Run(steps).tasks && v !in Run(steps).tasks && t != u && u != v && t != v
    ensures var state := Rebuild(Run(LateRace(steps, key, t, u, v)).log);
      key in state && !IsPending(state, key) && !IsReady(state, key) && !IsClosed(state, key)
  {
    var s := Run(steps);
    var request := FindRequest(s.log, key.id).value.1.operationId;
    var a, b := DecisionRow(s.counter + 1, key, Approve, request), DecisionRow(s.counter + 5, key, Approve, request);
    LateRaceLog(steps, s, key, t, u, v, request);
    hide Run, LateRace, FindRequest, MayDecide;
    ReconciledByExecution(s.log, key, a, s.counter + 1, request);
    DecisionOfKey(s.counter + 5, key, Approve, request);
    LateApprovalUnlists(s.log + [a] + [ApplyAttemptRow(s.counter + 2, key, request)]
                        + [ApplyResultRow(s.counter + 3, key, Applied)] + [ReconciliationRow(s.counter + 4, key)], b, key);
  }

  lemma LateRaceLog(steps: seq<Step>, s: System, key: Key, t: nat, u: nat, v: nat, request: nat)
    requires s == Run(steps) && MayDecide(s.log, key) && request == FindRequest(s.log, key.id).value.1.operationId
    requires t !in s.tasks && u !in s.tasks && v !in s.tasks && t != u && u != v && t != v
    ensures Run(LateRace(steps, key, t, u, v)).log
         == s.log + [DecisionRow(s.counter + 1, key, Approve, request)] + [ApplyAttemptRow(s.counter + 2, key, request)]
            + [ApplyResultRow(s.counter + 3, key, Applied)] + [ReconciliationRow(s.counter + 4, key)]
            + [DecisionRow(s.counter + 5, key, Approve, request)]
  {
    ApprovedAndLocated(steps, s, key, t, u, v, request);
    hide Run, MayDecide, FindRequest, FindDecision, ScanApproves, DecisionRow, ApplyAttemptRow, ApplyResultRow, ReconciliationRow,
         ExecuteSteps, ApproveAndLocate, Enabled, Take;
    var located := ApproveAndLocate(steps, key, t, u, v);
    ExecutionIsRecorded(located, Run(located), v, key, request);
    var executed := ExecuteSteps(located, v);
    CheckedIsRecorded(executed, Run(executed), u, key, Approve, request);
  }

  lemma ApprovedAndLocated(steps: seq<Step>, s: System, key: Key, t: nat, u: nat, v: nat, request: nat)
    requires s == Run(steps) && MayDecide(s.log, key) && request == FindRequest(s.log, key.id).value.1.operationId
    requires t !in s.tasks && u !in s.tasks && v !in s.tasks && t != u && u != v && t != v
    ensures Run(ApproveAndLocate(steps, key, t, u, v))
         == System(s.log + [DecisionRow(s.counter + 1, key, Approve, request)], s.counter + 1,
                   s.tasks[u := DecisionTask(key, Approve, request, None)][v := LocatedTask(key, request)])
    ensures ScanApproves(s.log + [DecisionRow(s.counter + 1, key, Approve, request)], key)
  {
    BothCheck(steps, s, key, t, u, Approve, Approve, request);
    var a := DecisionRow(s.counter + 1, key, Approve, request);
    StillLocated(s.log, key, a, request);
    hide Run, MayDecide, FindRequest, FindDecision, ScanApproves, DecisionRow;
    var checked := steps + [CheckDecision(t, key, Approve)] + [CheckDecision(u, key, Approve)];
    CheckedIsRecorded(checked, Run(checked), t, key, Approve, request);
    var approved := checked + [Allocate(t)] + [Append(t)];
    var after := System(s.log + [a], s.counter + 1, s.tasks[u := DecisionTask(key, Approve, request, None)]);
    OneTaskLess(s.tasks, t, DecisionTask(key, Approve, request, None), u, DecisionTask(key, Approve, request, None));
    assert Run(approved) == after;
    OneMoreStep(approved, LocateRequest(v, key), after);
  }

  lemma OneTaskLess(tasks: map<nat, Task>, t: nat, a: Task, u: nat, b: Task)
    requires t !in tasks && t != u
    ensures tasks[t := a][u := b] - {t} == tasks[u := b]
  {
  }

  /** A decision row does not change which request is found, and an approval is found at once. */
  lemma StillLocated(log: seq<Row>, key: Key, row: Row, request: nat)
    requires MayDecide(log, key) && request == FindRequest(log, key.id).value.1.operationId
    requires row == DecisionRow(row.operationId, key, Approve, request)
    ensures FindRequest(log + [row], key.id) == FindRequest(log, key.id)
    ensures FindRequest(log, key.id).Some? && FindRequest(log, key.id).value.0 == key.lane
    ensures ScanApproves(log + [row], key)
  {
    assert (log + [row])[..|log|] == log;
  }

  lemma ReconciledByExecution(rows: seq<Row>, key: Key, approval: Row, counter: nat, request: nat)
    requires key.id != "" && key in Rebuild(rows)
    requires approval == DecisionRow(approval.operationId, key, Approve, request)
    ensures var after := rows + [approval] + [ApplyAttemptRow(counter + 1, key, request)]
                         + [ApplyResultRow(counter + 2, key, Applied)] + [ReconciliationRow(counter + 3, key)];
      key in Rebuild(after) && Rebuild(after)[key].reconciled
  {
    hide Rebuild, ApplyRow;
    var attempt, result, reconciliation :=
      ApplyAttemptRow(counter + 1, key, request), ApplyResultRow(counter + 2, key, Applied), ReconciliationRow(counter + 3, key);
    GrowthOfProjection(rows, approval);
    DecisionStep(Rebuild(rows), approval, key);
    GrowthOfProjection(rows + [approval], attempt);
    ExecutionStep(Rebuild(rows + [approval]), attempt, key);
    GrowthOfProjection(rows + [approval] + [attempt], result);
    ExecutionStep(Rebuild(rows + [approval] + [attempt]), result, key);
    GrowthOfProjection(rows + [approval] + [attempt] + [result], reconciliation);
    ExecutionStep(Rebuild(rows + [approval] + [attempt] + [result]), reconciliation, key);
  }

  /** A tool request that reuses the id of a decided patch request hides the decision. */
  lemma ReusedIdHidesDecision(id: string, decision: Decision, counter: nat)
    requires id != ""
    ensures var key := Key(PatchLane, id);
      var request := KeyRow(1, Request(PatchLane), Proposed, None, key, true);
      var approval := DecisionRow(2, key, Approve, 1);
      var reuse := KeyRow(3, Request(ToolLane), Proposed, None, Key(ToolLane, id), true);
      var rows := [request, approval, reuse];
      && WellFormed(rows, true) && UniqueIds(rows)
      && FindDecision(rows, key) == Some(approval)
      && DecisionEffect(rows, counter, key, Some(decision), true) == (WrongLane(ToolLane), rows)
  {
    var key := Key(PatchLane, id);
    var request := KeyRow(1, Request(PatchLane), Proposed, None, key, true);
    var approval := DecisionRow(2, key, Approve, 1);
    var reuse := KeyRow(3, Request(ToolLane), Proposed, None, Key(ToolLane, id), true);
    var rows := [request, approval, reuse];
    RequestThenApproval(key, request, approval);
    assert Justified([request, approval], reuse, true);
    ThreeRows(request, approval, reuse);
    LastDecisionIsFound(rows, key, 1);
    LastRequestIsFound(rows, id, 2);
  }

  // ---------------------------------------------------------------------
  // What an execution applies
  // ---------------------------------------------------------------------

  /**
   The request that an execution finds is the one that the decision was made on exactly
   when no request row with the id, of either lane, follows the decision.
   */
  lemma {:induction false} ExecutedRequestIsDecidedExactly(rows: seq<Row>, key: Key, j: nat, request: Row)
    requires key.id != "" && WellFormed(rows, true) && UniqueIds(rows)
    requires j < |rows| && IsDecision(rows[j], key)
    requires FindRequest(rows, key.id) == Some((key.lane, request))
    ensures rows[j].parent == Some(request.operationId)
       <==> forall k :: j <= k < |rows| ==> !RequestsId(rows[k], key.id)
  {
    assert Justified(rows[..j], rows[j], true);
    if k :| j <= k < |rows| && RequestsId(rows[k], key.id) {
      var last := LastPlace(rows, key.id, k);
      LastRequestIsFound(rows, key.id, last);
      var decided := FoundPlace(rows[..j], key.id);
      assert rows[decided].operationId != rows[last].operationId;
    } else {
      FoundStays(rows, key.id, j);
    }
  }

  /** An execution does not use up the approval: afterwards the same requests may be executed as before, its own included. */
  lemma ApprovalIsNotUsedUp(rows: seq<Row>, executed: Key, key: Key, actor: string, counter: nat, request: nat,
                            outcome: Status)
    ensures var after := rows + ExecutionRows(counter, executed, request, outcome);
      && FindRequest(after, key.id) == FindRequest(rows, key.id)
      && (MayExecute(after, key, actor) <==> MayExecute(rows, key, actor))
  {
    var more := ExecutionRows(counter, executed, request, outcome);
    var after := rows + more;
    assert after[..|rows|] == rows && after[|rows|..] == more;
    forall k | |rows| <= k < |after|
      ensures !RequestsId(after[k], key.id) && !IsDecision(after[k], key)
    {
      assert after[k] == more[k - |rows|];
    }
    FoundStays(after, key.id, |rows|);
    DecisionFoundStays(after, key, |rows|);
  }

  lemma {:induction false} DecisionFoundStays(rows: seq<Row>, key: Key, n: nat)
    requires n <= |rows| && forall k :: n <= k < |rows| ==> !IsDecision(rows[k], key)
    ensures FindDecision(rows, key) == FindDecision(rows[..n], key)
  {
    if n == |rows| {
      assert rows[..n] == rows;
    } else {
      var front := rows[..|rows| - 1];
      assert front[..n] == rows[..n];
      DecisionFoundStays(front, key, n);
    }
  }

  /** Asking again under an approved id is enough: the approval of row 1 lets row 3 be executed. */
  lemma ReusedIdIsExecuted(id: string, actor: string)
    requires id != "" && Strings.Strip(actor) != ""
    ensures var key := Key(PatchLane, id);
      var request := KeyRow(1, Request(PatchLane), Proposed, None, key, true);
      var approval := DecisionRow(2, key, Approve, 1);
      var again := KeyRow(3, Request(PatchLane), Proposed, None, key, true);
      var rows := [request, approval, again];
      && WellFormed(rows, true) && UniqueIds(rows)
      && MayExecute(rows, key, actor) && FindRequest(rows, id) == Some((PatchLane, again))
  {
    var key := Key(PatchLane, id);
    var request := KeyRow(1, Request(PatchLane), Proposed, None, key, true);
    var approval := DecisionRow(2, key, Approve, 1);
    var again := KeyRow(3, Request(PatchLane), Proposed, None, key, true);
    var rows := [request, approval, again];
    RequestThenApproval(key, request, approval);
    assert Justified([request, approval], again, true);
    ThreeRows(request, approval, again);
    LastDecisionIsFound(rows, key, 1);
    LastRequestIsFound(rows, id, 2);
  }

  lemma RequestThenApproval(key: Key, request: Row, approval: Row)
    requires key.id != "" && request == KeyRow(1, Request(key.lane), Proposed, None, key, true)
    requires approval == DecisionRow(2, key, Approve, 1)
    ensures Justified([], request, true) && Justified([request], approval, true)
  {
    assert IsRequest([request][0], key);
    assert [request][..0] == [];
    assert FindDecision([request], key) == FindDecision([], key);
    LastRequestIsFound([request], key.id, 0);
  }

  lemma ThreeRows(a: Row, b: Row, c: Row)
    requires Justified([], a, true) && Justified([a], b, true) && Justified([a, b], c, true)
    ensures WellFormed([a, b, c], true)
  {
    var rows := [a, b, c];
    assert rows[..0] == [] && rows[..1] == [a] && rows[..2] == [a, b];
  }
}
