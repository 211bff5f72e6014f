/**
 The operation ledger: its rows, its projections and its reverse scans.

 Models `_rebuild_request_projections`, `_find_request_operation` and
 `_find_decision_record` of runtime_core/comms_server.py. The patch lane and the tool
 lane run the same code over two dictionaries; here one dictionary is keyed by lane and id.
 */
module OperationLedger {
  import opened Results
  import opened Sequences

  datatype Lane = PatchLane | ToolLane

  datatype Status =
    | Proposed | Approved | Denied | Applied | Executed | Failed | RolledBack | Superseded | Reconciled

  datatype Decision = Approve | Deny

  datatype OperationType =
    | IdeExecute
    | ExecutionAttempt
    | Request(lane: Lane)
    | DecisionOn(lane: Lane)
    | ApplyAttempt(lane: Lane)
    | ApplyResult(lane: Lane)
    | Reconciliation

  /**
   One line of the ledger. An absent reference is the empty string; `runnable` says that a
   request row lists patch ids or callable tools.
   */
  datatype Row = Row(
    operationId: nat,
    operationType: OperationType,
    status: Status,
    parent: Option<nat>,
    patchRef: string,
    toolRef: string,
    requestId: string,
    decision: Option<Decision>,
    runnable: bool)

  datatype Key = Key(lane: Lane, id: string)

  function Ref(row: Row, lane: Lane): string {
    if lane.PatchLane? then row.patchRef else row.toolRef
  }

  /** REQUEST_TERMINAL_STATUSES: every lifecycle status but `proposed`. */
  predicate Terminal(status: Status) {
    !status.Proposed?
  }

  // ---------------------------------------------------------------------
  // Which rows concern a key
  // ---------------------------------------------------------------------

  predicate IsRequest(row: Row, key: Key) {
    row.operationType == Request(key.lane) && Ref(row, key.lane) == key.id
  }

  /** A request row that the projection accepts. */
  predicate Introduces(row: Row, key: Key) {
    IsRequest(row, key) && key.id != "" && row.runnable
  }

  predicate IsDecision(row: Row, key: Key) {
    row.operationType == DecisionOn(key.lane) && row.requestId == key.id
  }

  predicate IsAttempt(row: Row, key: Key) {
    row.operationType == ApplyAttempt(key.lane) && Ref(row, key.lane) == key.id
  }

  predicate IsResult(row: Row, key: Key) {
    row.operationType == ApplyResult(key.lane) && Ref(row, key.lane) == key.id
  }

  predicate IsReconciliation(row: Row, key: Key) {
    row.operationType.Reconciliation? && Ref(row, key.lane) == key.id
  }

  predicate Introduced(rows: seq<Row>, key: Key) {
    exists i :: 0 <= i < |rows| && Introduces(rows[i], key)
  }

  predicate Requested(rows: seq<Row>, key: Key) {
    exists i :: 0 <= i < |rows| && IsRequest(rows[i], key)
  }

  predicate Attempted(rows: seq<Row>, key: Key) {
    exists i :: 0 <= i < |rows| && IsAttempt(rows[i], key)
  }

  predicate Resulted(rows: seq<Row>, key: Key) {
    exists i :: 0 <= i < |rows| && IsResult(rows[i], key)
  }

  predicate WasReconciled(rows: seq<Row>, key: Key) {
    exists i :: 0 <= i < |rows| && IsReconciliation(rows[i], key)
  }

  predicate WasApproved(rows: seq<Row>, key: Key) {
    exists i :: 0 <= i < |rows| && IsDecision(rows[i], key) && rows[i].decision == Some(Approve)
  }

  // ---------------------------------------------------------------------
  // Reverse scans
  // ---------------------------------------------------------------------

  /** `_find_request_operation`: the lane and row of the last request with this id, of either lane. */
  function FindRequest(rows: seq<Row>, id: string): Option<(Lane, Row)> {
    if rows == [] || id == "" then None
    else
      var last := rows[|rows| - 1];
      if IsRequest(last, Key(PatchLane, id)) then Some((PatchLane, last))
      else if IsRequest(last, Key(ToolLane, id)) then Some((ToolLane, last))
      else FindRequest(rows[..|rows| - 1], id)
  }

  /** A request row with this id, of either lane. */
  predicate RequestsId(row: Row, id: string) {
    IsRequest(row, Key(PatchLane, id)) || IsRequest(row, Key(ToolLane, id))
  }

  /** The last request row with this id. */
  predicate LastRequestAt(rows: seq<Row>, id: string, i: nat) {
    i < |rows| && RequestsId(rows[i], id) && forall j :: i < j < |rows| ==> !RequestsId(rows[j], id)
  }

  /** The last decision row of the key. */
  predicate LastDecisionAt(rows: seq<Row>, key: Key, i: nat) {
    i < |rows| && IsDecision(rows[i], key) && forall j :: i < j < |rows| ==> !IsDecision(rows[j], key)
  }

  /** `_find_decision_record`: the last decision row of the lane with this request id. */
  function FindDecision(rows: seq<Row>, key: Key): Option<Row> {
    if rows == [] then None
    else if IsDecision(rows[|rows| - 1], key) then Some(rows[|rows| - 1])
    else FindDecision(rows[..|rows| - 1], key)
  }

  predicate ScanApproves(rows: seq<Row>, key: Key) {
    var found := FindDecision(rows, key);
    found.Some? && found.value.decision == Some(Approve)
  }

  // ---------------------------------------------------------------------
  // The projection as a fold
  // ---------------------------------------------------------------------

  /** What the projection keeps for a request it has seen. */
  datatype Projection = Projection(
    approved: bool,
    reconciled: bool,
    closed: Option<Status>,
    requestOperation: nat,
    closedOperation: Option<nat>)

  type Projections = map<Key, Projection>

  function Opened(row: Row): Projection {
    Projection(false, false, None, row.operationId, None)
  }

  function Close(p: Projection, status: Status, row: Row): Projection {
    p.(closed := Some(status), closedOperation := Some(row.operationId))
  }

  function DecisionKey(row: Row, lane: Lane): Key {
    Key(lane, if row.requestId != "" then row.requestId else Ref(row, lane))
  }

  function Decide(p: Projection, row: Row): Projection {
    match row.decision
    case Some(Approve) => p.(approved := true, closed := None, closedOperation := None)
    case Some(Deny) => Close(p.(approved := false), Denied, row)
    case None => p
  }

  function Touch(state: Projections, row: Row, lane: Lane): Projections {
    var key := Key(lane, Ref(row, lane));
    if key.id == "" || key !in state then state
    else if row.operationType.Reconciliation? then
      state[key := Close(state[key].(reconciled := true), Reconciled, row)]
    else if Terminal(row.status) then state[key := Close(state[key], row.status, row)]
    else state
  }

  function ApplyRow(state: Projections, row: Row): Projections {
    match row.operationType
    case Request(lane) =>
      var key := Key(lane, Ref(row, lane));
      if key.id == "" || !row.runnable then state
      else
        var seen := if key in state then state[key].(requestOperation := row.operationId) else Opened(row);
        state[key := if Terminal(row.status) && !row.status.Approved? then Close(seen, row.status, row) else seen]
    case DecisionOn(lane) =>
      var key := DecisionKey(row, lane);
      if key.id == "" || key !in state then state else state[key := Decide(state[key], row)]
    case _ => Touch(Touch(state, row, PatchLane), row, ToolLane)
  }

  function Rebuild(rows: seq<Row>): Projections {
    if rows == [] then map[] else ApplyRow(Rebuild(rows[..|rows| - 1]), rows[|rows| - 1])
  }

  predicate IsPending(state: Projections, key: Key) {
    key in state && state[key].closed.None? && !state[key].approved
  }

  predicate IsReady(state: Projections, key: Key) {
    key in state && state[key].approved && !state[key].reconciled
  }

  predicate IsClosed(state: Projections, key: Key) {
    key in state && state[key].closed.Some?
  }

  // ---------------------------------------------------------------------
  // Recovery warnings
  // ---------------------------------------------------------------------

  datatype Warning =
    | DuplicateOperationId(operationId: nat)
    | InvalidRequestReference(operationId: nat)
    | InvalidDecisionReference(operationId: nat)
    | OrphanDecision(operationId: nat)
    | OrphanReconciliation(operationId: nat)

  predicate IdSeen(rows: seq<Row>, id: nat) {
    exists i :: 0 <= i < |rows| && rows[i].operationId == id
  }

  function ReferenceWarnings(state: Projections, row: Row): seq<Warning> {
    match row.operationType
    case Request(lane) =>
      if Ref(row, lane) == "" || !row.runnable then [InvalidRequestReference(row.operationId)] else []
    case DecisionOn(lane) =>
      var key := DecisionKey(row, lane);
      if key.id == "" then [InvalidDecisionReference(row.operationId)]
      else if key !in state then [OrphanDecision(row.operationId)]
      else []
    case Reconciliation =>
      if (row.patchRef != "" && Key(PatchLane, row.patchRef) in state)
         || (row.toolRef != "" && Key(ToolLane, row.toolRef) in state)
      then [] else [OrphanReconciliation(row.operationId)]
    case _ => []
  }

  function Warnings(rows: seq<Row>): seq<Warning> {
    if rows == [] then []
    else
      var before, row := rows[..|rows| - 1], rows[|rows| - 1];
      Warnings(before)
      + (if IdSeen(before, row.operationId) then [DuplicateOperationId(row.operationId)] else [])
      + ReferenceWarnings(Rebuild(before), row)
  }

  // ---------------------------------------------------------------------
  // The loops
  // ---------------------------------------------------------------------

  datatype ProjectionReport = ProjectionReport(
    lastOperation: Option<nat>,
    pending: seq<Key>,
    ready: seq<Key>,
    closed: seq<Key>,
    warnings: seq<Warning>)

  ghost predicate Lists(keys: seq<Key>, state: Projections, member: Key -> bool) {
    forall key :: key in keys <==> key in state && member(key)
  }

  /** `_rebuild_request_projections`. */
  method RebuildRequestProjections(rows: seq<Row>) returns (state: Projections, report: ProjectionReport)
    ensures state == Rebuild(rows)
    ensures report.lastOperation == if rows == [] then None else Some(rows[|rows| - 1].operationId)
    ensures report.warnings == Warnings(rows)
    ensures Lists(report.pending, state, key => IsPending(state, key))
    ensures Lists(report.ready, state, key => IsReady(state, key))
    ensures Lists(report.closed, state, key => IsClosed(state, key))
  {
    hide Rebuild, Warnings, ApplyRow, ReferenceWarnings, IdSeen, NewKeys, IsPending, IsReady, IsClosed;
    NothingYet();
    state := map[];
    var order: seq<Key>, seen: set<nat>, warnings, last := [], {}, [], None;
    for i := 0 to |rows|
      invariant state == Rebuild(rows[..i]) && warnings == Warnings(rows[..i])
      invariant last == if i == 0 then None else Some(rows[i - 1].operationId)
      invariant forall id :: id in seen <==> IdSeen(rows[..i], id)
      invariant forall key :: key in order <==> key in state
    {
      var row := rows[i];
      OneMoreRow(rows, i);
      RowAddsKeys(state, row);
      last := Some(row.operationId);
      if row.operationId in seen {
        warnings := warnings + [DuplicateOperationId(row.operationId)];
      }
      seen := seen + {row.operationId};
      warnings := warnings + ReferenceWarnings(state, row);
      order := order + NewKeys(state, row);
      state := ApplyRow(state, row);
    }
    assert rows[..|rows|] == rows;
    report := ReportOf(state, order, last, warnings);
  }

  /** The lists of the report, in the order in which the requests were first seen. */
  method ReportOf(state: Projections, order: seq<Key>, last: Option<nat>, warnings: seq<Warning>)
    returns (report: ProjectionReport)
    requires forall key :: key in order <==> key in state
    ensures report.lastOperation == last && report.warnings == warnings
    ensures Lists(report.pending, state, key => IsPending(state, key))
    ensures Lists(report.ready, state, key => IsReady(state, key))
    ensures Lists(report.closed, state, key => IsClosed(state, key))
  {
    FilterMembers(order, key => IsPending(state, key));
    FilterMembers(order, key => IsReady(state, key));
    FilterMembers(order, key => IsClosed(state, key));
    report := ProjectionReport(last,
                               Filter(order, key => IsPending(state, key)),
                               Filter(order, key => IsReady(state, key)),
                               Filter(order, key => IsClosed(state, key)),
                               warnings);
  }

  lemma SeenGrows(rows: seq<Row>, row: Row)
    ensures forall id :: IdSeen(rows + [row], id) <==> IdSeen(rows, id) || id == row.operationId
  {
    forall id
      ensures IdSeen(rows + [row], id) <==> IdSeen(rows, id) || id == row.operationId
    {
      if IdSeen(rows, id) {
        var i :| 0 <= i < |rows| && rows[i].operationId == id;
        assert (rows + [row])[i].operationId == id;
      }
      if id == row.operationId {
        assert (rows + [row])[|rows|].operationId == id;
      }
    }
  }

  /** The key of an accepted request row that is not in the projection yet. */
  function NewKeys(state: Projections, row: Row): seq<Key> {
    if !row.operationType.Request? then []
    else
      var key := Key(row.operationType.lane, Ref(row, row.operationType.lane));
      if key.id != "" && row.runnable && key !in state then [key] else []
  }

  /** No other row adds a key. */
  lemma RowAddsKeys(state: Projections, row: Row)
    ensures var after := ApplyRow(state, row);
      forall key :: key in after <==> key in state || key in NewKeys(state, row)
  {
  }

  lemma NothingYet()
    ensures Rebuild([]) == map[] && Warnings([]) == [] && forall id :: !IdSeen([], id)
  {
  }

  lemma OneMoreRow(rows: seq<Row>, i: nat)
    requires i < |rows|
    ensures var before, row := rows[..i], rows[i];
      && Rebuild(rows[..i + 1]) == ApplyRow(Rebuild(before), row)
      && Warnings(rows[..i + 1])
         == Warnings(before) + (if IdSeen(before, row.operationId) then [DuplicateOperationId(row.operationId)] else [])
            + ReferenceWarnings(Rebuild(before), row)
      && forall id :: IdSeen(rows[..i + 1], id) <==> IdSeen(before, id) || id == row.operationId
  {
    hide ApplyRow, ReferenceWarnings, IdSeen;
    assert rows[..i + 1][..i] == rows[..i];
    assert rows[..i + 1] == rows[..i] + [rows[i]];
    SeenGrows(rows[..i], rows[i]);
  }

  /** `_find_request_operation`: the last request row with the id, or that there is none. */
  method FindRequestOperation(rows: seq<Row>, id: string) returns (found: Option<(Lane, Row)>)
    ensures found == FindRequest(rows, id)
    ensures found.None? ==> id == "" || forall i :: 0 <= i < |rows| ==> !RequestsId(rows[i], id)
    ensures found.Some? ==>
      && IsRequest(found.value.1, Key(found.value.0, id))
      && exists i: nat :: LastRequestAt(rows, id, i) && rows[i] == found.value.1
  {
    if id == "" {
      return None;
    }
    assert rows[..|rows|] == rows;
    for i := |rows| downto 0
      invariant FindRequest(rows, id) == FindRequest(rows[..i], id)
      invariant forall j :: i <= j < |rows| ==> !RequestsId(rows[j], id)
    {
      assert rows[..i + 1][..i] == rows[..i];
      assert RequestsId(rows[i], id) ==> LastRequestAt(rows, id, i);
      if IsRequest(rows[i], Key(PatchLane, id)) {
        return Some((PatchLane, rows[i]));
      }
      if IsRequest(rows[i], Key(ToolLane, id)) {
        return Some((ToolLane, rows[i]));
      }
    }
    return None;
  }

  /** `_find_decision_record`: the last decision row of the key, or that there is none. */
  method FindDecisionRecord(rows: seq<Row>, key: Key) returns (found: Option<Row>)
    ensures found == FindDecision(rows, key)
    ensures found.None? ==> forall i :: 0 <= i < |rows| ==> !IsDecision(rows[i], key)
    ensures found.Some? ==> exists i: nat :: LastDecisionAt(rows, key, i) && rows[i] == found.value
  {
    assert rows[..|rows|] == rows;
    for i := |rows| downto 0
      invariant FindDecision(rows, key) == FindDecision(rows[..i], key)
      invariant forall j :: i <= j < |rows| ==> !IsDecision(rows[j], key)
    {
      assert rows[..i + 1][..i] == rows[..i];
      assert IsDecision(rows[i], key) ==> LastDecisionAt(rows, key, i);
      if IsDecision(rows[i], key) {
        return Some(rows[i]);
      }
    }
    return None;
  }

  /** A request row that no other of its id follows is the one found. */
  lemma {:induction false} LastRequestIsFound(rows: seq<Row>, id: string, i: nat)
    requires id != "" && LastRequestAt(rows, id, i)
    ensures FindRequest(rows, id) == Some((if IsRequest(rows[i], Key(PatchLane, id)) then PatchLane else ToolLane, rows[i]))
  {
    if i < |rows| - 1 {
      LastRequestIsFound(rows[..|rows| - 1], id, i);
    }
  }

  lemma {:induction false} LastDecisionIsFound(rows: seq<Row>, key: Key, i: nat)
    requires LastDecisionAt(rows, key, i)
    ensures FindDecision(rows, key) == Some(rows[i])
  {
    if i < |rows| - 1 {
      LastDecisionIsFound(rows[..|rows| - 1], key, i);
    }
  }

  /** Rows that request no such id change nothing in what is found. */
  lemma {:induction false} FoundStays(rows: seq<Row>, id: string, n: nat)
    requires n <= |rows| && forall k :: n <= k < |rows| ==> !RequestsId(rows[k], id)
    ensures FindRequest(rows, id) == FindRequest(rows[..n], id)
  {
    if n == |rows| {
      assert rows[..n] == rows;
    } else {
      var front := rows[..|rows| - 1];
      assert front[..n] == rows[..n];
      FoundStays(front, id, n);
    }
  }
}
