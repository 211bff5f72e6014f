/**
 The handlers that write the ledger and apply patches.

 Models the handler state of `create_handler` in runtime_core/comms_server.py and its
 `_record_operation`, `_handle_decision_submission` and `_handle_patch_execution`, each
 run to its end by one thread. LedgerProtocol treats the interleavings.
 */
module LedgerHandlers {
  import opened Results
  import opened Strings
  import opened JsonValues
  import opened Workspace
  import opened OperationLedger
  import opened LedgerProjection
  import opened LedgerProtocol
  import PatchPlan
  import PatchExecution
  import PatchValidation
  import AtomicCommit

  datatype DecisionResponse =
    | MissingField
    | RequestNotFound
    | WrongLane(actual: Lane)
    | ConflictingDecision(existing: Option<Decision>)
    | Receipt(row: Row)

  datatype ExecutionResponse =
    | BadRequest
    | NoSuchRequest
    | NotAPatchRequest
    | NotApproved
    | PatchesApplied
    | PatchesFailed(reason: string, patchId: Option<string>, rolledBack: bool)

  /** `decision.strip().lower()`. */
  function ParseDecision(s: string): Option<Decision> {
    var d := Lower(Strip(s));
    if d == "approved" then Some(Approve) else if d == "denied" then Some(Deny) else None
  }

  /** What submitting a decision answers, and the ledger it leaves. */
  function DecisionEffect(rows: seq<Row>, counter: nat, key: Key, decision: Option<Decision>, complete: bool)
    : (DecisionResponse, seq<Row>)
  {
    if key.id == "" || decision.None? || !complete then (MissingField, rows)
    else Submitted(rows, counter, key, decision.value)
  }

  /** What a complete submission answers, and the ledger it leaves. */
  function Submitted(rows: seq<Row>, counter: nat, key: Key, decision: Decision): (DecisionResponse, seq<Row>) {
    var request, existing := FindRequest(rows, key.id), FindDecision(rows, key);
    if request.None? then (RequestNotFound, rows)
    else if request.value.0 != key.lane then (WrongLane(request.value.0), rows)
    else if existing.Some? && existing.value.decision == Some(decision) then (Receipt(existing.value), rows)
    else if existing.Some? then (ConflictingDecision(existing.value.decision), rows)
    else
      var row := DecisionRow(counter + 1, key, decision, request.value.1.operationId);
      (Receipt(row), rows + [row])
  }

  /** The rows of one execution: attempt, result, reconciliation. */
  function ExecutionRows(counter: nat, key: Key, request: nat, outcome: Status): seq<Row> {
    [ApplyAttemptRow(counter + 1, key, request), ApplyResultRow(counter + 2, key, outcome), ReconciliationRow(counter + 3, key)]
  }

  function ApplyAttemptRow(id: nat, key: Key, request: nat): Row {
    KeyRow(id, ApplyAttempt(key.lane), Executed, Some(request), key, false)
  }

  /** The result of the attempt under the number before. */
  function ApplyResultRow(id: nat, key: Key, outcome: Status): Row
    requires id > 0
  {
    KeyRow(id, ApplyResult(key.lane), outcome, Some(id - 1), key, false)
  }

  /** The reconciliation of the result under the number before. */
  function ReconciliationRow(id: nat, key: Key): Row
    requires id > 0
  {
    KeyRow(id, Reconciliation, Reconciled, Some(id - 1), key, false)
  }

  /** What an execution needs of the UUID supply: enough of them, none in use and none in a name of or above a target. */
  ghost predicate FreshSupply(tree: Tree, root: seq<string>, patches: seq<PatchPlan.Patch>, uuids: seq<Uuid>) {
    && AtomicCommit.Distinct(uuids) && |uuids| >= 2 * |patches|
    && (forall p :: p in tree ==> !Fresh(p, uuids))
    && (forall p :: p in PatchPlan.TouchedPaths(root, patches) ==> !Fresh(p, uuids))
    && (forall d :: d in PatchExecution.Parents(PatchPlan.TouchedPaths(root, patches)) ==> !Fresh(d, uuids))
  }

  function FirstId(patches: seq<PatchPlan.Patch>): Option<string> {
    if patches == [] then None else PatchPlan.PatchIdOf(patches[0])
  }

  /**
   What an execution answers and leaves. If the patches cannot be read back, or the plan
   refuses one, it names the reason and the patch and touches nothing. If nothing stands in
   the way and no fault strikes before the commit is over, it leaves the executed patches.
   Otherwise it names the error and the first patch and shows every file as it was, with
   nothing new but directories above the patched paths.
   */
  ghost predicate Outcome(before: Tree, after: Tree, root: seq<string>, unreadable: set<Path>,
                          patches: Result<seq<PatchPlan.Patch>, string>, listed: Option<string>, uuids: seq<Uuid>,
                          fault: AtomicCommit.Fault, response: ExecutionResponse)
  {
    match patches
    case Failure(reason) => response == PatchesFailed(reason, listed, false) && after == before
    case Success(read) =>
      var kept := OnlyDirectoriesAdded(before, UserView(after, uuids), PatchExecution.Parents(PatchPlan.TouchedPaths(root, read)));
      match PatchExecution.Execute(before, root, unreadable, read)
      case Refused(i, reason) => response == PatchesFailed(reason, PatchPlan.PatchIdOf(read[i]), false) && after == before
      case Done(result) =>
        if AtomicCommit.HitsBefore(fault, PatchExecution.CommitSteps(before, root, unreadable, read)) then
          response == PatchesFailed(AtomicCommit.ErrorName(fault.error), FirstId(read), true) && kept
        else
          response == PatchesApplied && after == result
      case CommitFailed(reason) =>
        && (response == PatchesFailed(reason, FirstId(read), true)
            || (fault.Fault? && response == PatchesFailed(AtomicCommit.ErrorName(fault.error), FirstId(read), true)))
        && kept
  }

  function BodyRow(id: nat): Row {
    Row(id, IdeExecute, Proposed, None, "", "", "", None, false)
  }

  function PatchRequestRow(id: nat, ide: nat, request: PatchValidation.PatchRequest): Row {
    KeyRow(id, Request(PatchLane), Proposed, Some(ide), Key(PatchLane, request.requestId), request.patchIds != [])
  }

  /** The rows of the requests of one body, under the numbers after that of its own row. */
  function RequestRows(ide: nat, requests: seq<PatchValidation.PatchRequest>): seq<Row> {
    seq(|requests|, k requires 0 <= k < |requests| => PatchRequestRow(ide + 1 + k, ide, requests[k]))
  }

  /** The records of the requests join the others, from the number `first` on. */
  ghost predicate AddsRecords(before: map<nat, PatchValidation.RequestRecord>, after: map<nat, PatchValidation.RequestRecord>,
                              first: nat, requests: seq<PatchValidation.PatchRequest>, patches: seq<PatchPlan.Patch>)
  {
    && (forall id :: first <= id < first + |requests| ==>
          id in after && after[id] == PatchValidation.RecordRequest(requests[id - first], patches))
    && (forall id :: id in before && id < first ==> id in after && after[id] == before[id])
  }

  /** The record reads back as one patch of the body per listed id, in order. */
  ghost predicate ReadsBack(record: PatchValidation.RequestRecord, ids: seq<string>, patches: seq<PatchPlan.Patch>) {
    var read := PatchValidation.Extracted(record);
    read.Success? && PatchValidation.PickedInOrder(ids, read.value, patches)
  }

  ghost predicate AllReadBack(records: map<nat, PatchValidation.RequestRecord>, first: nat,
                              requests: seq<PatchValidation.PatchRequest>, patches: seq<PatchPlan.Patch>)
  {
    forall id :: first <= id < first + |requests| ==>
      id in records && ReadsBack(records[id], requests[id - first].patchIds, patches)
  }

  lemma RecordsReadBack(before: map<nat, PatchValidation.RequestRecord>, records: map<nat, PatchValidation.RequestRecord>,
                        first: nat, requests: seq<PatchValidation.PatchRequest>, patches: seq<PatchPlan.Patch>)
    requires AddsRecords(before, records, first, requests, patches) && PatchValidation.ProperIds(patches)
    requires forall k :: 0 <= k < |requests| ==> PatchValidation.ProperRequest(requests[k], patches)
    ensures AllReadBack(records, first, requests, patches)
  {
    hide PatchValidation.ProperIds, PatchValidation.ProperRequest;
    forall id | first <= id < first + |requests|
      ensures id in records && ReadsBack(records[id], requests[id - first].patchIds, patches)
    {
      PatchValidation.RecordedRequestReadsBack(requests[id - first], patches);
    }
  }

  /** Every patch request row has the record of a request that a handler accepted. */
  ghost predicate Recorded(rows: seq<Row>, records: map<nat, PatchValidation.RequestRecord>) {
    forall i :: 0 <= i < |rows| && rows[i].operationType == Request(PatchLane) ==>
      rows[i].operationId in records && PatchValidation.HandlerRecord(records[rows[i].operationId])
  }

  /** Other rows do not need a record. */
  lemma RecordedGrows(rows: seq<Row>, row: Row, records: map<nat, PatchValidation.RequestRecord>)
    requires row.operationType != Request(PatchLane)
    ensures Recorded(rows, records) ==> Recorded(rows + [row], records)
  {
  }

  /** The patches of a recorded request row are found. */
  lemma RecordedIsRead(rows: seq<Row>, records: map<nat, PatchValidation.RequestRecord>, row: Row)
    requires Recorded(rows, records) && row in rows && row.operationType == Request(PatchLane)
    ensures row.operationId in records && PatchValidation.Extracted(records[row.operationId]).Success?
  {
    PatchValidation.HandlerRecordReadsBack(records[row.operationId]);
  }

  lemma ExecutionKeepsRecords(rows: seq<Row>, counter: nat, key: Key, request: nat, outcome: Status,
                              records: map<nat, PatchValidation.RequestRecord>)
    ensures Recorded(rows, records) ==> Recorded(rows + ExecutionRows(counter, key, request, outcome), records)
  {
    var more := ExecutionRows(counter, key, request, outcome);
    assert forall i :: |rows| <= i < |rows + more| ==> (rows + more)[i] == more[i - |rows|];
  }

  /** An execution of patches that were found does not fail for lack of them. */
  lemma FoundReasons(before: Tree, after: Tree, root: seq<string>, unreadable: set<Path>, read: seq<PatchPlan.Patch>,
                     listed: Option<string>, uuids: seq<Uuid>, fault: AtomicCommit.Fault, response: ExecutionResponse)
    requires Outcome(before, after, root, unreadable, Success(read), listed, uuids, fault, response)
    ensures response.PatchesFailed? ==> response.reason != PatchValidation.PATCH_NOT_FOUND
  {
    hide PatchExecution.Execute;
    PatchExecution.RefusalReasons(before, root, unreadable, read);
  }

  /**
   When nothing obstructs the patched paths and no fault strikes, executing a request is
   patching the disk one by one: the same patch is named for the same reason and nothing
   changes, or the same files are there in the end.
   */
  lemma UnobstructedOutcome(before: Tree, after: Tree, root: seq<string>, unreadable: set<Path>,
                            read: seq<PatchPlan.Patch>, listed: Option<string>, uuids: seq<Uuid>, response: ExecutionResponse)
    requires Outcome(before, after, root, unreadable, Success(read), listed, uuids, AtomicCommit.NoFault, response)
    requires PatchExecution.Unobstructed(before, PatchPlan.TouchedPaths(root, read))
    ensures match PatchExecution.PatchAllOnDisk(before, root, unreadable, read)
      case Rejected(i, reason) => response == PatchesFailed(reason, PatchPlan.PatchIdOf(read[i]), false) && after == before
      case Applied(disk) => response == PatchesApplied && FilesOf(after) == FilesOf(disk)
  {
    hide PatchExecution.Unobstructed, PatchExecution.Execute, PatchPlan.TouchedPaths;
    PatchExecution.UnobstructedAgrees(before, root, unreadable, read, PatchPlan.TouchedPaths(root, read));
  }

  lemma IdeIsJustified(rows: seq<Row>, row: Row)
    requires row == BodyRow(row.operationId)
    ensures Justified(rows, row, true) && Known(rows, row.parent) && IdSeen(rows + [row], row.operationId)
  {
    assert (rows + [row])[|rows|] == row;
  }

  lemma NoRequestsYet(rows: seq<Row>, records: map<nat, PatchValidation.RequestRecord>, ide: nat, first: nat,
                      requests: seq<PatchValidation.PatchRequest>, patches: seq<PatchPlan.Patch>)
    ensures rows + RequestRows(ide, requests[..0]) == rows && AddsRecords(records, records, first, requests[..0], patches)
  {
  }

  lemma OneMoreRequest(rows: seq<Row>, ide: nat, requests: seq<PatchValidation.PatchRequest>, i: nat)
    requires i < |requests|
    ensures rows + RequestRows(ide, requests[..i + 1])
         == rows + RequestRows(ide, requests[..i]) + [PatchRequestRow(ide + i + 1, ide, requests[i])]
  {
    var row := PatchRequestRow(ide + i + 1, ide, requests[i]);
    assert RequestRows(ide, requests[..i + 1]) == RequestRows(ide, requests[..i]) + [row];
  }

  lemma RequestIsJustified(rows: seq<Row>, counter: nat, row: Row, ide: nat, request: PatchValidation.PatchRequest,
                           patches: seq<PatchPlan.Patch>)
    requires PatchValidation.ProperRequest(request, patches) && request.requestId != "" && IdSeen(rows, ide)
    requires row == PatchRequestRow(counter + 1, ide, request)
    ensures Justified(rows, row, true) && Known(rows, row.parent) && IdSeen(rows + [row], ide)
  {
    SeenGrows(rows, row);
  }

  lemma RecordsGrow(rows: seq<Row>, before: map<nat, PatchValidation.RequestRecord>,
                    records: map<nat, PatchValidation.RequestRecord>, first: nat,
                    requests: seq<PatchValidation.PatchRequest>, i: nat, patches: seq<PatchPlan.Patch>, counter: nat, row: Row)
    requires Sound(rows, counter) && i < |requests| && counter + 1 == first + i && row.operationId == counter + 1
    requires AddsRecords(before, records, first, requests[..i], patches)
    requires PatchValidation.ProperIds(patches) && PatchValidation.ProperRequest(requests[i], patches)
    ensures var more := records[counter + 1 := PatchValidation.RecordRequest(requests[i], patches)];
      && AddsRecords(before, more, first, requests[..i + 1], patches)
      && (Recorded(rows, records) ==> Recorded(rows + [row], more))
  {
    hide PatchValidation.ProperIds, PatchValidation.ProperRequest, PatchValidation.RecordRequest;
    assert PatchValidation.HandlerRecord(PatchValidation.RecordRequest(requests[i], patches));
    assert forall k :: 0 <= k < i ==> requests[..i + 1][k] == requests[..i][k];
  }

  ghost predicate Sound(rows: seq<Row>, counter: nat) {
    && UniqueIds(rows) && ParentsFirst(rows) && WellFormed(rows, true)
    && forall i :: 0 <= i < |rows| ==> rows[i].operationId <= counter
  }

  lemma AppendKeepsSound(rows: seq<Row>, counter: nat, row: Row)
    requires Sound(rows, counter) && row.operationId == counter + 1
    requires Justified(rows, row, true) && Known(rows, row.parent)
    ensures Sound(rows + [row], counter + 1)
  {
    LogGrows(rows, row, true);
  }

  lemma AttemptIsJustified(rows: seq<Row>, key: Key, row: Row, parent: nat)
    requires key.id != "" && Requested(rows, key) && WasApproved(rows, key) && IdSeen(rows, parent)
    requires row == KeyRow(row.operationId, ApplyAttempt(key.lane), Executed, Some(parent), key, false)
    ensures Justified(rows, row, true) && Known(rows, row.parent)
  {
  }

  lemma ResultIsJustified(rows: seq<Row>, key: Key, outcome: Status, row: Row, parent: nat)
    requires key.id != "" && Attempted(rows, key) && IdSeen(rows, parent)
    requires outcome.Applied? || outcome.Failed?
    requires row == KeyRow(row.operationId, ApplyResult(key.lane), outcome, Some(parent), key, false)
    ensures Justified(rows, row, true) && Known(rows, row.parent)
  {
  }

  lemma ReconciliationIsJustified(rows: seq<Row>, key: Key, row: Row, parent: nat)
    requires key.id != "" && Resulted(rows, key) && IdSeen(rows, parent)
    requires row == KeyRow(row.operationId, Reconciliation, Reconciled, Some(parent), key, false)
    ensures Justified(rows, row, true) && Known(rows, row.parent)
  {
    assert Ref(row, key.lane) == key.id;
  }

  lemma LastRowIsKnown(rows: seq<Row>, row: Row, key: Key)
    ensures IdSeen(rows + [row], row.operationId)
    ensures IsAttempt(row, key) ==> Attempted(rows + [row], key)
    ensures IsResult(row, key) ==> Resulted(rows + [row], key)
  {
    assert (rows + [row])[|rows|] == row;
  }

  class CommsHandler {
    var rows: seq<Row>
    var counter: nat
    const root: seq<string>
    const disk: AtomicCommit.PatchDisk
    /** What the patch request rows keep besides their references, by operation id. */
    var records: map<nat, PatchValidation.RequestRecord>

    /** Starting up: the counter continues after the highest id in the log. */
    constructor (rows: seq<Row>, records: map<nat, PatchValidation.RequestRecord>,
                 root: seq<string>, disk: AtomicCommit.PatchDisk)
      requires UniqueIds(rows) && ParentsFirst(rows) && WellFormed(rows, true)
      ensures this.rows == rows && this.records == records && this.root == root && this.disk == disk
      ensures Sound(this.rows, this.counter)
    {
      this.rows, this.records, this.root, this.disk := rows, records, root, disk;
      var highest: nat := 0;
      for i := 0 to |rows|
        invariant highest == HighestId(rows[..i])
      {
        assert rows[..i + 1][..i] == rows[..i];
        if rows[i].operationId > highest {
          highest := rows[i].operationId;
        }
      }
      assert rows[..|rows|] == rows;
      this.counter := highest;
      HighestIdBounds(rows);
    }

    /** `_record_operation`: the next id, then the row. */
    method RecordOperation(row: Row)
      requires Sound(rows, counter) && row.operationId == counter + 1
      requires Justified(rows, row, true) && Known(rows, row.parent)
      modifies this`rows, this`counter
      ensures Sound(rows, counter)
      ensures rows == old(rows) + [row] && counter == old(counter) + 1
    {
      AppendKeepsSound(rows, counter, row);
      counter := counter + 1;
      rows := rows + [row];
    }

    /**
     The ledger part of `/api/ide/execute`: the patches and the patch requests of a body are
     validated, and a row for the body and one for each request are recorded, each with a
     record from which exactly its patches read back. A body that is refused leaves nothing.
     */
    method SubmitPatches(render: Renderer, rawPatches: Json, rawRequests: Json)
      returns (r: Result<(seq<PatchPlan.Patch>, seq<PatchValidation.PatchRequest>), PatchValidation.Problem>)
      requires Sound(rows, counter)
      modifies this`rows, this`counter, this`records
      ensures Sound(rows, counter)
      ensures r.Failure? ==> rows == old(rows) && counter == old(counter) && records == old(records)
      ensures r.Success? ==>
        var (patches, requests) := r.value;
        && rows == old(rows) + [BodyRow(old(counter) + 1)] + RequestRows(old(counter) + 1, requests)
        && (rawPatches.JArray? ==> PatchValidation.AcceptedPatches(render, rawPatches.items) == Success(patches))
        && AddsRecords(old(records), records, old(counter) + 2, requests, patches)
        && AllReadBack(records, old(counter) + 2, requests, patches)
      ensures Recorded(old(rows), old(records)) ==> Recorded(rows, records)
    {
      hide Sound, Recorded, RequestRows, AddsRecords, AllReadBack, PatchValidation.ProperRequest, PatchValidation.ProperIds,
           PatchValidation.AcceptedPatches, PatchValidation.ValidAndDistinct, PatchValidation.RequestOf, PatchValidation.WellTyped;
      assert PatchValidation.ProperIds([]) by { PatchValidation.NoIds(); }
      var patches := PatchValidation.ValidatePatchOps(render, rawPatches);
      if patches.Failure? {
        return Failure(patches.error);
      }
      if rawPatches.JArray? {
        PatchValidation.AcceptedPatchesAreProper(render, rawPatches.items);
      }
      var requests := PatchValidation.ValidatePatchRequests(render, rawRequests, patches.value);
      if requests.Failure? {
        return Failure(requests.error);
      }
      RecordBody(patches.value, requests.value);
      RecordsReadBack(old(records), records, old(counter) + 2, requests.value, patches.value);
      return Success((patches.value, requests.value));
    }

    /** The row of an accepted body, then the rows and records of its requests. */
    method RecordBody(patches: seq<PatchPlan.Patch>, requests: seq<PatchValidation.PatchRequest>)
      requires Sound(rows, counter) && PatchValidation.ProperIds(patches)
      requires forall k :: 0 <= k < |requests| ==>
        PatchValidation.ProperRequest(requests[k], patches) && requests[k].requestId != ""
      modifies this`rows, this`counter, this`records
      ensures Sound(rows, counter)
      ensures rows == old(rows) + [BodyRow(old(counter) + 1)] + RequestRows(old(counter) + 1, requests)
      ensures AddsRecords(old(records), records, old(counter) + 2, requests, patches)
      ensures Recorded(old(rows), old(records)) ==> Recorded(rows, records)
    {
      hide Sound, Recorded, RequestRows, AddsRecords, PatchValidation.ProperRequest, PatchValidation.ProperIds, IdSeen;
      ghost var rows0, records0, first := rows, records, counter + 2;
      var ide := counter + 1;
      IdeIsJustified(rows, BodyRow(ide));
      RecordOperation(BodyRow(ide));
      RecordedGrows(rows0, BodyRow(ide), records);
      NoRequestsYet(rows0 + [BodyRow(ide)], records, ide, first, requests, patches);
      for i := 0 to |requests|
        invariant Sound(rows, counter) && counter == ide + i && IdSeen(rows, ide)
        invariant rows == rows0 + [BodyRow(ide)] + RequestRows(ide, requests[..i])
        invariant AddsRecords(records0, records, first, requests[..i], patches)
        invariant Recorded(rows0, records0) ==> Recorded(rows, records)
      {
        var row := PatchRequestRow(counter + 1, ide, requests[i]);
        RequestIsJustified(rows, counter, row, ide, requests[i], patches);
        RecordsGrow(rows, records0, records, first, requests, i, patches, counter, row);
        OneMoreRequest(rows0 + [BodyRow(ide)], ide, requests, i);
        records := records[counter + 1 := PatchValidation.RecordRequest(requests[i], patches)];
        RecordOperation(row);
      }
      assert requests[..|requests|] == requests;
    }

    /**
     `_handle_decision_submission`: a decision is recorded once per lane and id. While the
     last request with the id is of the lane, submitting it again returns the recorded row
     and submitting the opposite conflicts. LedgerDecisions follows it over whole runs.
     */
    method HandleDecisionSubmission(lane: Lane, requestId: string, decision: string, actor: string, rationale: string)
      returns (response: DecisionResponse)
      requires Sound(rows, counter)
      modifies this`rows, this`counter
      ensures Sound(rows, counter)
      ensures var complete := Strip(actor) != "" && Strip(rationale) != "";
        (response, rows) == DecisionEffect(old(rows), old(counter), Key(lane, Strip(requestId)), ParseDecision(decision), complete)
      ensures Recorded(old(rows), records) ==> Recorded(rows, records)
    {
      var id, parsed := Strip(requestId), ParseDecision(decision);
      if id == "" || parsed.None? || Strip(actor) == "" || Strip(rationale) == "" {
        return MissingField;
      }
      response := SubmitDecision(Key(lane, id), parsed.value);
    }

    method SubmitDecision(key: Key, decision: Decision) returns (response: DecisionResponse)
      requires Sound(rows, counter) && key.id != ""
      modifies this`rows, this`counter
      ensures Sound(rows, counter)
      ensures (response, rows) == Submitted(old(rows), old(counter), key, decision)
      ensures Recorded(old(rows), records) ==> Recorded(rows, records)
    {
      hide Recorded;
      var located := FindRequestOperation(rows, key.id);
      if located.None? {
        return RequestNotFound;
      }
      if located.value.0 != key.lane {
        return WrongLane(located.value.0);
      }
      var existing := FindDecisionRecord(rows, key);
      if existing.Some? {
        if existing.value.decision == Some(decision) {
          return Receipt(existing.value);
        }
        return ConflictingDecision(existing.value.decision);
      }
      ghost var before := rows;
      var row := RecordDecision(key, decision, located.value.1.operationId);
      RecordedGrows(before, row, records);
      return Receipt(row);
    }

    method RecordDecision(key: Key, decision: Decision, request: nat) returns (row: Row)
      requires Sound(rows, counter) && MayDecide(rows, key)
      requires request == FindRequest(rows, key.id).value.1.operationId
      modifies this`rows, this`counter
      ensures Sound(rows, counter)
      ensures row == DecisionRow(old(counter) + 1, key, decision, request) && rows == old(rows) + [row]
    {
      FoundRequest(rows, key.id);
      row := DecisionRow(counter + 1, key, decision, request);
      RecordOperation(row);
    }

    /** The patches of a located request, or the reason why they cannot be read back. */
    function PatchesOf(request: Row): Result<seq<PatchPlan.Patch>, string>
      reads this`records
    {
      if request.operationId in records then PatchValidation.Extracted(records[request.operationId])
      else Failure(PatchValidation.PATCH_NOT_FOUND)
    }

    /** The first patch id that a located request lists. */
    function ListedId(request: Row): Option<string>
      reads this`records
    {
      var listed := if request.operationId in records then PatchValidation.ProperNames(records[request.operationId].patchIds) else [];
      if listed == [] then None else Some(listed[0])
    }

    /** Plans and commits the patches of an approved request. */
    method ApplyPatches(patches: seq<PatchPlan.Patch>, unreadable: set<Path>, uuids: seq<Uuid>, fault: AtomicCommit.Fault)
      returns (response: ExecutionResponse)
      requires unreadable <= disk.tree.Keys && FreshSupply(disk.tree, root, patches, uuids)
      modifies disk
      ensures Outcome(old(disk.tree), disk.tree, root, unreadable, Success(patches), None, uuids, fault, response)
    {
      hide PatchPlan.PatchAllByName, PatchPlan.TouchedPaths, PatchPlan.Written, PatchPlan.Removed, PatchExecution.Parents,
           PatchExecution.Execute, AtomicCommit.Clear, AtomicCommit.StopStep, AtomicCommit.Planned, AtomicCommit.Ready,
           AtomicCommit.DirsOf, AtomicCommit.Targets, AtomicCommit.NoDirectoryTarget, AtomicCommit.FirstBlocked,
           AtomicCommit.Tears, AtomicCommit.Distinct, AtomicCommit.Committable, FreshSupply, UserView, WithDirs,
           OnlyDirectoriesAdded;
      var plan, reason, patchId := PatchPlan.BuildAtomicPatchPlan(patches, root, disk.tree, unreadable);
      if reason.Some? {
        PatchExecution.RefusedPlan(disk.tree, root, unreadable, patches);
        return PatchesFailed(reason.value, patchId, false);
      }
      ghost var before, result := disk.tree, PatchPlan.PatchAllByName(disk.tree, root, unreadable, patches).tree;
      PatchExecution.ExecutionOfPlan(before, root, unreadable, patches, result, plan.value);
      PlanIsCommittable(before, root, patches, result, plan.value, uuids);
      var committed, error := disk.CommitAtomicPatchPlan(plan.value, uuids, fault);
      if committed {
        return PatchesApplied;
      }
      MoreDirectories(before, UserView(disk.tree, uuids), AtomicCommit.DirsAbove(plan.value),
                      PatchExecution.Parents(PatchPlan.TouchedPaths(root, patches)));
      return PatchesFailed(error.value, FirstId(patches), true);
    }

    /**
     `_handle_patch_execution`. Nothing happens unless the last request with this id is a
     patch request that the reverse scan finds approved. An execution writes its three rows
     and either leaves the executed patches or leaves every file as it was. The patches of a
     request that a handler recorded are always found.
     */
    method HandlePatchExecution(requestId: string, actor: string, unreadable: set<Path>, uuids: seq<Uuid>,
                                fault: AtomicCommit.Fault)
      returns (response: ExecutionResponse)
      requires Sound(rows, counter) && unreadable <= disk.tree.Keys
      requires forall r :: r in rows && PatchesOf(r).Success? ==> FreshSupply(disk.tree, root, PatchesOf(r).value, uuids)
      modifies this`rows, this`counter, disk
      ensures Sound(rows, counter)
      ensures var key := Key(PatchLane, Strip(requestId));
        if !MayExecute(old(rows), key, actor) then
          rows == old(rows) && disk.tree == old(disk.tree) && !response.PatchesApplied? && !response.PatchesFailed?
        else
          var request := FindRequest(old(rows), key.id).value.1;
          && rows == old(rows) + ExecutionRows(old(counter), key, request.operationId,
                                               if response.PatchesApplied? then Applied else Failed)
          && Outcome(old(disk.tree), disk.tree, root, unreadable, PatchesOf(request), ListedId(request), uuids, fault, response)
      ensures Recorded(old(rows), records) ==>
        Recorded(rows, records) && (response.PatchesFailed? ==> response.reason != PatchValidation.PATCH_NOT_FOUND)
    {
      hide Recorded, Outcome, FreshSupply, ExecutionRows, FindRequest, FindDecision, Sound, Requested, WasApproved, IdSeen;
      ghost var rows0, counter0 := rows, counter;
      var id := Strip(requestId);
      var key := Key(PatchLane, id);
      if id == "" || Strip(actor) == "" {
        return BadRequest;
      }
      var located := FindRequestOperation(rows, id);
      if located.None? {
        return NoSuchRequest;
      }
      if located.value.0 != PatchLane {
        return NotAPatchRequest;
      }
      var decision := FindDecisionRecord(rows, key);
      if decision.None? || decision.value.decision != Some(Approve) {
        return NotApproved;
      }
      FoundRequest(rows, id);
      FoundRow(rows, id);
      FoundDecision(rows, key);
      ghost var read := PatchesOf(located.value.1);
      response := ExecuteApproved(key, located.value.1, unreadable, uuids, fault);
      ExecutionKeepsRecords(rows0, counter0, key, located.value.1.operationId,
                            if response.PatchesApplied? then Applied else Failed, records);
      if Recorded(rows0, records) {
        RecordedIsRead(rows0, records, located.value.1);
        FoundReasons(old(disk.tree), disk.tree, root, unreadable, read.value, ListedId(located.value.1), uuids, fault, response);
      }
    }

    /** The execution of an approved request: an attempt row, the patches, and the rows of the outcome. */
    method ExecuteApproved(key: Key, request: Row, unreadable: set<Path>, uuids: seq<Uuid>, fault: AtomicCommit.Fault)
      returns (response: ExecutionResponse)
      requires Sound(rows, counter) && unreadable <= disk.tree.Keys
      requires key.id != "" && Requested(rows, key) && WasApproved(rows, key) && IdSeen(rows, request.operationId)
      requires PatchesOf(request).Success? ==> FreshSupply(disk.tree, root, PatchesOf(request).value, uuids)
      modifies this`rows, this`counter, disk
      ensures Sound(rows, counter)
      ensures response.PatchesApplied? || response.PatchesFailed?
      ensures rows == old(rows) + ExecutionRows(old(counter), key, request.operationId,
                                                if response.PatchesApplied? then Applied else Failed)
      ensures Outcome(old(disk.tree), disk.tree, root, unreadable, PatchesOf(request), ListedId(request), uuids, fault, response)
    {
      hide Sound, Attempted, IdSeen, Requested, WasApproved, Outcome, FreshSupply, ApplyAttemptRow, ExecutionRows;
      var patches := PatchesOf(request);
      RecordAttempt(key, request.operationId);
      ghost var attempted, number := rows, counter;
      if patches.Failure? {
        response := PatchesFailed(patches.error, ListedId(request), false);
        NothingRead(disk.tree, root, unreadable, patches.error, ListedId(request), uuids, fault);
      } else {
        response := ApplyPatches(patches.value, unreadable, uuids, fault);
        ListedDoesNotMatter(old(disk.tree), disk.tree, root, unreadable, patches.value, ListedId(request), uuids, fault, response);
      }
      assert rows == attempted && counter == number;
      RecordOutcome(key, old(rows), old(counter), request.operationId, if response.PatchesApplied? then Applied else Failed);
    }

    /** The result row and the reconciliation row that follow the attempt row after `before`. */
    method RecordOutcome(key: Key, ghost before: seq<Row>, ghost counter0: nat, ghost request: nat, outcome: Status)
      requires Sound(rows, counter) && key.id != "" && Attempted(rows, key) && IdSeen(rows, counter)
      requires outcome.Applied? || outcome.Failed?
      requires counter == counter0 + 1 && rows == before + [ApplyAttemptRow(counter0 + 1, key, request)]
      modifies this`rows, this`counter
      ensures Sound(rows, counter)
      ensures rows == before + ExecutionRows(counter0, key, request, outcome)
    {
      hide Sound, Attempted, IdSeen, Resulted;
      RecordResult(key, outcome);
      RecordReconciliation(key);
      RowsOfExecution(before, counter0, key, request, outcome);
    }

    /** The attempt row of an approved request. */
    method RecordAttempt(key: Key, request: nat)
      requires Sound(rows, counter) && key.id != "" && Requested(rows, key) && WasApproved(rows, key) && IdSeen(rows, request)
      modifies this`rows, this`counter
      ensures Sound(rows, counter) && counter == old(counter) + 1
      ensures rows == old(rows) + [ApplyAttemptRow(old(counter) + 1, key, request)]
      ensures Attempted(rows, key) && IdSeen(rows, counter)
    {
      var attempt := ApplyAttemptRow(counter + 1, key, request);
      AttemptIsJustified(rows, key, attempt, request);
      LastRowIsKnown(rows, attempt, key);
      RecordOperation(attempt);
    }

    /** The result row that follows an attempt. */
    method RecordResult(key: Key, outcome: Status)
      requires Sound(rows, counter) && key.id != "" && Attempted(rows, key) && IdSeen(rows, counter)
      requires outcome.Applied? || outcome.Failed?
      modifies this`rows, this`counter
      ensures Sound(rows, counter) && counter == old(counter) + 1
      ensures rows == old(rows) + [ApplyResultRow(old(counter) + 1, key, outcome)]
      ensures Resulted(rows, key) && IdSeen(rows, counter)
    {
      var result := ApplyResultRow(counter + 1, key, outcome);
      ResultIsJustified(rows, key, outcome, result, counter);
      LastRowIsKnown(rows, result, key);
      RecordOperation(result);
    }

    /** The reconciliation row that follows a result. */
    method RecordReconciliation(key: Key)
      requires Sound(rows, counter) && key.id != "" && Resulted(rows, key) && IdSeen(rows, counter)
      modifies this`rows, this`counter
      ensures Sound(rows, counter)
      ensures rows == old(rows) + [ReconciliationRow(old(counter) + 1, key)]
    {
      var reconciliation := ReconciliationRow(counter + 1, key);
      ReconciliationIsJustified(rows, key, reconciliation, counter);
      RecordOperation(reconciliation);
    }
  }

  lemma RowsOfExecution(before: seq<Row>, counter: nat, key: Key, request: nat, outcome: Status)
    ensures before + [ApplyAttemptRow(counter + 1, key, request)] + [ApplyResultRow(counter + 2, key, outcome)]
            + [ReconciliationRow(counter + 3, key)]
         == before + ExecutionRows(counter, key, request, outcome)
  {
  }

  lemma PlanIsCommittable(tree: Tree, root: seq<string>, patches: seq<PatchPlan.Patch>, result: Tree,
                          plan: AtomicCommit.Plan, uuids: seq<Uuid>)
    requires FreshSupply(tree, root, patches, uuids) && PatchPlan.PlanOf(tree, root, patches, result, plan)
    requires |AtomicCommit.AllTargets(plan)| <= |patches|
    requires AtomicCommit.DirsAbove(plan) == PatchExecution.Parents(PatchPlan.Written(root, patches, result))
    ensures AtomicCommit.Committable(plan, tree, uuids)
    ensures AtomicCommit.DirsAbove(plan) <= PatchExecution.Parents(PatchPlan.TouchedPaths(root, patches))
  {
    hide PatchPlan.TouchedPaths, AtomicCommit.Planned, PatchExecution.Parents;
    PatchExecution.ElementsOfBoth(AtomicCommit.Targets(plan.writes), plan.deletes);
    assert forall p :: p in AtomicCommit.AllTargets(plan) ==>
      p in AtomicCommit.Elements(AtomicCommit.AllTargets(plan));
    PatchExecution.FewerParents(PatchPlan.Written(root, patches, result), PatchPlan.TouchedPaths(root, patches));
  }

  lemma NothingRead(tree: Tree, root: seq<string>, unreadable: set<Path>, reason: string, listed: Option<string>,
                    uuids: seq<Uuid>, fault: AtomicCommit.Fault)
    ensures Outcome(tree, tree, root, unreadable, Failure(reason), listed, uuids, fault, PatchesFailed(reason, listed, false))
  {
  }

  /** Once the patches are read, the listed ids play no part. */
  lemma ListedDoesNotMatter(before: Tree, after: Tree, root: seq<string>, unreadable: set<Path>,
                            read: seq<PatchPlan.Patch>, listed: Option<string>, uuids: seq<Uuid>,
                            fault: AtomicCommit.Fault, response: ExecutionResponse)
    requires Outcome(before, after, root, unreadable, Success(read), None, uuids, fault, response)
    ensures Outcome(before, after, root, unreadable, Success(read), listed, uuids, fault, response)
    ensures response.PatchesApplied? || response.PatchesFailed?
  {
  }

  lemma MoreDirectories(before: Tree, after: Tree, dirs: set<Path>, more: set<Path>)
    requires OnlyDirectoriesAdded(before, after, dirs) && dirs <= more
    ensures OnlyDirectoriesAdded(before, after, more)
  {
  }

  predicate MayExecute(rows: seq<Row>, key: Key, actor: string) {
    var found := FindRequest(rows, key.id);
    key.id != "" && Strip(actor) != "" && found.Some? && found.value.0 == key.lane && ScanApproves(rows, key)
  }

  lemma {:induction false} FoundRow(rows: seq<Row>, id: string)
    ensures FindRequest(rows, id).Some? ==> FindRequest(rows, id).value.1 in rows
  {
    if rows != [] && id != "" {
      FoundRow(rows[..|rows| - 1], id);
    }
  }
}
