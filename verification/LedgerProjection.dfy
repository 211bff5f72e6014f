/**
 What the projection says about a ledger that the handlers wrote.

 `WellFormed` lists when the handlers of runtime_core/comms_server.py write which row.
 With `serial`, each decision submission reads and writes the ledger in one step; without,
 other writers may come between its check and its row.
 */
module LedgerProjection {
  import opened Results
  import opened OperationLedger

  predicate NoRefs(row: Row) {
    row.patchRef == "" && row.toolRef == "" && row.requestId == "" && row.decision.None?
  }

  function OtherLane(lane: Lane): Lane {
    if lane.PatchLane? then ToolLane else PatchLane
  }

  /** The row refers to one request only. */
  predicate RefersOnlyTo(row: Row, key: Key) {
    Ref(row, key.lane) == key.id && Ref(row, OtherLane(key.lane)) == ""
  }

  /** The parent of a decision row is the last request row with its id, of its lane. */
  predicate DecidesLast(before: seq<Row>, row: Row)
    requires row.operationType.DecisionOn?
  {
    var found := FindRequest(before, row.requestId);
    found.Some? && found.value.0 == row.operationType.lane && row.parent == Some(found.value.1.operationId)
  }

  /** The row after `before` is one that a handler writes there. */
  predicate Justified(before: seq<Row>, row: Row, serial: bool) {
    match row.operationType
    case IdeExecute => NoRefs(row) && row.status.Proposed?
    case ExecutionAttempt => NoRefs(row) && (row.status.Executed? || row.status.Failed?)
    case Request(lane) =>
      && Ref(row, OtherLane(lane)) == "" && row.requestId == "" && row.decision.None? && row.status.Proposed?
      && (lane.PatchLane? ==> row.patchRef != "" && row.runnable)
    case DecisionOn(lane) =>
      var key := Key(lane, row.requestId);
      && key.id != "" && RefersOnlyTo(row, key) && row.decision.Some?
      && Requested(before, key)
      && (serial ==> FindDecision(before, key).None? && DecidesLast(before, row))
    case ApplyAttempt(lane) =>
      var key := Key(lane, Ref(row, lane));
      && key.id != "" && RefersOnlyTo(row, key) && row.status.Executed?
      && Requested(before, key) && WasApproved(before, key)
    case ApplyResult(lane) =>
      var key := Key(lane, Ref(row, lane));
      && key.id != "" && RefersOnlyTo(row, key)
      && (row.status.Applied? || row.status.Executed? || row.status.Failed?)
      && Attempted(before, key)
    case Reconciliation =>
      && row.status.Reconciled?
      && (NoRefs(row)
          || exists lane ::
               && Ref(row, lane) != "" && RefersOnlyTo(row, Key(lane, Ref(row, lane)))
               && Resulted(before, Key(lane, Ref(row, lane))))
  }

  predicate WellFormed(rows: seq<Row>, serial: bool) {
    forall i :: 0 <= i < |rows| ==> Justified(rows[..i], rows[i], serial)
  }

  /** An approval that follows an accepted request row. */
  predicate SoundlyApproved(rows: seq<Row>, key: Key) {
    exists j :: 0 <= j < |rows|
      && IsDecision(rows[j], key) && rows[j].decision == Some(Approve) && Introduced(rows[..j], key)
  }

  // ---------------------------------------------------------------------
  // How one more row changes what is known of a key
  // ---------------------------------------------------------------------

  lemma GrowthOfRequests(rows: seq<Row>, row: Row, key: Key)
    ensures Introduced(rows + [row], key) <==> Introduced(rows, key) || Introduces(row, key)
    ensures Requested(rows + [row], key) <==> Requested(rows, key) || IsRequest(row, key)
  {
    var more := rows + [row];
    assert more[|rows|] == row && forall i :: 0 <= i < |rows| ==> more[i] == rows[i];
  }

  lemma GrowthOfExecutions(rows: seq<Row>, row: Row, key: Key)
    ensures Attempted(rows + [row], key) <==> Attempted(rows, key) || IsAttempt(row, key)
    ensures Resulted(rows + [row], key) <==> Resulted(rows, key) || IsResult(row, key)
    ensures WasReconciled(rows + [row], key) <==> WasReconciled(rows, key) || IsReconciliation(row, key)
  {
    var more := rows + [row];
    assert more[|rows|] == row && forall i :: 0 <= i < |rows| ==> more[i] == rows[i];
  }

  lemma GrowthOfDecisions(rows: seq<Row>, row: Row, key: Key)
    ensures FindDecision(rows + [row], key) == if IsDecision(row, key) then Some(row) else FindDecision(rows, key)
    ensures var approves := IsDecision(row, key) && row.decision == Some(Approve);
      && (WasApproved(rows + [row], key) <==> WasApproved(rows, key) || approves)
      && (SoundlyApproved(rows + [row], key) <==> SoundlyApproved(rows, key) || (approves && Introduced(rows, key)))
  {
    var more := rows + [row];
    assert more[..|rows|] == rows && more[|rows|] == row;
    assert forall i :: 0 <= i < |rows| ==> more[i] == rows[i] && more[..i] == rows[..i];
  }

  lemma GrowthOfProjection(rows: seq<Row>, row: Row)
    ensures Rebuild(rows + [row]) == ApplyRow(Rebuild(rows), row)
  {
    assert (rows + [row])[..|rows|] == rows;
  }

  // ---------------------------------------------------------------------
  // The invariant of serial ledgers
  // ---------------------------------------------------------------------

  /** How the projection of a key mirrors the rows about it. */
  ghost predicate Mirrors(state: Projections, rows: seq<Row>, key: Key) {
    && (key in state <==> Introduced(rows, key))
    && (key in state && state[key].approved <==> SoundlyApproved(rows, key))
    && (key in state && state[key].reconciled ==> WasReconciled(rows, key))
    && (key in state && state[key].approved ==>
          && (state[key].reconciled <==> WasReconciled(rows, key))
          && (state[key].closed.Some? <==> Attempted(rows, key)))
  }

  /** The order in which the rows of one key come. */
  ghost predicate Phased(rows: seq<Row>, key: Key) {
    && (WasReconciled(rows, key) ==> Resulted(rows, key))
    && (Resulted(rows, key) ==> Attempted(rows, key))
    && (Attempted(rows, key) ==> WasApproved(rows, key))
    && (WasApproved(rows, key) <==> ScanApproves(rows, key))
    && (SoundlyApproved(rows, key) ==> WasApproved(rows, key))
  }

  lemma PhasedStep(rows: seq<Row>, row: Row, key: Key)
    requires key.id != "" && Justified(rows, row, true) && Phased(rows, key)
    ensures Phased(rows + [row], key)
  {
    GrowthOfExecutions(rows, row, key);
    GrowthOfDecisions(rows, row, key);
  }

  lemma MirrorsStep(rows: seq<Row>, row: Row, key: Key)
    requires key.id != "" && Justified(rows, row, true)
    requires Phased(rows, key) && Mirrors(Rebuild(rows), rows, key)
    ensures Mirrors(Rebuild(rows + [row]), rows + [row], key)
  {
    match row.operationType
    case Request(lane) => MirrorsRequest(rows, row, key);
    case DecisionOn(lane) => MirrorsDecision(rows, row, key);
    case _ => MirrorsExecution(rows, row, key);
  }

  lemma MirrorsRequest(rows: seq<Row>, row: Row, key: Key)
    requires key.id != "" && row.operationType.Request? && row.status.Proposed?
    requires Phased(rows, key) && Mirrors(Rebuild(rows), rows, key)
    ensures Mirrors(Rebuild(rows + [row]), rows + [row], key)
  {
    GrowthOfProjection(rows, row);
    GrowthOfRequests(rows, row, key);
    GrowthOfExecutions(rows, row, key);
    GrowthOfDecisions(rows, row, key);
    RequestStep(Rebuild(rows), row, key);
  }

  lemma MirrorsDecision(rows: seq<Row>, row: Row, key: Key)
    requires key.id != "" && row.operationType.DecisionOn? && Justified(rows, row, true)
    requires Phased(rows, key) && Mirrors(Rebuild(rows), rows, key)
    ensures Mirrors(Rebuild(rows + [row]), rows + [row], key)
  {
    GrowthOfProjection(rows, row);
    GrowthOfRequests(rows, row, key);
    GrowthOfExecutions(rows, row, key);
    GrowthOfDecisions(rows, row, key);
    DecisionStep(Rebuild(rows), row, key);
  }

  lemma MirrorsExecution(rows: seq<Row>, row: Row, key: Key)
    requires key.id != "" && !row.operationType.Request? && !row.operationType.DecisionOn?
    requires Justified(rows, row, true)
    requires Phased(rows, key) && Mirrors(Rebuild(rows), rows, key)
    ensures Mirrors(Rebuild(rows + [row]), rows + [row], key)
  {
    GrowthOfProjection(rows, row);
    GrowthOfRequests(rows, row, key);
    GrowthOfExecutions(rows, row, key);
    GrowthOfDecisions(rows, row, key);
    ExecutionStep(Rebuild(rows), row, key);
    if Ref(row, key.lane) == key.id {
      ExecutionOfKey(rows, row, key);
    }
    ExecutionMirrors(Rebuild(rows), ApplyRow(Rebuild(rows), row), rows, rows + [row], row, key);
  }

  /** What a justified attempt, result or reconciliation row of a key says about the rows before it. */
  lemma ExecutionOfKey(rows: seq<Row>, row: Row, key: Key)
    requires key.id != "" && !row.operationType.Request? && !row.operationType.DecisionOn?
    requires Justified(rows, row, true) && Phased(rows, key) && Ref(row, key.lane) == key.id
    ensures IsAttempt(row, key) || Attempted(rows, key)
    ensures IsReconciliation(row, key) <==> row.operationType.Reconciliation?
    ensures row.operationType.Reconciliation? || Terminal(row.status)
  {
  }

  lemma ExecutionMirrors(state: Projections, after: Projections, rows: seq<Row>, more: seq<Row>, row: Row, key: Key)
    requires Mirrors(state, rows, key)
    requires Ref(row, key.lane) != key.id ==> !IsAttempt(row, key) && !IsReconciliation(row, key)
    requires Ref(row, key.lane) == key.id ==>
      && (IsAttempt(row, key) || Attempted(rows, key))
      && (IsReconciliation(row, key) <==> row.operationType.Reconciliation?)
    requires Introduced(more, key) <==> Introduced(rows, key)
    requires SoundlyApproved(more, key) <==> SoundlyApproved(rows, key)
    requires WasReconciled(more, key) <==> WasReconciled(rows, key) || IsReconciliation(row, key)
    requires Attempted(more, key) <==> Attempted(rows, key) || IsAttempt(row, key)
    requires key in after <==> key in state
    requires key in state ==> after[key].approved == state[key].approved
    requires key in state && Ref(row, key.lane) != key.id ==> after[key] == state[key]
    requires key in state && Ref(row, key.lane) == key.id ==>
      && after[key].reconciled == (state[key].reconciled || row.operationType.Reconciliation?)
      && after[key].closed.Some?
    ensures Mirrors(after, more, key)
  {
  }

  lemma RequestStep(state: Projections, row: Row, key: Key)
    requires key.id != "" && row.operationType.Request? && row.status.Proposed?
    ensures var after := ApplyRow(state, row);
      && (key in after <==> key in state || Introduces(row, key))
      && (key in state ==>
            && after[key].approved == state[key].approved
            && after[key].reconciled == state[key].reconciled
            && after[key].closed == state[key].closed)
      && (key in after && key !in state ==> !after[key].approved && !after[key].reconciled)
  {
  }

  lemma DecisionStep(state: Projections, row: Row, key: Key)
    requires key.id != "" && row.operationType.DecisionOn? && row.requestId != ""
    ensures var after := ApplyRow(state, row);
      && (key in after <==> key in state)
      && (key in state && !IsDecision(row, key) ==> after[key] == state[key])
      && (key in state && IsDecision(row, key) ==> after[key] == Decide(state[key], row))
  {
  }

  /** Attempt, result and reconciliation rows close the requests they refer to. */
  lemma ExecutionStep(state: Projections, row: Row, key: Key)
    requires key.id != "" && !row.operationType.Request? && !row.operationType.DecisionOn?
    ensures var after := ApplyRow(state, row);
      && (key in after <==> key in state)
      && (key in state ==> after[key].approved == state[key].approved)
      && (key in state && Ref(row, key.lane) != key.id ==> after[key] == state[key])
      && (key in state && Ref(row, key.lane) == key.id ==>
            && after[key].reconciled == (state[key].reconciled || row.operationType.Reconciliation?)
            && (row.operationType.Reconciliation? || Terminal(row.status) ==> after[key].closed.Some?))
  {
  }

  lemma {:induction false} LedgerMirrors(rows: seq<Row>, key: Key)
    requires key.id != "" && WellFormed(rows, true)
    ensures Phased(rows, key) && Mirrors(Rebuild(rows), rows, key)
  {
    if rows != [] {
      var last := |rows| - 1;
      var before, row := rows[..last], rows[last];
      assert rows == before + [row];
      assert WellFormed(before, true) by {
        forall i | 0 <= i < last
          ensures Justified(before[..i], before[i], true)
        {
          assert before[..i] == rows[..i];
        }
      }
      LedgerMirrors(before, key);
      PhasedStep(before, row, key);
      MirrorsStep(before, row, key);
    }
  }

  // ---------------------------------------------------------------------
  // Main results
  // ---------------------------------------------------------------------

  lemma PrefixIsWellFormed(rows: seq<Row>, serial: bool)
    requires rows != [] && WellFormed(rows, serial)
    ensures WellFormed(rows[..|rows| - 1], serial) && Justified(rows[..|rows| - 1], rows[|rows| - 1], serial)
  {
    hide Justified;
    var before := rows[..|rows| - 1];
    assert forall i :: 0 <= i < |before| ==> before[i] == rows[i] && before[..i] == rows[..i];
  }

  /** The projection holds exactly the keys of accepted request rows, decisions serial or not. */
  lemma {:induction false} KeyIsIntroduced(rows: seq<Row>, key: Key)
    requires key.id != "" && WellFormed(rows, false)
    ensures key in Rebuild(rows) <==> Introduced(rows, key)
  {
    if rows != [] {
      PrefixIsWellFormed(rows, false);
      hide WellFormed, Introduced;
      var before, row := rows[..|rows| - 1], rows[|rows| - 1];
      assert rows == before + [row];
      KeyIsIntroduced(before, key);
      GrowthOfProjection(before, row);
      GrowthOfRequests(before, row, key);
      KeyStep(before, row, key);
    }
  }

  lemma KeyStep(rows: seq<Row>, row: Row, key: Key)
    requires key.id != "" && Justified(rows, row, false)
    ensures key in ApplyRow(Rebuild(rows), row) <==> key in Rebuild(rows) || Introduces(row, key)
  {
    match row.operationType
    case Request(_) => RequestStep(Rebuild(rows), row, key);
    case DecisionOn(_) => DecisionStep(Rebuild(rows), row, key);
    case _ => ExecutionStep(Rebuild(rows), row, key);
  }

  /** In the patch lane whatever was requested was accepted. */
  lemma RequestedPatchIsIntroduced(rows: seq<Row>, id: string)
    requires id != "" && WellFormed(rows, false) && Requested(rows, Key(PatchLane, id))
    ensures Introduced(rows, Key(PatchLane, id))
  {
    var key := Key(PatchLane, id);
    var i :| 0 <= i < |rows| && IsRequest(rows[i], key);
    assert Justified(rows[..i], rows[i], false);
    assert Introduces(rows[i], key);
  }

  /**
   In the patch lane the projection marks a request approved exactly when the reverse
   scan that guards execution finds an approval, decisions serial or not.
   */
  lemma {:induction false} PatchApprovalAgrees(rows: seq<Row>, id: string)
    requires id != "" && WellFormed(rows, false)
    ensures var key := Key(PatchLane, id);
      key in Rebuild(rows) && Rebuild(rows)[key].approved <==> ScanApproves(rows, key)
  {
    if rows != [] {
      PrefixIsWellFormed(rows, false);
      var before, row := rows[..|rows| - 1], rows[|rows| - 1];
      assert rows == before + [row];
      PatchApprovalAgrees(before, id);
      GrowthOfProjection(before, row);
      GrowthOfDecisions(before, row, Key(PatchLane, id));
      PatchApprovalStep(before, row, id);
    }
  }

  lemma PatchApprovalStep(rows: seq<Row>, row: Row, id: string)
    requires id != "" && WellFormed(rows, false) && Justified(rows, row, false)
    ensures var key, state := Key(PatchLane, id), Rebuild(rows);
      var after := ApplyRow(state, row);
      (key in after && after[key].approved)
      <==> if IsDecision(row, key) then row.decision == Some(Approve) else key in state && state[key].approved
  {
    var key, state := Key(PatchLane, id), Rebuild(rows);
    match row.operationType
    case Request(_) =>
      RequestStep(state, row, key);
    case DecisionOn(_) =>
      DecisionStep(state, row, key);
      if IsDecision(row, key) {
        RequestedPatchIsIntroduced(rows, id);
        KeyIsIntroduced(rows, key);
      }
    case _ =>
      ExecutionStep(state, row, key);
  }

  /**
   In either lane the two agree exactly when the approval, if there is one, follows a
   request row with a non-empty list of patch ids or callable tools.
   */
  lemma ApprovalAgreesExactlyWhenSound(rows: seq<Row>, key: Key)
    requires key.id != "" && WellFormed(rows, true)
    ensures var projected := key in Rebuild(rows) && Rebuild(rows)[key].approved;
      (projected <==> ScanApproves(rows, key)) <==> (WasApproved(rows, key) ==> SoundlyApproved(rows, key))
  {
    LedgerMirrors(rows, key);
  }

  /** A tool request that lists no callable tool can be approved, and the projection never shows it. */
  lemma UnlistedToolRequestDisagrees(id: string)
    requires id != ""
    ensures var key := Key(ToolLane, id);
      var request := Row(1, Request(ToolLane), Proposed, None, "", id, "", None, false);
      var decision := Row(2, DecisionOn(ToolLane), Approved, Some(1), "", id, id, Some(Approve), false);
      var rows := [request, decision];
      && WellFormed(rows, true) && ScanApproves(rows, key) && key !in Rebuild(rows)
      && Warnings(rows) == [InvalidRequestReference(1), OrphanDecision(2)]
  {
    var key := Key(ToolLane, id);
    var request := Row(1, Request(ToolLane), Proposed, None, "", id, "", None, false);
    var decision := Row(2, DecisionOn(ToolLane), Approved, Some(1), "", id, id, Some(Approve), false);
    var rows := [request, decision];
    assert rows[..0] == [] && rows[..1] == [request] && [request][..0] == [];
    assert IsRequest([request][0], key);
    assert Justified([], request, true);
    assert Justified([request], decision, true) by {
      assert FindDecision([request], key) == FindDecision([], key);
      LastRequestIsFound([request], id, 0);
    }
    assert Rebuild([request]) == ApplyRow(Rebuild([]), request) == map[];
    assert Rebuild(rows) == ApplyRow(map[], decision) == map[];
    assert Warnings([request]) == [InvalidRequestReference(1)];
  }

  predicate Approves(row: Row, key: Key) {
    IsDecision(row, key) && row.decision == Some(Approve)
  }

  predicate Denies(row: Row, key: Key) {
    IsDecision(row, key) && row.decision == Some(Deny)
  }

  /** A row that closes a request: a denial, or any row of its execution. */
  predicate Closes(row: Row, key: Key) {
    || Denies(row, key)
    || (!row.operationType.Request? && !row.operationType.DecisionOn? && Ref(row, key.lane) == key.id)
  }

  /** Since its accepted request row, the key was approved and not denied after that. */
  predicate ApprovedNow(rows: seq<Row>, key: Key) {
    exists i :: 0 <= i < |rows| && Introduced(rows[..i], key) && Approves(rows[i], key)
      && forall j :: i < j < |rows| ==> !Denies(rows[j], key)
  }

  /** Since its accepted request row, the key was closed and not approved after that. */
  predicate ClosedNow(rows: seq<Row>, key: Key) {
    exists i :: 0 <= i < |rows| && Introduced(rows[..i], key) && Closes(rows[i], key)
      && forall j :: i < j < |rows| ==> !Approves(rows[j], key)
  }

  /** Since its accepted request row, the key was reconciled. */
  predicate ReconciledNow(rows: seq<Row>, key: Key) {
    exists i :: 0 <= i < |rows| && Introduced(rows[..i], key) && IsReconciliation(rows[i], key)
  }

  lemma GrowthOfApproval(rows: seq<Row>, row: Row, key: Key)
    ensures ApprovedNow(rows + [row], key)
       <==> (Introduced(rows, key) && Approves(row, key)) || (ApprovedNow(rows, key) && !Denies(row, key))
  {
    hide Introduced, Approves, Denies;
    var more := rows + [row];
    assert more[..|rows|] == rows && more[|rows|] == row;
    assert forall i :: 0 <= i < |rows| ==> more[i] == rows[i] && more[..i] == rows[..i];
    if ApprovedNow(rows, key) && !Denies(row, key) {
      var i :| 0 <= i < |rows| && Introduced(rows[..i], key) && Approves(rows[i], key)
        && forall j :: i < j < |rows| ==> !Denies(rows[j], key);
      assert Approves(more[i], key) && Introduced(more[..i], key);
    }
    if Introduced(rows, key) && Approves(row, key) {
      assert Approves(more[|rows|], key) && Introduced(more[..|rows|], key);
    }
  }

  lemma GrowthOfClosing(rows: seq<Row>, row: Row, key: Key)
    ensures ClosedNow(rows + [row], key)
       <==> (Introduced(rows, key) && Closes(row, key)) || (ClosedNow(rows, key) && !Approves(row, key))
  {
    hide Introduced, Approves, Closes;
    var more := rows + [row];
    assert more[..|rows|] == rows && more[|rows|] == row;
    assert forall i :: 0 <= i < |rows| ==> more[i] == rows[i] && more[..i] == rows[..i];
    if ClosedNow(rows, key) && !Approves(row, key) {
      var i :| 0 <= i < |rows| && Introduced(rows[..i], key) && Closes(rows[i], key)
        && forall j :: i < j < |rows| ==> !Approves(rows[j], key);
      assert Closes(more[i], key) && Introduced(more[..i], key);
    }
    if Introduced(rows, key) && Closes(row, key) {
      assert Closes(more[|rows|], key) && Introduced(more[..|rows|], key);
    }
  }

  lemma GrowthOfReconciling(rows: seq<Row>, row: Row, key: Key)
    ensures ReconciledNow(rows + [row], key)
       <==> (Introduced(rows, key) && IsReconciliation(row, key)) || ReconciledNow(rows, key)
  {
    hide Introduced, IsReconciliation;
    var more := rows + [row];
    assert more[..|rows|] == rows && more[|rows|] == row;
    assert forall i :: 0 <= i < |rows| ==> more[i] == rows[i] && more[..i] == rows[..i];
    if ReconciledNow(rows, key) {
      var i :| 0 <= i < |rows| && Introduced(rows[..i], key) && IsReconciliation(rows[i], key);
      assert IsReconciliation(more[i], key) && Introduced(more[..i], key);
    }
    if Introduced(rows, key) && IsReconciliation(row, key) {
      assert IsReconciliation(more[|rows|], key) && Introduced(more[..|rows|], key);
    }
  }

  lemma NothingWithoutIntroduction(rows: seq<Row>, key: Key)
    requires !Introduced(rows, key)
    ensures !ApprovedNow(rows, key) && !ClosedNow(rows, key) && !ReconciledNow(rows, key)
  {
    forall i | 0 <= i < |rows|
      ensures !Introduced(rows[..i], key)
    {
      if Introduced(rows[..i], key) {
        IntroducedEarlier(rows, i, key);
      }
    }
  }

  /** What one row does to the projection of a key, decisions serial or not. */
  lemma MeaningStep(state: Projections, rows: seq<Row>, row: Row, key: Key)
    requires key.id != "" && Justified(rows, row, false) && key in state
    ensures var after := ApplyRow(state, row);
      && key in after
      && (after[key].approved <==> Approves(row, key) || (state[key].approved && !Denies(row, key)))
      && (after[key].reconciled <==> IsReconciliation(row, key) || state[key].reconciled)
      && (after[key].closed.Some? <==> Closes(row, key) || (state[key].closed.Some? && !Approves(row, key)))
  {
    match row.operationType
    case Request(_) => RequestStep(state, row, key);
    case DecisionOn(_) => DecisionStep(state, row, key);
    case _ => ExecutionStep(state, row, key);
  }

  lemma FreshKey(state: Projections, rows: seq<Row>, row: Row, key: Key)
    requires key.id != "" && Justified(rows, row, false) && key !in state && key in ApplyRow(state, row)
    ensures var p := ApplyRow(state, row)[key]; !p.approved && !p.reconciled && p.closed.None?
  {
    match row.operationType
    case Request(_) => RequestStep(state, row, key);
    case DecisionOn(_) => DecisionStep(state, row, key);
    case _ => ExecutionStep(state, row, key);
  }

  /** What the projection holds of a key, told by the rows alone, decisions serial or not. */
  lemma {:induction false} ProjectionMeaning(rows: seq<Row>, key: Key)
    requires key.id != "" && WellFormed(rows, false)
    ensures key in Rebuild(rows) <==> Introduced(rows, key)
    ensures key in Rebuild(rows) ==>
      var p := Rebuild(rows)[key];
      && (p.approved <==> ApprovedNow(rows, key))
      && (p.reconciled <==> ReconciledNow(rows, key))
      && (p.closed.Some? <==> ClosedNow(rows, key))
  {
    KeyIsIntroduced(rows, key);
    if rows != [] {
      PrefixIsWellFormed(rows, false);
      hide WellFormed, Introduced, Justified, ApprovedNow, ReconciledNow, ClosedNow, Approves, Denies, Closes, IsReconciliation;
      var before, row := rows[..|rows| - 1], rows[|rows| - 1];
      assert rows == before + [row];
      ProjectionMeaning(before, key);
      GrowthOfProjection(before, row);
      GrowthOfApproval(before, row, key);
      GrowthOfClosing(before, row, key);
      GrowthOfReconciling(before, row, key);
      if key in Rebuild(before) {
        MeaningStep(Rebuild(before), before, row, key);
      } else {
        NothingWithoutIntroduction(before, key);
        if key in Rebuild(rows) {
          FreshKey(Rebuild(before), before, row, key);
        }
      }
    }
  }

  /**
   A request that the projection has seen is in no list exactly when it is approved and was
   reconciled, and nothing has closed it since its last approval.
   */
  lemma {:induction false} UnlistedExactly(rows: seq<Row>, key: Key)
    requires key.id != "" && WellFormed(rows, false) && key in Rebuild(rows)
    ensures var state := Rebuild(rows);
      !(IsPending(state, key) || IsReady(state, key) || IsClosed(state, key))
      <==> ApprovedNow(rows, key) && ReconciledNow(rows, key) && !ClosedNow(rows, key)
  {
    ProjectionMeaning(rows, key);
  }

  /** Pending, ready and closed cover every request that the projection of a serial ledger has seen. */
  lemma EverySeenRequestIsListed(rows: seq<Row>, key: Key)
    requires key.id != "" && WellFormed(rows, true) && key in Rebuild(rows)
    ensures var state := Rebuild(rows); IsPending(state, key) || IsReady(state, key) || IsClosed(state, key)
  {
    LedgerMirrors(rows, key);
  }

  /** An approval that comes after the reconciliation of its request takes the request out of every list. */
  lemma LateApprovalUnlists(rows: seq<Row>, row: Row, key: Key)
    requires key in Rebuild(rows) && Rebuild(rows)[key].reconciled
    requires key.id != "" && IsDecision(row, key) && row.decision == Some(Approve)
    ensures var state := Rebuild(rows + [row]);
      key in state && !IsPending(state, key) && !IsReady(state, key) && !IsClosed(state, key)
  {
    GrowthOfProjection(rows, row);
    DecisionStep(Rebuild(rows), row, key);
  }

  /**
   A request is listed as ready and as closed exactly when it was approved, an attempt to
   apply it began, and no reconciliation was written: the trace of an interrupted execution.
   */
  lemma {:induction false} ReadyAndClosedMeansInterrupted(rows: seq<Row>, key: Key)
    requires key.id != "" && WellFormed(rows, true)
    ensures var state := Rebuild(rows);
      IsReady(state, key) && IsClosed(state, key)
      <==> SoundlyApproved(rows, key) && Attempted(rows, key) && !WasReconciled(rows, key)
  {
    LedgerMirrors(rows, key);
    if SoundlyApproved(rows, key) {
      SoundMeansIntroduced(rows, key);
    }
  }

  lemma SoundMeansIntroduced(rows: seq<Row>, key: Key)
    requires SoundlyApproved(rows, key)
    ensures Introduced(rows, key)
  {
    var j :| 0 <= j < |rows| && IsDecision(rows[j], key) && Introduced(rows[..j], key);
    IntroducedEarlier(rows, j, key);
  }

  lemma IntroducedEarlier(rows: seq<Row>, j: nat, key: Key)
    requires j <= |rows| && Introduced(rows[..j], key)
    ensures Introduced(rows, key)
  {
    var before := rows[..j];
    var i :| 0 <= i < |before| && Introduces(before[i], key);
    assert Introduces(rows[i], key);
  }
}
