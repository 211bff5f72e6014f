/**
 The recovery warnings of a ledger that the handlers wrote.

 `_rebuild_request_projections` warns of rows that a damaged ledger might hold. The lemmas
 name the rows of a sound ledger that it warns of as well.
 */
module LedgerWarnings {
  import opened Results
  import opened OperationLedger
  import opened LedgerProjection
  import opened LedgerProtocol

  /** The tool request lists callable tools under an id. */
  predicate ListsTools(row: Row) {
    row.toolRef != "" && row.runnable
  }

  /** A tool request with this id that lists callable tools is in the ledger. */
  predicate ToolsListed(rows: seq<Row>, id: string) {
    exists i :: 0 <= i < |rows| && rows[i].operationType == Request(ToolLane) && rows[i].toolRef == id && ListsTools(rows[i])
  }

  /**
   The rows that the projection can place: everything in the patch lane, tool rows whose
   request lists its tools, and no closing row of an IDE request.
   */
  predicate Placed(before: seq<Row>, row: Row) {
    match row.operationType
    case Request(lane) => lane.PatchLane? || ListsTools(row)
    case DecisionOn(lane) => lane.PatchLane? || ToolsListed(before, row.requestId)
    case Reconciliation => row.patchRef != "" || (row.toolRef != "" && ToolsListed(before, row.toolRef))
    case _ => true
  }

  function WarningOf(row: Row): Warning {
    match row.operationType
    case Request(_) => InvalidRequestReference(row.operationId)
    case DecisionOn(_) => OrphanDecision(row.operationId)
    case _ => OrphanReconciliation(row.operationId)
  }

  /** One warning for each row that is not placed, in the order of the rows. */
  function Expected(rows: seq<Row>): seq<Warning> {
    if rows == [] then []
    else
      var before, row := rows[..|rows| - 1], rows[|rows| - 1];
      Expected(before) + if Placed(before, row) then [] else [WarningOf(row)]
  }

  lemma ToolsListedIsIntroduced(rows: seq<Row>, id: string)
    ensures ToolsListed(rows, id) <==> Introduced(rows, Key(ToolLane, id))
  {
    var key := Key(ToolLane, id);
    if ToolsListed(rows, id) {
      var i :| 0 <= i < |rows| && rows[i].operationType == Request(ToolLane) && rows[i].toolRef == id && ListsTools(rows[i]);
      assert Introduces(rows[i], key);
    }
    if Introduced(rows, key) {
      var i :| 0 <= i < |rows| && Introduces(rows[i], key);
      assert ListsTools(rows[i]);
    }
  }

  /** A result row has its request row, however many rows apart. */
  lemma ResultedWasRequested(rows: seq<Row>, key: Key)
    requires key.id != "" && WellFormed(rows, false) && Resulted(rows, key)
    ensures Requested(rows, key)
  {
    var i :| 0 <= i < |rows| && IsResult(rows[i], key);
    assert Justified(rows[..i], rows[i], false);
    var j :| 0 <= j < i && IsAttempt(rows[..i][j], key);
    assert rows[..j] == rows[..i][..j];
    assert Justified(rows[..j], rows[j], false);
    var k :| 0 <= k < j && IsRequest(rows[..j][k], key);
    assert IsRequest(rows[k], key);
  }

  lemma WarningsOfDecision(rows: seq<Row>, row: Row)
    requires WellFormed(rows, false) && Justified(rows, row, false) && row.operationType.DecisionOn?
    ensures ReferenceWarnings(Rebuild(rows), row) == if Placed(rows, row) then [] else [WarningOf(row)]
  {
    hide WellFormed, Introduced, ToolsListed, Rebuild;
    var key := Key(row.operationType.lane, row.requestId);
    KeyIsIntroduced(rows, key);
    if key.lane.PatchLane? {
      RequestedPatchIsIntroduced(rows, key.id);
    } else {
      ToolsListedIsIntroduced(rows, key.id);
    }
  }

  lemma WarningsOfReconciliation(rows: seq<Row>, row: Row)
    requires WellFormed(rows, false) && Justified(rows, row, false) && row.operationType.Reconciliation?
    ensures ReferenceWarnings(Rebuild(rows), row) == if Placed(rows, row) then [] else [WarningOf(row)]
  {
    hide WellFormed;
    if row.patchRef != "" {
      assert Resulted(rows, Key(PatchLane, row.patchRef));
      ResultedWasRequested(rows, Key(PatchLane, row.patchRef));
      RequestedPatchIsIntroduced(rows, row.patchRef);
      KeyIsIntroduced(rows, Key(PatchLane, row.patchRef));
    } else if row.toolRef != "" {
      KeyIsIntroduced(rows, Key(ToolLane, row.toolRef));
      ToolsListedIsIntroduced(rows, row.toolRef);
    }
  }

  lemma WarningsOfRow(rows: seq<Row>, row: Row)
    requires WellFormed(rows, false) && Justified(rows, row, false)
    ensures ReferenceWarnings(Rebuild(rows), row) == if Placed(rows, row) then [] else [WarningOf(row)]
  {
    if row.operationType.DecisionOn? {
      WarningsOfDecision(rows, row);
    } else if row.operationType.Reconciliation? {
      WarningsOfReconciliation(rows, row);
    }
  }

  lemma PrefixIsSound(rows: seq<Row>)
    requires rows != [] && WellFormed(rows, false) && UniqueIds(rows)
    ensures var before, row := rows[..|rows| - 1], rows[|rows| - 1];
      && WellFormed(before, false) && UniqueIds(before)
      && Justified(before, row, false) && !IdSeen(before, row.operationId)
  {
    hide Justified;
    var before := rows[..|rows| - 1];
    assert forall i :: 0 <= i < |before| ==> before[i] == rows[i] && before[..i] == rows[..i];
  }

  /**
   A ledger that the handlers wrote, decisions serial or not, yields one warning for each row
   that is not placed and no other: no id is duplicate and every decision names its request.
   */
  lemma {:induction false} WarningsOfHandlers(rows: seq<Row>)
    requires WellFormed(rows, false) && UniqueIds(rows)
    ensures Warnings(rows) == Expected(rows)
  {
    hide WellFormed, UniqueIds, Justified, IdSeen, Rebuild, ReferenceWarnings, Placed;
    if rows != [] {
      var last := |rows| - 1;
      var before, row := rows[..last], rows[last];
      PrefixIsSound(rows);
      WarningsOfHandlers(before);
      WarningsOfRow(before, row);
    }
  }

  /** Every warning is of a row that is not placed, and every such row has its warning. */
  lemma {:induction false} ExpectedExactly(rows: seq<Row>, warning: Warning)
    ensures warning in Expected(rows)
       <==> exists i :: 0 <= i < |rows| && !Placed(rows[..i], rows[i]) && warning == WarningOf(rows[i])
  {
    hide Placed, WarningOf;
    if rows != [] {
      var last := |rows| - 1;
      ExpectedExactly(rows[..last], warning);
      assert forall i :: 0 <= i < last ==> rows[..last][i] == rows[i] && rows[..last][..i] == rows[..i];
      if warning in Expected(rows[..last]) {
        var i :| 0 <= i < last && !Placed(rows[..last][..i], rows[..last][i]) && warning == WarningOf(rows[..last][i]);
        assert !Placed(rows[..i], rows[i]) && warning == WarningOf(rows[i]);
      }
    }
  }

  /** Recovery is silent exactly when every row is placed. */
  lemma SilentExactly(rows: seq<Row>)
    requires WellFormed(rows, false) && UniqueIds(rows)
    ensures Warnings(rows) == [] <==> forall i :: 0 <= i < |rows| ==> Placed(rows[..i], rows[i])
  {
    WarningsOfHandlers(rows);
    if i :| 0 <= i < |rows| && !Placed(rows[..i], rows[i]) {
      ExpectedExactly(rows, WarningOf(rows[i]));
    }
    if Expected(rows) != [] {
      ExpectedExactly(rows, Expected(rows)[0]);
    }
  }

  /** Over every run of the protocol, racing decisions included. */
  lemma RunWarnings(steps: seq<Step>)
    ensures Warnings(Run(steps).log) == Expected(Run(steps).log)
  {
    RunKeepsInv(steps, false);
    WarningsOfHandlers(Run(steps).log);
  }
}
