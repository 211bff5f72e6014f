/**
 Checking the patches and patch requests of a body, recording them, and reading them back.

 Models `_validate_patch_ops`, `_validate_patch_requests`, the recording loop of
 `/api/ide/execute` and `_extract_request_patches` of runtime_core/comms_server.py.
 */
module PatchValidation {
  import opened Results
  import opened Strings
  import opened JsonValues
  import opened PatchPlan

  datatype Problem =
    | NotAList
    | NotAnObject(index: nat)
    | NotUnique(index: nat)
    | MissingFields(index: nat)
    | UnknownFields(index: nat)
    | BadField(index: nat, field: string)
    | UnknownPatchId(index: nat, patchId: string)

  const PATCH_NOT_FOUND := "patch_not_found"
  const DEFAULT_REQUEST_ID := "PATCH_REQ_001"

  datatype PatchRequest = PatchRequest(
    requestId: string, patchIds: seq<string>, reason: string, risk: string, requiresApproval: bool)

  /** What a patch request row keeps: its references and its patches. */
  datatype RequestRecord = RequestRecord(patchIds: seq<string>, patches: seq<Patch>)

  // ---------------------------------------------------------------------
  // Patches
  // ---------------------------------------------------------------------

  function PatchIdAt(render: Renderer, fields: map<string, Json>, index: nat): string {
    var given := if "patch_id" in fields && !fields["patch_id"].JNull? then Strip(FieldText(render, fields, "patch_id")) else "";
    if given == "" then "PATCH_" + ThreeDigits(index + 1) else given
  }

  /** The field checks shared by the three operations. */
  function CheckFields(fields: map<string, Json>, required: set<string>, index: nat): Option<Problem> {
    if !(required <= fields.Keys) then Some(MissingFields(index))
    else if !(fields.Keys <= required + {"patch_id"}) then Some(UnknownFields(index))
    else None
  }

  /** One entry of `patches` whose id is settled. */
  function ParsePatch(render: Renderer, fields: map<string, Json>, index: nat, patchId: string): Result<Patch, Problem> {
    var op := Strip(FieldText(render, fields, "op"));
    var file := Strip(FieldText(render, fields, "file"));
    if op == "replace_range" then
      var problem := CheckFields(fields, {"op", "file", "start_line", "end_line", "content"}, index);
      if problem.Some? then Failure(problem.value)
      else if file == "" then Failure(BadField(index, "file"))
      else
        var startLine, endLine := AsInt(fields["start_line"]), AsInt(fields["end_line"]);
        if startLine.None? || startLine.value < 1 then Failure(BadField(index, "start_line"))
        else if endLine.None? || endLine.value < startLine.value then Failure(BadField(index, "end_line"))
        else if !fields["content"].JString? then Failure(BadField(index, "content"))
        else Success(Patch(patchId, file, ReplaceRange(startLine, endLine, Some(fields["content"].text))))
    else if op == "create_file" then
      var problem := CheckFields(fields, {"op", "file", "content"}, index);
      if problem.Some? then Failure(problem.value)
      else if file == "" then Failure(BadField(index, "file"))
      else if !fields["content"].JString? then Failure(BadField(index, "content"))
      else Success(Patch(patchId, file, CreateFile(Some(fields["content"].text))))
    else if op == "delete_file" then
      var problem := CheckFields(fields, {"op", "file"}, index);
      if problem.Some? then Failure(problem.value)
      else if file == "" then Failure(BadField(index, "file"))
      else Success(Patch(patchId, file, DeleteFile))
    else Failure(BadField(index, "op"))
  }

  /** The planner finds every field it needs, with the type and range it needs. */
  predicate WellTyped(p: Patch) {
    && Strip(p.file) != "" && Stripped(p.file)
    && match p.op
       case CreateFile(content) => content.Some?
       case DeleteFile => true
       case ReplaceRange(startLine, endLine, content) =>
         content.Some? && startLine.Some? && endLine.Some? && 1 <= startLine.value <= endLine.value
       case UnknownOp(_) => false
  }

  ghost predicate ProperIds(patches: seq<Patch>) {
    && (forall i :: 0 <= i < |patches| ==> patches[i].patchId != "" && Strip(patches[i].patchId) == patches[i].patchId)
    && (forall i, j :: 0 <= i < j < |patches| ==> patches[i].patchId != patches[j].patchId)
  }

  lemma ParsedPatchIsWellTyped(render: Renderer, fields: map<string, Json>, index: nat, patchId: string)
    ensures var r := ParsePatch(render, fields, index, patchId);
      r.Success? ==> WellTyped(r.value) && r.value.patchId == patchId
  {
    hide Strip, FieldText;
    StripIsStripped(FieldText(render, fields, "file"));
  }

  predicate KnownId(patches: seq<Patch>, id: string) {
    exists i :: 0 <= i < |patches| && patches[i].patchId == id
  }

  /** One round of the validation loop, after `patches` were accepted. */
  function NextPatch(render: Renderer, raw: Json, index: nat, patches: seq<Patch>): Result<Patch, Problem> {
    if !raw.JObject? then Failure(NotAnObject(index))
    else
      var patchId := PatchIdAt(render, raw.fields, index);
      if KnownId(patches, patchId) then Failure(NotUnique(index))
      else ParsePatch(render, raw.fields, index, patchId)
  }

  /** The patches that a list of raw entries stands for, or the first problem with it. */
  function AcceptedPatches(render: Renderer, raws: seq<Json>): Result<seq<Patch>, Problem> {
    if raws == [] then Success([])
    else
      var last := |raws| - 1;
      match AcceptedPatches(render, raws[..last])
      case Failure(problem) => Failure(problem)
      case Success(patches) =>
        match NextPatch(render, raws[last], last, patches)
        case Failure(problem) => Failure(problem)
        case Success(patch) => Success(patches + [patch])
  }

  lemma {:induction false} ProblemStays(render: Renderer, raws: seq<Json>, k: nat)
    requires k <= |raws| && AcceptedPatches(render, raws[..k]).Failure?
    ensures AcceptedPatches(render, raws) == AcceptedPatches(render, raws[..k])
  {
    if k == |raws| {
      assert raws[..k] == raws;
    } else {
      var last := |raws| - 1;
      assert raws[..last][..k] == raws[..k];
      ProblemStays(render, raws[..last], k);
    }
  }

  /** `_validate_patch_ops`. */
  method ValidatePatchOps(render: Renderer, raw: Json) returns (r: Result<seq<Patch>, Problem>)
    ensures raw.JNull? ==> r == Success([])
    ensures raw.JArray? ==> r == AcceptedPatches(render, raw.items)
    ensures !raw.JNull? && !raw.JArray? ==> r == Failure(NotAList)
  {
    if raw.JNull? {
      return Success([]);
    }
    if !raw.JArray? {
      return Failure(NotAList);
    }
    var raws, validated: seq<Patch>, seen: set<string> := raw.items, [], {};
    for i := 0 to |raws|
      invariant AcceptedPatches(render, raws[..i]) == Success(validated)
      invariant forall id :: id in seen <==> KnownId(validated, id)
    {
      assert raws[..i + 1][..i] == raws[..i];
      var next := ValidatePatch(render, raws[i], i, validated, seen);
      if next.Failure? {
        ProblemStays(render, raws, i + 1);
        return Failure(next.error);
      }
      KnownIdsGrow(validated, next.value);
      seen := seen + {next.value.patchId};
      validated := validated + [next.value];
    }
    assert raws[..|raws|] == raws;
    return Success(validated);
  }

  method ValidatePatch(render: Renderer, raw: Json, index: nat, ghost validated: seq<Patch>, seen: set<string>)
    returns (r: Result<Patch, Problem>)
    requires forall id :: id in seen <==> KnownId(validated, id)
    ensures r == NextPatch(render, raw, index, validated)
  {
    if !raw.JObject? {
      return Failure(NotAnObject(index));
    }
    var patchId := PatchIdAt(render, raw.fields, index);
    if patchId in seen {
      return Failure(NotUnique(index));
    }
    return ParsePatch(render, raw.fields, index, patchId);
  }

  lemma KnownIdsGrow(patches: seq<Patch>, p: Patch)
    ensures forall id :: KnownId(patches + [p], id) <==> KnownId(patches, id) || id == p.patchId
  {
    assert (patches + [p])[|patches|] == p;
    assert forall i :: 0 <= i < |patches| ==> (patches + [p])[i] == patches[i];
  }

  lemma PatchIdIsProper(render: Renderer, fields: map<string, Json>, index: nat)
    ensures var id := PatchIdAt(render, fields, index); id != "" && Strip(id) == id
  {
    StripIsStripped(FieldText(render, fields, "patch_id"));
    var digits := ThreeDigits(index + 1);
    DecimalDigits(index + 1);
    assert digits != "" && '0' <= digits[|digits| - 1] <= '9';
    assert Stripped("PATCH_" + digits) by {
      assert ("PATCH_" + digits)[0] == 'P';
      assert ("PATCH_" + digits)[|"PATCH_" + digits| - 1] == digits[|digits| - 1];
    }
    StrippedIsFixed("PATCH_" + digits);
  }

  lemma NoIds()
    ensures ProperIds([])
  {
  }

  lemma ProperIdsGrow(patches: seq<Patch>, patch: Patch)
    requires ProperIds(patches) && ProperIds([patch]) && !KnownId(patches, patch.patchId)
    ensures ProperIds(patches + [patch])
  {
    var more := patches + [patch];
    assert [patch][0] == patch && more[|patches|] == patch;
    assert forall i :: 0 <= i < |patches| ==> more[i] == patches[i] && patches[i].patchId != patch.patchId;
  }

  /** An accepted list gives one well-typed patch per entry, with distinct proper ids. */
  lemma {:induction false} AcceptedPatchesAreProper(render: Renderer, raws: seq<Json>)
    ensures var r := AcceptedPatches(render, raws);
      r.Success? ==>
        && |r.value| == |raws| && ProperIds(r.value)
        && forall i :: 0 <= i < |raws| ==> WellTyped(r.value[i])
  {
    if raws != [] {
      var last := |raws| - 1;
      AcceptedPatchesAreProper(render, raws[..last]);
      if AcceptedPatches(render, raws).Success? {
        var patches := AcceptedPatches(render, raws[..last]).value;
        var patchId := PatchIdAt(render, raws[last].fields, last);
        PatchIdIsProper(render, raws[last].fields, last);
        ParsedPatchIsWellTyped(render, raws[last].fields, last, patchId);
        ProperIdsGrow(patches, AcceptedPatches(render, raws).value[last]);
      }
    }
  }

  // ---------------------------------------------------------------------
  // Patch requests
  // ---------------------------------------------------------------------

  /** `str(candidate).strip()` for each candidate. */
  function Candidates(render: Renderer, raws: seq<Json>): seq<string> {
    seq(|raws|, i requires 0 <= i < |raws| => Strip(Text(render, raws[i])))
  }

  /** The elements in the order of their first occurrence. */
  function FirstOccurrences(ids: seq<string>): seq<string> {
    if ids == [] then []
    else
      var before, last := FirstOccurrences(ids[..|ids| - 1]), ids[|ids| - 1];
      if last in before then before else before + [last]
  }

  predicate Acceptable(ids: seq<string>, patches: seq<Patch>) {
    forall id :: id in ids ==> id != "" && KnownId(patches, id)
  }

  /** The inner loop of `_validate_patch_requests`: known patch ids, repeats skipped. */
  method ValidateIds(render: Renderer, raws: seq<Json>, patches: seq<Patch>, known: set<string>, index: nat)
    returns (r: Result<seq<string>, Problem>)
    requires forall id :: id in known <==> KnownId(patches, id)
    ensures r.Success? <==> Acceptable(Candidates(render, raws), patches)
    ensures r.Success? ==> r.value == FirstOccurrences(Candidates(render, raws))
  {
    var ids, seen := [], {};
    var all := Candidates(render, raws);
    for i := 0 to |raws|
      invariant Acceptable(all[..i], patches) && ids == FirstOccurrences(all[..i])
      invariant forall id :: id in seen <==> id in ids
    {
      var id := all[i];
      assert all[..i + 1] == all[..i] + [id] && all[..i + 1][..i] == all[..i];
      assert id in all;
      if id == "" {
        return Failure(BadField(index, "patch_ids"));
      }
      if id !in seen {
        if id !in known {
          return Failure(UnknownPatchId(index, id));
        }
        seen := seen + {id};
        ids := ids + [id];
      } else {
        FirstOccurrencesAreElements(all[..i]);
      }
    }
    assert all[..|raws|] == all;
    return Success(ids);
  }

  lemma {:induction false} FirstOccurrencesAreElements(ids: seq<string>)
    ensures forall id :: id in FirstOccurrences(ids) <==> id in ids
    ensures forall i, j :: 0 <= i < j < |FirstOccurrences(ids)| ==> FirstOccurrences(ids)[i] != FirstOccurrences(ids)[j]
    ensures ids != [] ==> FirstOccurrences(ids) != []
  {
    if ids != [] {
      FirstOccurrencesAreElements(ids[..|ids| - 1]);
      assert ids == ids[..|ids| - 1] + [ids[|ids| - 1]];
    }
  }

  function RequestIdAt(render: Renderer, fields: map<string, Json>, index: nat): string {
    var given := Strip(FieldText(render, fields, "request_id"));
    if given == "" then "PATCH_REQ_" + ThreeDigits(index + 1) else given
  }

  /** The fields of a request besides its ids. */
  function CheckRequest(render: Renderer, fields: map<string, Json>, index: nat): Option<Problem> {
    if "reason" !in fields || !fields["reason"].JString? || Strip(fields["reason"].text) == "" then
      Some(BadField(index, "reason"))
    else if Lower(Strip(FieldText(render, fields, "risk"))) !in {"low", "medium", "high"} then
      Some(BadField(index, "risk"))
    else if "requires_approval" !in fields || !fields["requires_approval"].JBool? then
      Some(BadField(index, "requires_approval"))
    else None
  }

  /** An entry that is a valid request, its id apart. */
  predicate ValidRequest(render: Renderer, raw: Json, index: nat, patches: seq<Patch>) {
    && raw.JObject?
    && raw.fields.Keys <= {"request_id", "patch_ids", "reason", "risk", "requires_approval"}
    && "patch_ids" in raw.fields && raw.fields["patch_ids"].JArray? && raw.fields["patch_ids"].items != []
    && Acceptable(Candidates(render, raw.fields["patch_ids"].items), patches)
    && CheckRequest(render, raw.fields, index).None?
  }

  /** What a valid entry stands for: its patch ids are kept in the order of their first occurrence. */
  function RequestOf(render: Renderer, raw: Json, index: nat, patches: seq<Patch>): PatchRequest
    requires ValidRequest(render, raw, index, patches)
  {
    var fields := raw.fields;
    PatchRequest(RequestIdAt(render, fields, index), FirstOccurrences(Candidates(render, fields["patch_ids"].items)),
                 Strip(fields["reason"].text), Lower(Strip(FieldText(render, fields, "risk"))), fields["requires_approval"].flag)
  }

  method ValidateRequest(render: Renderer, raw: Json, index: nat, patches: seq<Patch>, known: set<string>, seen: set<string>)
    returns (r: Result<PatchRequest, Problem>)
    requires forall id :: id in known <==> KnownId(patches, id)
    ensures r.Success? <==> ValidRequest(render, raw, index, patches) && RequestIdAt(render, raw.fields, index) !in seen
    ensures r.Success? ==> r.value == RequestOf(render, raw, index, patches)
  {
    if !raw.JObject? {
      return Failure(NotAnObject(index));
    }
    var fields := raw.fields;
    if !(fields.Keys <= {"request_id", "patch_ids", "reason", "risk", "requires_approval"}) {
      return Failure(UnknownFields(index));
    }
    var requestId := RequestIdAt(render, fields, index);
    if requestId in seen {
      return Failure(NotUnique(index));
    }
    if "patch_ids" !in fields || !fields["patch_ids"].JArray? || fields["patch_ids"].items == [] {
      return Failure(BadField(index, "patch_ids"));
    }
    var ids := ValidateIds(render, fields["patch_ids"].items, patches, known, index);
    if ids.Failure? {
      return Failure(ids.error);
    }
    var problem := CheckRequest(render, fields, index);
    if problem.Some? {
      return Failure(problem.value);
    }
    return Success(PatchRequest(requestId, ids.value, Strip(fields["reason"].text),
                                Lower(Strip(FieldText(render, fields, "risk"))), fields["requires_approval"].flag));
  }

  /** A request the handler records lists known patch ids, each once, at least one. */
  ghost predicate ProperRequest(request: PatchRequest, patches: seq<Patch>) {
    && request.patchIds != [] && Acceptable(request.patchIds, patches)
    && (forall i, j :: 0 <= i < j < |request.patchIds| ==> request.patchIds[i] != request.patchIds[j])
  }

  function PatchIds(patches: seq<Patch>): seq<string> {
    seq(|patches|, i requires 0 <= i < |patches| => patches[i].patchId)
  }

  lemma RequestIsProper(render: Renderer, raw: Json, index: nat, patches: seq<Patch>)
    requires ValidRequest(render, raw, index, patches)
    ensures ProperRequest(RequestOf(render, raw, index, patches), patches)
  {
    FirstOccurrencesAreElements(Candidates(render, raw.fields["patch_ids"].items));
  }

  /** The first `n` entries are valid, and no two of them have the same request id, given or made from their place. */
  predicate ValidAndDistinct(render: Renderer, raws: seq<Json>, patches: seq<Patch>, n: nat)
    requires n <= |raws|
  {
    && (forall k :: 0 <= k < n ==> ValidRequest(render, raws[k], k, patches))
    && (forall j, k :: 0 <= j < k < n ==>
          RequestIdAt(render, raws[j].fields, j) != RequestIdAt(render, raws[k].fields, k))
  }

  /**
   `_validate_patch_requests`: without requests, one request asks for every patch. A list is
   accepted exactly when every entry is valid and no id repeats.
   */
  method ValidatePatchRequests(render: Renderer, raw: Json, patches: seq<Patch>)
    returns (r: Result<seq<PatchRequest>, Problem>)
    requires ProperIds(patches)
    ensures r.Success? ==> forall k :: 0 <= k < |r.value| ==> ProperRequest(r.value[k], patches)
    ensures r.Success? ==> forall k :: 0 <= k < |r.value| ==> r.value[k].requestId != ""
    ensures raw.JNull? ==> r.Success?
    ensures raw.JNull? && patches == [] ==> r.value == []
    ensures raw.JNull? && patches != [] ==>
      |r.value| == 1 && r.value[0].requestId == DEFAULT_REQUEST_ID && r.value[0].patchIds == PatchIds(patches)
    ensures raw.JArray? ==>
      (r.Success? <==> ValidAndDistinct(render, raw.items, patches, |raw.items|))
    ensures raw.JArray? && r.Success? ==>
      |r.value| == |raw.items|
      && forall k :: 0 <= k < |r.value| ==> r.value[k] == RequestOf(render, raw.items[k], k, patches)
    ensures !raw.JNull? && !raw.JArray? ==> r == Failure(NotAList)
  {
    if raw.JNull? {
      if patches == [] {
        return Success([]);
      }
      KnownIds(patches);
      var reason := "Apply " + Decimal(|patches|) + " proposed patch(es) from IDE request.";
      return Success([PatchRequest(DEFAULT_REQUEST_ID, PatchIds(patches), reason, "low", true)]);
    }
    if !raw.JArray? {
      return Failure(NotAList);
    }
    r := ValidateEach(render, raw.items, patches);
    if r.Success? {
      forall k | 0 <= k < |r.value|
        ensures ProperRequest(r.value[k], patches)
      {
        RequestIsProper(render, raw.items[k], k, patches);
      }
      forall k | 0 <= k < |r.value|
        ensures r.value[k].requestId != ""
      {
        assert RequestIdAt(render, raw.items[k].fields, k) != "";
      }
    }
  }

  /** The requests have different ids, and `seen` holds those ids. */
  ghost predicate IdsSeen(requests: seq<PatchRequest>, seen: set<string>) {
    && (forall j, k :: 0 <= j < k < |requests| ==> requests[j].requestId != requests[k].requestId)
    && (forall k :: 0 <= k < |requests| ==> requests[k].requestId in seen)
    && (forall id :: id in seen ==> exists k :: 0 <= k < |requests| && requests[k].requestId == id)
  }

  lemma IdsSeenGrow(requests: seq<PatchRequest>, request: PatchRequest, seen: set<string>)
    requires IdsSeen(requests, seen) && request.requestId !in seen
    ensures IdsSeen(requests + [request], seen + {request.requestId})
  {
    var more := requests + [request];
    assert more[|requests|] == request && forall k :: 0 <= k < |requests| ==> more[k] == requests[k];
    forall id | id in seen + {request.requestId}
      ensures exists k :: 0 <= k < |more| && more[k].requestId == id
    {
      if id in seen {
        var k :| 0 <= k < |requests| && requests[k].requestId == id;
        assert more[k].requestId == id;
      } else {
        assert more[|requests|].requestId == id;
      }
    }
  }

  /** The requests of the first `n` entries. */
  ghost predicate Accepted(render: Renderer, raws: seq<Json>, patches: seq<Patch>, n: nat, requests: seq<PatchRequest>)
    requires n <= |raws|
  {
    |requests| == n
    && forall k :: 0 <= k < n ==> ValidRequest(render, raws[k], k, patches) && requests[k] == RequestOf(render, raws[k], k, patches)
  }

  lemma AcceptedGrows(render: Renderer, raws: seq<Json>, patches: seq<Patch>, n: nat, requests: seq<PatchRequest>)
    requires n < |raws| && Accepted(render, raws, patches, n, requests) && ValidRequest(render, raws[n], n, patches)
    ensures Accepted(render, raws, patches, n + 1, requests + [RequestOf(render, raws[n], n, patches)])
  {
  }

  lemma AcceptedIsDistinct(render: Renderer, raws: seq<Json>, patches: seq<Patch>, requests: seq<PatchRequest>, seen: set<string>)
    requires Accepted(render, raws, patches, |raws|, requests) && IdsSeen(requests, seen)
    ensures ValidAndDistinct(render, raws, patches, |raws|)
  {
    forall j, k | 0 <= j < k < |raws|
      ensures RequestIdAt(render, raws[j].fields, j) != RequestIdAt(render, raws[k].fields, k)
    {
      assert requests[j].requestId != requests[k].requestId;
    }
  }

  lemma RefusedRequest(render: Renderer, raws: seq<Json>, patches: seq<Patch>, n: nat, requests: seq<PatchRequest>, seen: set<string>)
    requires n < |raws| && Accepted(render, raws, patches, n, requests) && IdsSeen(requests, seen)
    requires ValidRequest(render, raws[n], n, patches) ==> RequestIdAt(render, raws[n].fields, n) in seen
    ensures !ValidAndDistinct(render, raws, patches, |raws|)
  {
    if ValidRequest(render, raws[n], n, patches) {
      var k :| 0 <= k < n && requests[k].requestId == RequestIdAt(render, raws[n].fields, n);
      assert requests[k] == RequestOf(render, raws[k], k, patches);
    }
  }

  /** The loop over a list of requests. */
  method ValidateEach(render: Renderer, raws: seq<Json>, patches: seq<Patch>) returns (r: Result<seq<PatchRequest>, Problem>)
    ensures r.Success? <==> ValidAndDistinct(render, raws, patches, |raws|)
    ensures r.Success? ==>
      |r.value| == |raws| && forall k :: 0 <= k < |r.value| ==> r.value[k] == RequestOf(render, raws[k], k, patches)
  {
    var requests: seq<PatchRequest>, seen: set<string> := [], {};
    var known := set p | p in patches :: p.patchId;
    KnownSet(patches);
    for i := 0 to |raws|
      invariant Accepted(render, raws, patches, i, requests) && IdsSeen(requests, seen)
    {
      var next := ValidateRequest(render, raws[i], i, patches, known, seen);
      if next.Failure? {
        RefusedRequest(render, raws, patches, i, requests, seen);
        return Failure(next.error);
      }
      AcceptedGrows(render, raws, patches, i, requests);
      IdsSeenGrow(requests, next.value, seen);
      seen := seen + {next.value.requestId};
      requests := requests + [next.value];
    }
    AcceptedIsDistinct(render, raws, patches, requests, seen);
    return Success(requests);
  }

  lemma KnownSet(patches: seq<Patch>)
    ensures forall id :: id in (set p | p in patches :: p.patchId) <==> KnownId(patches, id)
  {
    forall id
      ensures id in (set p | p in patches :: p.patchId) <==> KnownId(patches, id)
    {
      if KnownId(patches, id) {
        var i :| 0 <= i < |patches| && patches[i].patchId == id;
        assert patches[i] in patches;
      }
    }
  }

  lemma KnownIds(patches: seq<Patch>)
    requires ProperIds(patches)
    ensures Acceptable(PatchIds(patches), patches)
  {
    assert forall i :: 0 <= i < |patches| ==> PatchIds(patches)[i] == patches[i].patchId;
  }

  // ---------------------------------------------------------------------
  // Recording and reading back
  // ---------------------------------------------------------------------

  /** The stripped, non-empty ids of a list. */
  function ProperNames(ids: seq<string>): seq<string> {
    if ids == [] then []
    else
      ProperNames(ids[..|ids| - 1])
      + if Strip(ids[|ids| - 1]) == "" then [] else [Strip(ids[|ids| - 1])]
  }

  /** The patches under their stripped ids; a later patch takes the place of an earlier one. */
  function IndexOf(patches: seq<Patch>): map<string, Patch> {
    if patches == [] then map[]
    else
      var before, last := IndexOf(patches[..|patches| - 1]), patches[|patches| - 1];
      if Strip(last.patchId) == "" then before else before[Strip(last.patchId) := last]
  }

  function Pick(ids: seq<string>, index: map<string, Patch>): seq<Patch> {
    if ids == [] then []
    else
      Pick(ids[..|ids| - 1], index)
      + if ids[|ids| - 1] in index then [index[ids[|ids| - 1]]] else []
  }

  /** The recording loop of `/api/ide/execute`. */
  function RecordRequest(request: PatchRequest, patches: seq<Patch>): RequestRecord {
    RequestRecord(ProperNames(request.patchIds), Pick(ProperNames(request.patchIds), IndexOf(patches)))
  }

  function Extracted(record: RequestRecord): Result<seq<Patch>, string> {
    var ids, index := ProperNames(record.patchIds), IndexOf(record.patches);
    if forall id :: id in ids ==> id in index then Success(Pick(ids, index)) else Failure(PATCH_NOT_FOUND)
  }

  /** `_extract_request_patches`. */
  method ExtractRequestPatches(record: RequestRecord) returns (r: Result<seq<Patch>, string>)
    ensures r == Extracted(record)
  {
    var ids := ProperNames(record.patchIds);
    var index := IndexOf(record.patches);
    var selected := [];
    for i := 0 to |ids|
      invariant selected == Pick(ids[..i], index)
      invariant forall k :: 0 <= k < i ==> ids[k] in index
    {
      assert ids[..i + 1][..i] == ids[..i];
      if ids[i] !in index {
        return Failure(PATCH_NOT_FOUND);
      }
      selected := selected + [index[ids[i]]];
    }
    assert ids[..|ids|] == ids;
    return Success(selected);
  }

  lemma OneMoreName(ids: seq<string>, id: string)
    requires id != "" && Strip(id) == id
    ensures ProperNames(ids + [id]) == ProperNames(ids) + [id]
  {
    assert (ids + [id])[..|ids|] == ids;
  }

  lemma {:induction false} ProperNamesOfProper(ids: seq<string>)
    requires forall k :: 0 <= k < |ids| ==> ids[k] != "" && Strip(ids[k]) == ids[k]
    ensures ProperNames(ids) == ids
  {
    if ids != [] {
      var front, last := ids[..|ids| - 1], ids[|ids| - 1];
      assert ids == front + [last];
      ProperNamesOfProper(front);
      OneMoreName(front, last);
    }
  }

  ghost predicate IndexHolds(index: map<string, Patch>, patches: seq<Patch>) {
    && (forall id :: id in index <==> KnownId(patches, id))
    && (forall i :: 0 <= i < |patches| ==> patches[i].patchId in index && index[patches[i].patchId] == patches[i])
  }

  lemma {:induction false} IndexOfProper(patches: seq<Patch>)
    requires ProperIds(patches)
    ensures IndexHolds(IndexOf(patches), patches)
  {
    if patches != [] {
      var last := |patches| - 1;
      IndexOfProper(patches[..last]);
      assert patches == patches[..last] + [patches[last]];
      KnownIdsGrow(patches[..last], patches[last]);
    }
  }

  /** Picking known ids gives one patch per id, in the order of the ids. */
  ghost predicate PickedInOrder(ids: seq<string>, picked: seq<Patch>, patches: seq<Patch>) {
    && |picked| == |ids|
    && forall k :: 0 <= k < |ids| ==> picked[k] in patches && picked[k].patchId == ids[k]
  }

  lemma {:induction false} PickKnown(ids: seq<string>, patches: seq<Patch>, index: map<string, Patch>)
    requires IndexHolds(index, patches) && Acceptable(ids, patches)
    ensures PickedInOrder(ids, Pick(ids, index), patches)
  {
    if ids != [] {
      var last := |ids| - 1;
      assert ids == ids[..last] + [ids[last]];
      assert forall id :: id in ids[..last] ==> id in ids;
      PickKnown(ids[..last], patches, index);
      assert ids[last] in ids && KnownId(patches, ids[last]);
    }
  }

  /**
   Reading a recorded request back gives exactly its validated patches, one per requested
   id and in the requested order, so no request that the handler recorded is reported as
   missing a patch.
   */
  lemma RecordedRequestReadsBack(request: PatchRequest, patches: seq<Patch>)
    requires ProperIds(patches) && ProperRequest(request, patches)
    ensures Extracted(RecordRequest(request, patches)).Success?
    ensures PickedInOrder(request.patchIds, Extracted(RecordRequest(request, patches)).value, patches)
  {
    var ids, recorded := request.patchIds, Pick(request.patchIds, IndexOf(patches));
    NamesAreProper(ids, patches);
    RecordedPatches(ids, patches);
    var again := Pick(ids, IndexOf(recorded));
    PickFromRecorded(ids, recorded, patches);
    SamePicks(ids, again, recorded, patches);
    assert Extracted(RecordRequest(request, patches)) == Success(again);
  }

  /** The record of a request that the handler accepted, with the patches of its body. */
  ghost predicate HandlerRecord(record: RequestRecord) {
    exists request, patches ::
      ProperIds(patches) && ProperRequest(request, patches) && record == RecordRequest(request, patches)
  }

  lemma HandlerRecordReadsBack(record: RequestRecord)
    requires HandlerRecord(record)
    ensures Extracted(record).Success?
  {
    var request, patches :|
      ProperIds(patches) && ProperRequest(request, patches) && record == RecordRequest(request, patches);
    RecordedRequestReadsBack(request, patches);
  }

  lemma NamesAreProper(ids: seq<string>, patches: seq<Patch>)
    requires ProperIds(patches) && Acceptable(ids, patches)
    ensures ProperNames(ids) == ids
  {
    forall k | 0 <= k < |ids|
      ensures ids[k] != "" && Strip(ids[k]) == ids[k]
    {
      assert ids[k] in ids && KnownId(patches, ids[k]);
    }
    ProperNamesOfProper(ids);
  }

  lemma RecordedPatches(ids: seq<string>, patches: seq<Patch>)
    requires ProperIds(patches) && Acceptable(ids, patches)
    ensures PickedInOrder(ids, Pick(ids, IndexOf(patches)), patches)
  {
    IndexOfProper(patches);
    PickKnown(ids, patches, IndexOf(patches));
  }

  lemma PickFromRecorded(ids: seq<string>, recorded: seq<Patch>, patches: seq<Patch>)
    requires ProperIds(patches) && PickedInOrder(ids, recorded, patches)
    requires Acceptable(ids, patches) && forall i, j :: 0 <= i < j < |ids| ==> ids[i] != ids[j]
    ensures forall id :: id in ids ==> id in IndexOf(recorded)
    ensures PickedInOrder(ids, Pick(ids, IndexOf(recorded)), recorded)
  {
    PickedIdsAreProper(ids, recorded, patches);
    IndexOfProper(recorded);
    forall id | id in ids
      ensures KnownId(recorded, id)
    {
      var k :| 0 <= k < |ids| && ids[k] == id;
      assert recorded[k].patchId == id;
    }
    RecordedPatches(ids, recorded);
  }

  lemma PickedIdsAreProper(ids: seq<string>, picked: seq<Patch>, patches: seq<Patch>)
    requires ProperIds(patches) && PickedInOrder(ids, picked, patches)
    requires forall i, j :: 0 <= i < j < |ids| ==> ids[i] != ids[j]
    ensures ProperIds(picked)
  {
    assert forall k :: 0 <= k < |picked| ==> picked[k].patchId == ids[k];
  }

  /** What is picked from the picked patches are patches of the original list. */
  lemma SamePicks(ids: seq<string>, again: seq<Patch>, picked: seq<Patch>, patches: seq<Patch>)
    requires PickedInOrder(ids, again, picked) && PickedInOrder(ids, picked, patches)
    ensures PickedInOrder(ids, again, patches)
  {
  }
}
