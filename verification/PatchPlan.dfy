/**
 Planning a patch request on a virtual overlay of the workspace.

 Models `_resolve_workspace_target` and `_build_atomic_patch_plan` of
 runtime_core/comms_server.py. The planner looks at the paths that the patches name and at
 nothing above them, so it is compared with patching a map of paths; PatchExecution compares
 both with a disk.
 */
module PatchPlan {
  import opened Results
  import opened Strings
  import opened Workspace
  import opened AtomicCommit
  import TextLines

  /** A recorded patch: fields that the record lacks, or that have the wrong type, are absent. */
  datatype PatchOp =
    | CreateFile(content: Option<string>)
    | DeleteFile
    | ReplaceRange(startLine: Option<int>, endLine: Option<int>, content: Option<string>)
    | UnknownOp(name: string)

  datatype Patch = Patch(patchId: string, file: string, op: PatchOp)

  const FILE_NOT_FOUND := "file_not_found"
  const FILE_ALREADY_EXISTS := "file_already_exists"

  // ---------------------------------------------------------------------
  // Resolving a file name inside the workspace
  // ---------------------------------------------------------------------

  /** Following path components from a directory; symbolic links are not part of the workspace. */
  function Walk(dir: seq<string>, parts: seq<string>): seq<string>
    decreases |parts|
  {
    if parts == [] then dir
    else if parts[0] == "" || parts[0] == "." then Walk(dir, parts[1..])
    else if parts[0] == ".." then Walk(if dir == [] then [] else dir[..|dir| - 1], parts[1..])
    else Walk(dir + [parts[0]], parts[1..])
  }

  /** `_resolve_workspace_target`: None unless the name denotes a path strictly inside `root`. */
  function Resolve(root: seq<string>, file: string): Option<Path> {
    var candidate := Strip(file);
    if candidate == "" then None
    else
      var joined := Walk(if candidate[0] == '/' then [] else root, SplitOn(candidate, '/'));
      if root < joined then Some(Path(joined[..|joined| - 1], joined[|joined| - 1])) else None
  }

  predicate Inside(root: seq<string>, p: Path) {
    root <= p.parent
  }

  // ---------------------------------------------------------------------
  // Sequential patching, the meaning of a request
  // ---------------------------------------------------------------------

  datatype Outcome = Applied(tree: Tree) | Rejected(index: nat, reason: string)

  /** What an operation makes of a file that may be there, or why it cannot. */
  function Operate(content: Option<string>, op: PatchOp): Result<Option<string>, string> {
    match op
    case CreateFile(text) =>
      if text.None? then Failure(INVALID_PATCH)
      else if content.Some? then Failure(FILE_ALREADY_EXISTS)
      else Success(text)
    case DeleteFile =>
      if content.None? then Failure(FILE_NOT_FOUND) else Success(None)
    case ReplaceRange(startLine, endLine, text) =>
      if startLine.None? || endLine.None? || text.None? then Failure(INVALID_PATCH)
      else if content.None? then Failure(FILE_NOT_FOUND)
      else
        (match TextLines.ReplaceRange(content.value, startLine.value, endLine.value, text.value)
         case Success(updated) => Success(Some(updated))
         case Failure(reason) => Failure(reason))
    case UnknownOp(_) => Failure(INVALID_PATCH)
  }

  function WithContent(tree: Tree, p: Path, content: Option<string>): Tree {
    if content.Some? then tree[p := File(content.value)] else tree - {p}
  }

  /**
   Applies one patch to what the paths name, as if every directory were there. Reading a
   path in `unreadable` raises. PatchExecution says when this is what a disk does.
   */
  function PatchByName(tree: Tree, root: seq<string>, unreadable: set<Path>, patch: Patch): Result<Tree, string> {
    match Resolve(root, patch.file)
    case None => Failure(INVALID_PATCH)
    case Some(p) =>
      if p in tree && tree[p].Directory? then Failure(INVALID_PATCH)
      else if p in tree && p in unreadable then Failure(IO_ERROR)
      else
        match Operate(if p in tree then Some(tree[p].text) else None, patch.op)
        case Success(content) => Success(WithContent(tree, p, content))
        case Failure(reason) => Failure(reason)
  }

  /** Applies the patches one by one, up to the first that fails. */
  function PatchAllByName(tree: Tree, root: seq<string>, unreadable: set<Path>, patches: seq<Patch>): (o: Outcome)
    ensures o.Rejected? ==> o.index < |patches|
  {
    if patches == [] then Applied(tree)
    else
      var last := |patches| - 1;
      match PatchAllByName(tree, root, unreadable, patches[..last])
      case Rejected(i, r) => Rejected(i, r)
      case Applied(t) =>
        match PatchByName(t, root, unreadable, patches[last])
        case Success(t') => Applied(t')
        case Failure(r) => Rejected(last, r)
  }

  /** The paths that the patches name. */
  function TouchedPaths(root: seq<string>, patches: seq<Patch>): set<Path> {
    set i | 0 <= i < |patches| && Resolve(root, patches[i].file).Some? :: Resolve(root, patches[i].file).value
  }

  /** The touched paths that hold a file in the end. */
  function Written(root: seq<string>, patches: seq<Patch>, result: Tree): set<Path> {
    TouchedPaths(root, patches) * result.Keys
  }

  /** The touched paths that are gone in the end. */
  function Removed(tree: Tree, root: seq<string>, patches: seq<Patch>, result: Tree): set<Path> {
    TouchedPaths(root, patches) * (tree.Keys - result.Keys)
  }

  /** The plan writes and deletes exactly the touched paths, and gives `result`. */
  ghost predicate PlanOf(tree: Tree, root: seq<string>, patches: seq<Patch>, result: Tree, plan: Plan) {
    && Distinct(AllTargets(plan))
    && Elements(Targets(plan.writes)) == Written(root, patches, result)
    && Elements(plan.deletes) == Removed(tree, root, patches, result)
    && Planned(tree, plan) == result && NoDirectoryTarget(tree, plan)
  }

  // ---------------------------------------------------------------------
  // The overlay
  // ---------------------------------------------------------------------

  /** What the planner knows of a touched path. */
  datatype Entry = Entry(originalExists: bool, content: Option<string>) {
    predicate Exists() { content.Some? }
  }

  type Overlay = map<Path, Entry>

  predicate Shown(tree: Tree, virtual: Overlay, p: Path) {
    if p in virtual then virtual[p].Exists() else p in tree
  }

  /** The workspace as the overlay shows it. */
  function View(tree: Tree, virtual: Overlay): Tree {
    map p | p in tree.Keys + virtual.Keys && Shown(tree, virtual, p) ::
      if p in virtual then File(virtual[p].content.value) else tree[p]
  }

  /** Every entry remembers whether its path was there, and no entry hides a directory or an unreadable file. */
  ghost predicate ValidOverlay(tree: Tree, unreadable: set<Path>, virtual: Overlay) {
    forall p :: p in virtual ==>
      && (virtual[p].originalExists <==> p in tree)
      && (p in tree ==> tree[p].File? && p !in unreadable)
  }

  function WritesOf(keys: seq<Path>, virtual: Overlay): seq<Write>
    requires forall p :: p in keys ==> p in virtual
  {
    if keys == [] then []
    else
      var last := keys[|keys| - 1];
      WritesOf(keys[..|keys| - 1], virtual)
      + if virtual[last].Exists() then [Write(last, virtual[last].content.value)] else []
  }

  function DeletesOf(keys: seq<Path>, virtual: Overlay): seq<Path>
    requires forall p :: p in keys ==> p in virtual
  {
    if keys == [] then []
    else
      var last := keys[|keys| - 1];
      DeletesOf(keys[..|keys| - 1], virtual)
      + if !virtual[last].Exists() && virtual[last].originalExists then [last] else []
  }

  function PatchIdOf(patch: Patch): Option<string> {
    if Strip(patch.patchId) == "" then None else Some(Strip(patch.patchId))
  }

  /** The keys list the touched paths in the order of their first touch. */
  ghost predicate Keyed(keys: seq<Path>, virtual: Overlay) {
    Distinct(keys) && Elements(keys) == virtual.Keys
  }

  lemma ViewUpdate(tree: Tree, virtual: Overlay, p: Path, e: Entry)
    ensures View(tree, virtual[p := e])
         == WithContent(View(tree, virtual), p, e.content)
  {
  }

  /** Loading a path into the overlay does not change what the overlay shows. */
  lemma LoadingIsInvisible(tree: Tree, virtual: Overlay, p: Path)
    requires p !in virtual && (p in tree ==> tree[p].File?)
    ensures View(tree, virtual[p := LoadedEntry(tree, p)]) == View(tree, virtual)
  {
    ViewUpdate(tree, virtual, p, LoadedEntry(tree, p));
  }

  function LoadedEntry(tree: Tree, p: Path): Entry
    requires p in tree ==> tree[p].File?
  {
    if p in tree then Entry(true, Some(tree[p].text)) else Entry(false, None)
  }

  /** `_ensure_entry`: a path is read from disk the first time it is touched. */
  method EnsureEntry(tree: Tree, unreadable: set<Path>, target: Path, virtual: Overlay, keys: seq<Path>)
    returns (virtual': Overlay, keys': seq<Path>, error: Option<string>)
    requires ValidOverlay(tree, unreadable, virtual) && Keyed(keys, virtual)
    ensures ValidOverlay(tree, unreadable, virtual') && Keyed(keys', virtual')
    ensures View(tree, virtual') == View(tree, virtual)
    ensures error.None? ==> virtual'.Keys == virtual.Keys + {target}
    ensures keys' == keys || keys' == keys + [target]
    ensures error == (
      if target in virtual || target !in tree then None
      else if tree[target].Directory? then Some(INVALID_PATCH)
      else if target in unreadable then Some(IO_ERROR)
      else None)
  {
    virtual', keys', error := virtual, keys, None;
    if target in virtual {
      return;
    }
    if target in tree {
      if tree[target].Directory? {
        error := Some(INVALID_PATCH);
        return;
      }
      if target in unreadable {
        error := Some(IO_ERROR);
        return;
      }
    }
    LoadingIsInvisible(tree, virtual, target);
    virtual' := virtual[target := LoadedEntry(tree, target)];
    keys' := keys + [target];
  }

  /** The branches of one round: they change the entry of the target, or refuse the patch. */
  method PlanOperation(entry: Entry, op: PatchOp) returns (entry': Entry, error: Option<string>)
    ensures match Operate(entry.content, op)
      case Success(content) => error.None? && entry' == entry.(content := content)
      case Failure(r) => error == Some(r) && entry' == entry
  {
    entry', error := entry, None;
    match op
    case CreateFile(content) =>
      if content.None? {
        error := Some(INVALID_PATCH);
      } else if entry.Exists() {
        error := Some(FILE_ALREADY_EXISTS);
      } else {
        entry' := entry.(content := content);
      }
    case DeleteFile =>
      if !entry.Exists() {
        error := Some(FILE_NOT_FOUND);
      } else {
        entry' := entry.(content := None);
      }
    case ReplaceRange(startLine, endLine, content) =>
      if startLine.None? || endLine.None? || content.None? {
        error := Some(INVALID_PATCH);
      } else if !entry.Exists() {
        error := Some(FILE_NOT_FOUND);
      } else {
        var updated := TextLines.ReplaceRange(entry.content.value, startLine.value, endLine.value, content.value);
        if updated.Failure? {
          error := Some(updated.error);
        } else {
          entry' := entry.(content := Some(updated.value));
        }
      }
    case UnknownOp(_) =>
      error := Some(INVALID_PATCH);
  }

  /** On a path the overlay knows, a patch works on the entry. */
  lemma PatchOfEntry(tree: Tree, root: seq<string>, unreadable: set<Path>, patch: Patch, virtual: Overlay, target: Path)
    requires unreadable <= tree.Keys && ValidOverlay(tree, unreadable, virtual)
    requires Resolve(root, patch.file) == Some(target) && target in virtual
    ensures PatchByName(View(tree, virtual), root, unreadable, patch)
         == match Operate(virtual[target].content, patch.op)
            case Success(content) => Success(View(tree, virtual[target := virtual[target].(content := content)]))
            case Failure(reason) => Failure(reason)
  {
    hide Operate, Resolve;
    var result := Operate(virtual[target].content, patch.op);
    if result.Success? {
      ViewUpdate(tree, virtual, target, virtual[target].(content := result.value));
    }
  }

  /** On a path the overlay does not know, a patch meets what is on disk. */
  lemma PatchOfUnread(tree: Tree, root: seq<string>, unreadable: set<Path>, patch: Patch, virtual: Overlay, target: Path)
    requires Resolve(root, patch.file) == Some(target) && target !in virtual && target in tree
    ensures var r := PatchByName(View(tree, virtual), root, unreadable, patch);
      && (tree[target].Directory? ==> r == Failure(INVALID_PATCH))
      && (tree[target].File? && target in unreadable ==> r == Failure(IO_ERROR))
  {
  }

  lemma EntryChanges(tree: Tree, unreadable: set<Path>, virtual: Overlay, keys: seq<Path>, target: Path, entry: Entry)
    requires ValidOverlay(tree, unreadable, virtual) && Keyed(keys, virtual)
    requires target in virtual && entry.originalExists == virtual[target].originalExists
    ensures ValidOverlay(tree, unreadable, virtual[target := entry]) && Keyed(keys, virtual[target := entry])
  {
    assert virtual[target := entry].Keys == virtual.Keys;
  }

  /** One round of the planning loop follows one step of sequential patching. */
  method PlanPatch(tree: Tree, root: seq<string>, unreadable: set<Path>, patch: Patch, virtual: Overlay, keys: seq<Path>)
    returns (virtual': Overlay, keys': seq<Path>, error: Option<string>)
    requires unreadable <= tree.Keys
    requires ValidOverlay(tree, unreadable, virtual) && Keyed(keys, virtual)
    ensures ValidOverlay(tree, unreadable, virtual') && Keyed(keys', virtual')
    ensures |keys'| <= |keys| + 1
    ensures error.None? ==>
      Resolve(root, patch.file).Some? && virtual'.Keys == virtual.Keys + {Resolve(root, patch.file).value}
    ensures match PatchByName(View(tree, virtual), root, unreadable, patch)
      case Success(t) => error.None? && View(tree, virtual') == t
      case Failure(r) => error == Some(r)
  {
    virtual', keys' := virtual, keys;
    var resolved := Resolve(root, patch.file);
    if resolved.None? {
      return virtual', keys', Some(INVALID_PATCH);
    }
    hide View, ValidOverlay, Keyed, PatchByName, Operate, Resolve;
    var target := resolved.value;
    virtual', keys', error := EnsureEntry(tree, unreadable, target, virtual, keys);
    if error.Some? {
      PatchOfUnread(tree, root, unreadable, patch, virtual, target);
      return;
    }
    PatchOfEntry(tree, root, unreadable, patch, virtual', target);
    var entry;
    entry, error := PlanOperation(virtual'[target], patch.op);
    EntryChanges(tree, unreadable, virtual', keys', target, entry);
    virtual' := virtual'[target := entry];
  }

  // ---------------------------------------------------------------------
  // From the overlay to the plan
  // ---------------------------------------------------------------------

  predicate AllKnown(keys: seq<Path>, virtual: Overlay) {
    forall p :: p in keys ==> p in virtual
  }

  lemma TargetsGrow(writes: seq<Write>, w: Write)
    ensures Targets(writes + [w]) == Targets(writes) + [w.target]
  {
  }

  lemma {:induction false} ListedWrites(keys: seq<Path>, virtual: Overlay)
    requires AllKnown(keys, virtual) && Distinct(keys)
    ensures Distinct(Targets(WritesOf(keys, virtual)))
    ensures forall p :: p in Targets(WritesOf(keys, virtual)) <==> p in keys && virtual[p].Exists()
    ensures forall w :: w in WritesOf(keys, virtual) ==>
      w.target in virtual && virtual[w.target].content == Some(w.content)
  {
    if keys != [] {
      var last := |keys| - 1;
      var p, before := keys[last], WritesOf(keys[..last], virtual);
      assert keys == keys[..last] + [p] && p !in keys[..last];
      ListedWrites(keys[..last], virtual);
      if virtual[p].Exists() {
        TargetsGrow(before, Write(p, virtual[p].content.value));
      } else {
        assert before + [] == before;
      }
    }
  }

  lemma {:induction false} ListedDeletes(keys: seq<Path>, virtual: Overlay)
    requires AllKnown(keys, virtual) && Distinct(keys)
    ensures Distinct(DeletesOf(keys, virtual))
    ensures forall p :: p in DeletesOf(keys, virtual) <==>
      p in keys && !virtual[p].Exists() && virtual[p].originalExists
  {
    if keys != [] {
      var last := |keys| - 1;
      assert keys == keys[..last] + [keys[last]] && keys[last] !in keys[..last];
      ListedDeletes(keys[..last], virtual);
    }
  }

  lemma DistinctConcat<T>(a: seq<T>, b: seq<T>)
    requires Distinct(a) && Distinct(b) && forall x :: x in a ==> x !in b
    ensures Distinct(a + b)
  {
    forall i, j | 0 <= i < j < |a + b|
      ensures (a + b)[i] != (a + b)[j]
    {
      if i < |a| <= j {
        assert a[i] in a && b[j - |a|] in b;
      }
    }
  }

  /** Writing, then deleting, what the overlay lists gives the workspace the overlay shows. */
  lemma PlanGivesView(tree: Tree, unreadable: set<Path>, keys: seq<Path>, virtual: Overlay)
    requires ValidOverlay(tree, unreadable, virtual) && Keyed(keys, virtual)
    ensures AllKnown(keys, virtual)
    ensures var plan := Plan(WritesOf(keys, virtual), DeletesOf(keys, virtual));
      Distinct(AllTargets(plan)) && Planned(tree, plan) == View(tree, virtual)
  {
    hide WritesOf, DeletesOf, View, Planned, SameAt, ValidOverlay, Targets;
    PlanIsListed(keys, virtual);
    var plan := Plan(WritesOf(keys, virtual), DeletesOf(keys, virtual));
    forall p
      ensures SameAt(Planned(tree, plan), View(tree, virtual), p)
    {
      PlanGivesViewAt(tree, unreadable, virtual, plan, p);
    }
    SameTrees(Planned(tree, plan), View(tree, virtual));
  }

  lemma SameTrees(a: Tree, b: Tree)
    requires forall p :: SameAt(a, b, p)
    ensures a == b
  {
    assert forall p :: SameAt(a, b, p) ==> (p in a <==> p in b);
  }

  lemma PlanIsListed(keys: seq<Path>, virtual: Overlay)
    requires Keyed(keys, virtual)
    ensures AllKnown(keys, virtual)
    ensures var plan := Plan(WritesOf(keys, virtual), DeletesOf(keys, virtual));
      && Distinct(AllTargets(plan))
      && (forall p :: p in Targets(plan.writes) <==> p in virtual && virtual[p].Exists())
      && (forall w :: w in plan.writes ==> w.target in virtual && virtual[w.target].content == Some(w.content))
      && (forall p :: p in plan.deletes <==> p in virtual && !virtual[p].Exists() && virtual[p].originalExists)
  {
    hide WritesOf, DeletesOf, Targets;
    assert forall p :: p in keys <==> p in Elements(keys);
    ListedWrites(keys, virtual);
    ListedDeletes(keys, virtual);
    DistinctConcat(Targets(WritesOf(keys, virtual)), DeletesOf(keys, virtual));
  }

  lemma PlanGivesViewAt(tree: Tree, unreadable: set<Path>, virtual: Overlay, plan: Plan, p: Path)
    requires ValidOverlay(tree, unreadable, virtual) && Distinct(AllTargets(plan))
    requires p in Targets(plan.writes) <==> p in virtual && virtual[p].Exists()
    requires forall w :: w in plan.writes ==> w.target in virtual && virtual[w.target].content == Some(w.content)
    requires p in plan.deletes <==> p in virtual && !virtual[p].Exists() && virtual[p].originalExists
    ensures SameAt(Planned(tree, plan), View(tree, virtual), p)
  {
    hide Planned, Distinct;
    PlannedAt(tree, plan, p);
    TargetKinds(plan);
    if p in Targets(plan.writes) {
      var i :| 0 <= i < |plan.writes| && Targets(plan.writes)[i] == p;
      assert HoldsTarget(Planned(tree, plan), plan.writes, i);
      assert plan.writes[i] in plan.writes;
    }
  }

  /** Once a patch is rejected, so is the request, at the same patch and for the same reason. */
  lemma {:induction false} RejectionStays(tree: Tree, root: seq<string>, unreadable: set<Path>, patches: seq<Patch>, k: nat)
    requires k <= |patches| && PatchAllByName(tree, root, unreadable, patches[..k]).Rejected?
    ensures PatchAllByName(tree, root, unreadable, patches) == PatchAllByName(tree, root, unreadable, patches[..k])
  {
    if k == |patches| {
      assert patches[..k] == patches;
    } else {
      var last := |patches| - 1;
      assert patches[..last][..k] == patches[..k];
      RejectionStays(tree, root, unreadable, patches[..last], k);
    }
  }

  /**
   `_build_atomic_patch_plan`: the overlay plan refines sequential patching.

   It fails at the patch, and for the reason, at which patching the paths one by one first
   fails; otherwise its writes and deletes, exactly of the touched paths, give what patching
   the paths one by one gives.
   */
  method BuildAtomicPatchPlan(patches: seq<Patch>, root: seq<string>, tree: Tree, unreadable: set<Path>)
    returns (plan: Option<Plan>, reason: Option<string>, patchId: Option<string>)
    requires unreadable <= tree.Keys
    ensures match PatchAllByName(tree, root, unreadable, patches)
      case Applied(result) =>
        && plan.Some? && reason.None? && patchId.None?
        && PlanOf(tree, root, patches, result, plan.value) && |AllTargets(plan.value)| <= |patches|
      case Rejected(i, r) => plan.None? && reason == Some(r) && patchId == PatchIdOf(patches[i])
  {
    var virtual, keys;
    virtual, keys, reason, patchId := PlanEach(patches, root, tree, unreadable);
    if reason.Some? {
      return None, reason, patchId;
    }
    PlanGivesView(tree, unreadable, keys, virtual);
    PlanAvoidsDirectories(tree, unreadable, keys, virtual);
    PlanTargets(keys, virtual);
    PlanCovers(tree, unreadable, keys, virtual, root, patches);
    var result := ListPlan(keys, virtual);
    return Some(result), None, None;
  }

  /** The lists hold exactly the touched paths that are there in the end, and those that are gone. */
  lemma PlanCovers(tree: Tree, unreadable: set<Path>, keys: seq<Path>, virtual: Overlay, root: seq<string>, patches: seq<Patch>)
    requires ValidOverlay(tree, unreadable, virtual) && Keyed(keys, virtual) && AllKnown(keys, virtual)
    requires virtual.Keys == TouchedPaths(root, patches)
    ensures Elements(Targets(WritesOf(keys, virtual))) == Written(root, patches, View(tree, virtual))
    ensures Elements(DeletesOf(keys, virtual)) == Removed(tree, root, patches, View(tree, virtual))
  {
    hide TouchedPaths, WritesOf, DeletesOf, Targets;
    PlanIsListed(keys, virtual);
    assert forall p :: p in virtual ==> (p in View(tree, virtual) <==> virtual[p].Exists());
  }

  lemma OneMoreTouched(root: seq<string>, patches: seq<Patch>, i: nat)
    requires i < |patches|
    ensures TouchedPaths(root, patches[..i + 1])
         == TouchedPaths(root, patches[..i])
            + if Resolve(root, patches[i].file).Some? then {Resolve(root, patches[i].file).value} else {}
  {
    hide Resolve;
    var before, after := TouchedPaths(root, patches[..i]), TouchedPaths(root, patches[..i + 1]);
    assert forall k :: 0 <= k < i ==> patches[..i + 1][k] == patches[..i][k];
    assert patches[..i + 1][i] == patches[i];
    forall p | p in after
      ensures p in before || Resolve(root, patches[i].file) == Some(p)
    {
      var k :| 0 <= k < i + 1 && Resolve(root, patches[..i + 1][k].file) == Some(p);
      assert k < i ==> Resolve(root, patches[..i][k].file) == Some(p);
    }
    forall p | p in before
      ensures p in after
    {
      var k :| 0 <= k < i && Resolve(root, patches[..i][k].file) == Some(p);
      assert Resolve(root, patches[..i + 1][k].file) == Some(p);
    }
    if Resolve(root, patches[i].file).Some? {
      assert Resolve(root, patches[..i + 1][i].file) == Resolve(root, patches[i].file);
    }
  }

  lemma NothingPlanned(tree: Tree, root: seq<string>, unreadable: set<Path>)
    ensures View(tree, map[]) == tree && ValidOverlay(tree, unreadable, map[]) && Keyed([], map[])
    ensures PatchAllByName(tree, root, unreadable, []) == Applied(tree) && TouchedPaths(root, []) == {}
  {
  }

  lemma OneMoreByName(tree: Tree, root: seq<string>, unreadable: set<Path>, patches: seq<Patch>, i: nat)
    requires i < |patches|
    ensures PatchAllByName(tree, root, unreadable, patches[..i + 1])
         == match PatchAllByName(tree, root, unreadable, patches[..i])
            case Rejected(k, r) => Rejected(k, r)
            case Applied(t) =>
              match PatchByName(t, root, unreadable, patches[i])
              case Success(t') => Applied(t')
              case Failure(r) => Rejected(i, r)
  {
    assert patches[..i + 1][..i] == patches[..i] && patches[..i + 1][i] == patches[i];
  }

  /** The planning loop. */
  method PlanEach(patches: seq<Patch>, root: seq<string>, tree: Tree, unreadable: set<Path>)
    returns (virtual: Overlay, keys: seq<Path>, reason: Option<string>, patchId: Option<string>)
    requires unreadable <= tree.Keys
    ensures ValidOverlay(tree, unreadable, virtual) && Keyed(keys, virtual)
    ensures |keys| <= |patches| && (reason.None? ==> virtual.Keys == TouchedPaths(root, patches))
    ensures match PatchAllByName(tree, root, unreadable, patches)
      case Applied(result) => reason.None? && patchId.None? && View(tree, virtual) == result
      case Rejected(i, r) => reason == Some(r) && patchId == PatchIdOf(patches[i])
  {
    virtual, keys, reason, patchId := map[], [], None, None;
    NothingPlanned(tree, root, unreadable);
    hide View, ValidOverlay, Keyed, TouchedPaths, PatchByName, Resolve;
    for i := 0 to |patches|
      invariant ValidOverlay(tree, unreadable, virtual) && Keyed(keys, virtual)
      invariant PatchAllByName(tree, root, unreadable, patches[..i]) == Applied(View(tree, virtual))
      invariant |keys| <= i && virtual.Keys == TouchedPaths(root, patches[..i])
      invariant reason.None? && patchId.None?
    {
      OneMoreByName(tree, root, unreadable, patches, i);
      OneMoreTouched(root, patches, i);
      virtual, keys, reason := PlanPatch(tree, root, unreadable, patches[i], virtual, keys);
      if reason.Some? {
        RejectionStays(tree, root, unreadable, patches, i + 1);
        patchId := PatchIdOf(patches[i]);
        return;
      }
    }
    assert patches[..|patches|] == patches;
  }

  lemma PlanAvoidsDirectories(tree: Tree, unreadable: set<Path>, keys: seq<Path>, virtual: Overlay)
    requires ValidOverlay(tree, unreadable, virtual) && Keyed(keys, virtual) && AllKnown(keys, virtual)
    ensures NoDirectoryTarget(tree, Plan(WritesOf(keys, virtual), DeletesOf(keys, virtual)))
  {
    ListedWrites(keys, virtual);
    ListedDeletes(keys, virtual);
  }

  /** The closing loop of the planner: what exists is written, what was there and is gone is deleted. */
  method ListPlan(keys: seq<Path>, virtual: Overlay) returns (plan: Plan)
    requires AllKnown(keys, virtual)
    ensures plan == Plan(WritesOf(keys, virtual), DeletesOf(keys, virtual))
  {
    var writes, deletes := [], [];
    for i := 0 to |keys|
      invariant writes == WritesOf(keys[..i], virtual) && deletes == DeletesOf(keys[..i], virtual)
    {
      assert keys[..i + 1][..i] == keys[..i];
      var entry := virtual[keys[i]];
      if entry.Exists() {
        writes := writes + [Write(keys[i], entry.content.value)];
      } else if entry.originalExists {
        deletes := deletes + [keys[i]];
      }
    }
    assert keys[..|keys|] == keys;
    return Plan(writes, deletes);
  }

  lemma {:induction false} ListsAreShort(keys: seq<Path>, virtual: Overlay)
    requires AllKnown(keys, virtual)
    ensures |WritesOf(keys, virtual)| + |DeletesOf(keys, virtual)| <= |keys|
    ensures forall w :: w in WritesOf(keys, virtual) ==> w.target in keys
    ensures forall p :: p in DeletesOf(keys, virtual) ==> p in keys
  {
    if keys != [] {
      var last := |keys| - 1;
      assert keys == keys[..last] + [keys[last]];
      ListsAreShort(keys[..last], virtual);
    }
  }

  lemma PlanTargets(keys: seq<Path>, virtual: Overlay)
    requires AllKnown(keys, virtual)
    ensures var plan := Plan(WritesOf(keys, virtual), DeletesOf(keys, virtual));
      |AllTargets(plan)| <= |keys| && forall p :: p in AllTargets(plan) ==> p in keys
  {
    ListsAreShort(keys, virtual);
    var plan := Plan(WritesOf(keys, virtual), DeletesOf(keys, virtual));
    forall i | 0 <= i < |plan.writes|
      ensures Targets(plan.writes)[i] in keys
    {
      assert plan.writes[i] in plan.writes;
    }
  }

  // ---------------------------------------------------------------------
  // Confinement
  // ---------------------------------------------------------------------

  /** No patch touches a path outside the workspace, whatever its file name spells. */
  lemma {:induction false} PatchesStayInside(tree: Tree, root: seq<string>, unreadable: set<Path>, patches: seq<Patch>, p: Path)
    requires !Inside(root, p)
    ensures var o := PatchAllByName(tree, root, unreadable, patches); o.Applied? ==> SameAt(tree, o.tree, p)
  {
    if patches != [] {
      var last := |patches| - 1;
      PatchesStayInside(tree, root, unreadable, patches[..last], p);
      var before := PatchAllByName(tree, root, unreadable, patches[..last]);
      if before.Applied? {
        PatchStaysInside(before.tree, root, unreadable, patches[last], p);
      }
    }
  }

  ghost predicate SameAt(a: Tree, b: Tree, p: Path) {
    (p in a <==> p in b) && (p in a ==> a[p] == b[p])
  }

  lemma PatchStaysInside(tree: Tree, root: seq<string>, unreadable: set<Path>, patch: Patch, p: Path)
    requires !Inside(root, p)
    ensures var r := PatchByName(tree, root, unreadable, patch); r.Success? ==> SameAt(tree, r.value, p)
  {
    ResolvedInside(root, patch.file);
  }

  lemma ResolvedInside(root: seq<string>, file: string)
    ensures var r := Resolve(root, file); r.Some? ==> Inside(root, r.value)
  {
  }
}
