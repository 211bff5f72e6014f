/**
 What executing a patch request does to a disk.

 `Execute` says what planning and committing in runtime_core/comms_server.py make of a list
 of patches when no file operation fails. `PatchAllOnDisk` is the meaning of such a list:
 its patches one by one, each as a request of its own. The lemmas say exactly when the two
 agree, and how they part when one patched path lies above another.
 */
module PatchExecution {
  import opened Results
  import opened Strings
  import opened Workspace
  import opened AtomicCommit
  import opened PatchPlan
  import TextLines

  // ---------------------------------------------------------------------
  // One patch after the other
  // ---------------------------------------------------------------------

  /** A patch that leaves a file makes the directories above it; a file in their place makes it fail. */
  function PatchOnDisk(tree: Tree, root: seq<string>, unreadable: set<Path>, patch: Patch): Result<Tree, string> {
    match PatchByName(tree, root, unreadable, patch)
    case Failure(reason) => Failure(reason)
    case Success(patched) =>
      var p := Resolve(root, patch.file).value;
      if p !in patched then Success(patched)
      else if FileAbove(tree, p) then Failure(IO_ERROR)
      else Success(WithDirs(patched, Above(p)))
  }

  function PatchAllOnDisk(tree: Tree, root: seq<string>, unreadable: set<Path>, patches: seq<Patch>): (o: Outcome)
    ensures o.Rejected? ==> o.index < |patches|
  {
    if patches == [] then Applied(tree)
    else
      var last := |patches| - 1;
      match PatchAllOnDisk(tree, root, unreadable, patches[..last])
      case Rejected(i, r) => Rejected(i, r)
      case Applied(t) =>
        match PatchOnDisk(t, root, unreadable, patches[last])
        case Success(t') => Applied(t')
        case Failure(r) => Rejected(last, r)
  }

  // ---------------------------------------------------------------------
  // Planning, then committing
  // ---------------------------------------------------------------------

  datatype Execution =
    | Refused(index: nat, reason: string)
    | CommitFailed(reason: string)
    | Done(tree: Tree)

  /** The directories above the written paths. */
  function Parents(written: set<Path>): set<Path> {
    set w, d | w in written && d in Above(w) :: d
  }

  predicate BlockedByFile(tree: Tree, written: set<Path>) {
    exists w :: w in written && FileAbove(tree, w)
  }

  /** A path that is written or removed is above a written one. */
  predicate Nested(written: set<Path>, removed: set<Path>) {
    exists p :: p in written + removed && p in Parents(written)
  }

  /** The number of file operations of a commit that nothing stops. */
  function Steps(tree: Tree, written: set<Path>, removed: set<Path>): nat {
    3 * |written| + |(written + removed) * tree.Keys|
  }

  /** What planning and committing make of the patches when no file operation fails. */
  function Execute(tree: Tree, root: seq<string>, unreadable: set<Path>, patches: seq<Patch>): (e: Execution)
    ensures e.Refused? ==> e.index < |patches|
  {
    match PatchAllByName(tree, root, unreadable, patches)
    case Rejected(i, reason) => Refused(i, reason)
    case Applied(result) =>
      var written, removed := Written(root, patches, result), Removed(tree, root, patches, result);
      if BlockedByFile(tree, written) then CommitFailed(IO_ERROR)
      else if Nested(written, removed) then CommitFailed(INVALID_PATCH)
      else Done(WithDirs(result, Parents(written)))
  }

  /** The number of file operations of the commit of these patches. */
  function CommitSteps(tree: Tree, root: seq<string>, unreadable: set<Path>, patches: seq<Patch>): nat {
    match PatchAllByName(tree, root, unreadable, patches)
    case Rejected(_, _) => 0
    case Applied(result) => Steps(tree, Written(root, patches, result), Removed(tree, root, patches, result))
  }

  lemma RefusedPlan(tree: Tree, root: seq<string>, unreadable: set<Path>, patches: seq<Patch>)
    ensures match PatchAllByName(tree, root, unreadable, patches)
      case Rejected(i, reason) => Execute(tree, root, unreadable, patches) == Refused(i, reason)
      case Applied(_) => true
  {
  }

  /** The reasons of the planner and the commit. */
  lemma {:induction false} RefusalReasons(tree: Tree, root: seq<string>, unreadable: set<Path>, patches: seq<Patch>)
    ensures match Execute(tree, root, unreadable, patches)
      case Refused(_, reason) =>
        reason in {INVALID_PATCH, IO_ERROR, FILE_NOT_FOUND, FILE_ALREADY_EXISTS, TextLines.RANGE_CONFLICT}
      case CommitFailed(reason) => reason in {INVALID_PATCH, IO_ERROR}
      case Done(_) => true
  {
    RejectionReasons(tree, root, unreadable, patches);
  }

  lemma {:induction false} RejectionReasons(tree: Tree, root: seq<string>, unreadable: set<Path>, patches: seq<Patch>)
    ensures var o := PatchAllByName(tree, root, unreadable, patches);
      o.Rejected? ==>
        o.reason in {INVALID_PATCH, IO_ERROR, FILE_NOT_FOUND, FILE_ALREADY_EXISTS, TextLines.RANGE_CONFLICT}
  {
    hide Resolve, TextLines.ReplaceRange;
    if patches != [] {
      var last := |patches| - 1;
      RejectionReasons(tree, root, unreadable, patches[..last]);
      var before := PatchAllByName(tree, root, unreadable, patches[..last]);
      if before.Applied? {
        PatchReason(before.tree, root, unreadable, patches[last]);
      }
    }
  }

  lemma PatchReason(tree: Tree, root: seq<string>, unreadable: set<Path>, patch: Patch)
    ensures var r := PatchByName(tree, root, unreadable, patch);
      r.Failure? ==>
        r.error in {INVALID_PATCH, IO_ERROR, FILE_NOT_FOUND, FILE_ALREADY_EXISTS, TextLines.RANGE_CONFLICT}
  {
    hide Resolve;
  }

  lemma FewerParents(fewer: set<Path>, more: set<Path>)
    requires fewer <= more
    ensures Parents(fewer) <= Parents(more)
  {
  }

  lemma {:induction false} DistinctSize<T>(s: seq<T>)
    requires Distinct(s)
    ensures |Elements(s)| == |s|
  {
    if s != [] {
      var last := |s| - 1;
      DistinctSize(s[..last]);
      assert s == s[..last] + [s[last]];
      assert Elements(s) == Elements(s[..last]) + {s[last]};
      assert s[last] !in Elements(s[..last]);
    }
  }

  lemma ElementsOfBoth<T>(a: seq<T>, b: seq<T>)
    ensures Elements(a + b) == Elements(a) + Elements(b)
  {
  }

  lemma ParentsOfPlan(plan: Plan)
    ensures DirsAbove(plan) == Parents(Elements(Targets(plan.writes)))
  {
    hide Above;
    var writes := plan.writes;
    DirsOfAll(writes, |writes|);
    assert forall i :: 0 <= i < |writes| ==> Targets(writes)[i] == writes[i].target;
    forall d | d in DirsAbove(plan)
      ensures d in Parents(Elements(Targets(writes)))
    {
      var i :| 0 <= i < |writes| && d in Above(writes[i].target);
      assert Targets(writes)[i] in Elements(Targets(writes));
    }
    forall d | d in Parents(Elements(Targets(writes)))
      ensures d in DirsAbove(plan)
    {
      var w :| w in Elements(Targets(writes)) && d in Above(w);
      var i :| 0 <= i < |writes| && Targets(writes)[i] == w;
    }
  }

  lemma BlockedPlan(tree: Tree, plan: Plan)
    ensures BlockedByFile(tree, Elements(Targets(plan.writes))) <==> FirstBlocked(tree, plan.writes) < |plan.writes|
  {
    hide FileAbove;
    var writes, n := plan.writes, FirstBlocked(tree, plan.writes);
    if n < |writes| {
      assert Targets(writes)[n] in Elements(Targets(writes));
    }
    if BlockedByFile(tree, Elements(Targets(writes))) {
      var w :| w in Elements(Targets(writes)) && FileAbove(tree, w);
      var i :| 0 <= i < |writes| && Targets(writes)[i] == w;
    }
  }

  lemma NestedPlan(tree: Tree, plan: Plan)
    requires NoDirectoryTarget(tree, plan) && FirstBlocked(tree, plan.writes) == |plan.writes|
    ensures Nested(Elements(Targets(plan.writes)), Elements(plan.deletes)) <==> !Clear(tree, plan)
  {
    hide Above, FirstBlocked;
    var writes := plan.writes;
    ParentsOfPlan(plan);
    ElementsOfBoth(Targets(writes), plan.deletes);
    var all, ready := Elements(AllTargets(plan)), Ready(tree, plan);
    if Nested(Elements(Targets(writes)), Elements(plan.deletes)) {
      var p :| p in all && p in DirsAbove(plan);
      MadeIsDirectory(tree, plan, p);
      assert p in AllTargets(plan);
    } else {
      assert forall p :: p in AllTargets(plan) ==> p in all && p !in DirsAbove(plan);
    }
  }

  lemma MadeIsDirectory(tree: Tree, plan: Plan, p: Path)
    requires FirstBlocked(tree, plan.writes) == |plan.writes| && p in DirsAbove(plan)
    ensures p in Ready(tree, plan) && Ready(tree, plan)[p].Directory?
  {
    hide Above;
    DirsOfAll(plan.writes, |plan.writes|);
    var i :| 0 <= i < |plan.writes| && p in Above(plan.writes[i].target);
    MadeAbove(tree, plan.writes, |plan.writes|, i, p);
  }

  lemma StepsOfPlan(tree: Tree, plan: Plan)
    requires Distinct(AllTargets(plan)) && Clear(tree, plan)
    ensures StopStep(tree, plan) == Steps(tree, Elements(Targets(plan.writes)), Elements(plan.deletes))
  {
    var all, ready := AllTargets(plan), Ready(tree, plan);
    NothingNested(tree, plan);
    TargetKinds(plan);
    DistinctSize(Targets(plan.writes));
    ElementsOfBoth(Targets(plan.writes), plan.deletes);
    ExistingTargets(tree, plan);
    hide FirstBlocked, Existing, Targets;
    NoFirstDirectory(ready, plan);
    assert all[..|all|] == all;
  }

  lemma NoFirstDirectory(tree: Tree, plan: Plan)
    requires NoDirectoryTarget(tree, plan)
    ensures FirstDirectory(tree, AllTargets(plan)) == |AllTargets(plan)|
  {
    var all := AllTargets(plan);
    assert forall i :: 0 <= i < |all| ==> all[i] in all;
  }

  lemma ExistingTargets(tree: Tree, plan: Plan)
    requires Distinct(AllTargets(plan)) && Clear(tree, plan)
    ensures |Existing(Ready(tree, plan), AllTargets(plan))| == |Elements(AllTargets(plan)) * tree.Keys|
  {
    var all, ready := AllTargets(plan), Ready(tree, plan);
    var existing := Existing(ready, all);
    ExistingIsPart(ready, all);
    DistinctSize(existing);
    NoTargetIsMade(tree, plan);
    assert Elements(existing) == Elements(all) * tree.Keys;
  }

  lemma NoTargetIsMade(tree: Tree, plan: Plan)
    requires Clear(tree, plan)
    ensures forall p :: p in AllTargets(plan) ==> p !in DirsAbove(plan) && (p in Ready(tree, plan) <==> p in tree)
  {
    hide Above;
    NothingNested(tree, plan);
    DirsOfAll(plan.writes, |plan.writes|);
    assert forall i :: 0 <= i < |plan.writes| ==> plan.writes[i] in plan.writes;
  }

  /** Directories that are no targets stay through writing and deleting. */
  lemma PlannedWithDirs(tree: Tree, plan: Plan)
    requires Distinct(AllTargets(plan)) && Clear(tree, plan)
    ensures Planned(Ready(tree, plan), plan) == WithDirs(Planned(tree, plan), DirsAbove(plan))
  {
    NoTargetIsMade(tree, plan);
    var a, b := Planned(Ready(tree, plan), plan), WithDirs(Planned(tree, plan), DirsAbove(plan));
    forall p
      ensures SameAt(a, b, p)
    {
      PlannedWithDirsAt(tree, plan, p);
    }
    SameTrees(a, b);
  }

  lemma PlannedWithDirsAt(tree: Tree, plan: Plan, p: Path)
    requires Distinct(AllTargets(plan)) && Clear(tree, plan)
    requires forall t :: t in AllTargets(plan) ==> t !in DirsAbove(plan)
    ensures SameAt(Planned(Ready(tree, plan), plan), WithDirs(Planned(tree, plan), DirsAbove(plan)), p)
  {
    hide Planned, DirsOf, Clear;
    PlannedAt(Ready(tree, plan), plan, p);
    PlannedAt(tree, plan, p);
    TargetKinds(plan);
    if p in Targets(plan.writes) {
      var i :| 0 <= i < |plan.writes| && Targets(plan.writes)[i] == p;
      assert HoldsTarget(Planned(Ready(tree, plan), plan), plan.writes, i);
      assert HoldsTarget(Planned(tree, plan), plan.writes, i);
    }
  }

  /** The commit of the plan ends as `Execute` says. */
  lemma {:induction false} ExecutionOfPlan(tree: Tree, root: seq<string>, unreadable: set<Path>, patches: seq<Patch>,
                                           result: Tree, plan: Plan)
    requires PatchAllByName(tree, root, unreadable, patches) == Applied(result)
    requires PlanOf(tree, root, patches, result, plan)
    ensures var e := Execute(tree, root, unreadable, patches);
      && DirsAbove(plan) == Parents(Written(root, patches, result))
      && (if Clear(tree, plan) then
            && e == Done(Planned(Ready(tree, plan), plan))
            && StopStep(tree, plan) == Steps(tree, Written(root, patches, result), Removed(tree, root, patches, result))
          else
            e == CommitFailed(if FirstBlocked(tree, plan.writes) < |plan.writes| then IO_ERROR else INVALID_PATCH))
  {
    hide PatchAllByName, Planned, Written, Removed, StopStep, BlockedByFile, Nested, Parents, DirsOf, Targets;
    ParentsOfPlan(plan);
    BlockedPlan(tree, plan);
    if FirstBlocked(tree, plan.writes) == |plan.writes| {
      NestedPlan(tree, plan);
    }
    if Clear(tree, plan) {
      PlannedWithDirs(tree, plan);
      StepsOfPlan(tree, plan);
    }
  }

  // ---------------------------------------------------------------------
  // When executing is patching one by one
  // ---------------------------------------------------------------------

  /** The same patch refused for the same reason, or the same files. */
  ghost predicate Agrees(e: Execution, o: Outcome) {
    match e
    case Refused(i, reason) => o == Rejected(i, reason)
    case CommitFailed(_) => false
    case Done(t) => o.Applied? && FilesOf(t) == FilesOf(o.tree)
  }

  /** No file is above a touched path, and no touched path either, unless it is a directory. */
  ghost predicate Unobstructed(tree: Tree, touched: set<Path>) {
    forall p, d :: p in touched && d in Above(p) ==>
      && (d in tree ==> tree[d].Directory?)
      && (d in touched ==> d in tree)
  }

  lemma Unobstructing(tree: Tree, touched: set<Path>, p: Path, d: Path)
    requires Unobstructed(tree, touched) && p in touched && d in Above(p)
    ensures d in Parents(touched) && (d in tree ==> tree[d].Directory?) && (d in touched ==> d in tree)
  {
  }

  /** The tree by name and the one on disk after the same patches of `touched` paths. */
  ghost predicate InStep(tree: Tree, named: Tree, disk: Tree, touched: set<Path>) {
    && OnlyDirectoriesAdded(named, disk, Parents(touched))
    && (forall p :: p !in touched || (p in tree && tree[p].Directory?) ==> SameAt(tree, named, p))
  }

  /** On an unobstructed path both trees show the same. */
  lemma SeenAlike(tree: Tree, named: Tree, disk: Tree, touched: set<Path>, p: Path)
    requires Unobstructed(tree, touched) && InStep(tree, named, disk, touched) && p in touched
    ensures SameAt(named, disk, p) && !FileAbove(disk, p)
  {
    hide Above;
    if p in Parents(touched) {
      TouchedParent(tree, touched, p);
      assert SameAt(tree, named, p);
    }
    forall d | d in Above(p)
      ensures d in disk ==> disk[d].Directory?
    {
      Unobstructing(tree, touched, p, d);
      assert SameAt(tree, named, d);
    }
  }

  lemma TouchedParent(tree: Tree, touched: set<Path>, p: Path)
    requires Unobstructed(tree, touched) && p in touched && p in Parents(touched)
    ensures p in tree && tree[p].Directory?
  {
    hide Above;
    var w :| w in touched && p in Above(w);
    Unobstructing(tree, touched, w, p);
  }

  lemma PatchInStep(tree: Tree, named: Tree, disk: Tree, touched: set<Path>, root: seq<string>, unreadable: set<Path>,
                    patch: Patch)
    requires Unobstructed(tree, touched) && InStep(tree, named, disk, touched)
    requires Resolve(root, patch.file).Some? ==> Resolve(root, patch.file).value in touched
    ensures var a, b := PatchByName(named, root, unreadable, patch), PatchOnDisk(disk, root, unreadable, patch);
      match a
      case Failure(reason) => b == Failure(reason)
      case Success(t) => b.Success? && InStep(tree, t, b.value, touched)
  {
    hide Operate, Resolve, Unobstructed, InStep, FileAbove, Above;
    if Resolve(root, patch.file).Some? {
      var p := Resolve(root, patch.file).value;
      SeenAlike(tree, named, disk, touched, p);
      if !(p in named && named[p].Directory?) {
        var result := Operate(if p in named then Some(named[p].text) else None, patch.op);
        if result.Success? && result.value.Some? {
          WriteInStep(tree, named, disk, touched, p, result.value.value);
        } else if result.Success? {
          DeleteInStep(tree, named, disk, touched, p);
        }
      }
    }
  }

  lemma DeleteInStep(tree: Tree, named: Tree, disk: Tree, touched: set<Path>, p: Path)
    requires InStep(tree, named, disk, touched) && p in touched && (p in named ==> named[p].File?)
    ensures InStep(tree, named - {p}, disk - {p}, touched)
  {
    hide Parents;
    assert p in tree && tree[p].Directory? ==> SameAt(tree, named, p);
  }

  lemma WriteInStep(tree: Tree, named: Tree, disk: Tree, touched: set<Path>, p: Path, text: string)
    requires InStep(tree, named, disk, touched) && p in touched && (p in named ==> named[p].File?)
    ensures InStep(tree, named[p := File(text)], WithDirs(disk[p := File(text)], Above(p)), touched)
  {
    assert forall d :: d in Above(p) ==> d in Parents(touched);
    AboveIsElsewhere(p);
    hide Above, Parents, SameAt;
    assert p in tree && tree[p].Directory? ==> SameAt(tree, named, p);
    DirAddsInStep(named, disk, Parents(touched), p, File(text), Above(p));
    OthersInStep(tree, named, touched, p, File(text));
  }

  lemma DirAddsInStep(named: Tree, disk: Tree, parents: set<Path>, p: Path, node: Node, dirs: set<Path>)
    requires OnlyDirectoriesAdded(named, disk, parents) && dirs <= parents
    ensures OnlyDirectoriesAdded(named[p := node], WithDirs(disk[p := node], dirs), parents)
  {
  }

  lemma OthersInStep(tree: Tree, named: Tree, touched: set<Path>, p: Path, node: Node)
    requires p in touched && !(p in tree && tree[p].Directory?)
    requires forall q :: q !in touched || (q in tree && tree[q].Directory?) ==> SameAt(tree, named, q)
    ensures forall q :: q !in touched || (q in tree && tree[q].Directory?) ==> SameAt(tree, named[p := node], q)
  {
    assert forall q :: SameAt(tree, named, q) && q != p ==> SameAt(tree, named[p := node], q);
  }

  lemma AboveIsElsewhere(p: Path)
    ensures p !in Above(p)
  {
  }

  /** While nothing obstructs the touched paths, patching by name and patching on disk keep step. */
  lemma {:induction false} PatchesInStep(tree: Tree, root: seq<string>, unreadable: set<Path>, patches: seq<Patch>,
                                         touched: set<Path>)
    requires Unobstructed(tree, touched) && TouchedPaths(root, patches) <= touched
    ensures var o := PatchAllOnDisk(tree, root, unreadable, patches);
      match PatchAllByName(tree, root, unreadable, patches)
      case Rejected(i, reason) => o == Rejected(i, reason)
      case Applied(t) => o.Applied? && InStep(tree, t, o.tree, touched)
  {
    hide Unobstructed, InStep, PatchByName, PatchOnDisk, Resolve, TouchedPaths;
    if patches == [] {
      StartInStep(tree, touched);
    } else {
      var last := |patches| - 1;
      LastTouched(root, patches);
      PatchesInStep(tree, root, unreadable, patches[..last], touched);
      var before := PatchAllByName(tree, root, unreadable, patches[..last]);
      if before.Applied? {
        PatchInStep(tree, before.tree, PatchAllOnDisk(tree, root, unreadable, patches[..last]).tree, touched,
                    root, unreadable, patches[last]);
      }
    }
  }

  lemma StartInStep(tree: Tree, touched: set<Path>)
    ensures InStep(tree, tree, tree, touched)
  {
  }

  lemma LastTouched(root: seq<string>, patches: seq<Patch>)
    requires patches != []
    ensures var last := |patches| - 1;
      && TouchedPaths(root, patches[..last]) <= TouchedPaths(root, patches)
      && TouchedPaths(root, patches) == TouchedPaths(root, patches[..last])
           + if Resolve(root, patches[last].file).Some? then {Resolve(root, patches[last].file).value} else {}
  {
    OneMoreTouched(root, patches, |patches| - 1);
    assert patches[..|patches| - 1 + 1] == patches;
  }

  /** The touched paths are and were no directories, and nothing else changed. */
  ghost predicate FilesTouched(tree: Tree, result: Tree, touched: set<Path>) {
    && (forall p :: p in touched && p in tree ==> tree[p].File?)
    && (forall p :: p in touched && p in result ==> result[p].File?)
    && (forall p :: p !in touched ==> SameAt(tree, result, p))
  }

  lemma {:induction false} TouchedAreFiles(tree: Tree, root: seq<string>, unreadable: set<Path>, patches: seq<Patch>)
    ensures var o := PatchAllByName(tree, root, unreadable, patches);
      o.Applied? ==> FilesTouched(tree, o.tree, TouchedPaths(root, patches))
  {
    hide FilesTouched, TouchedPaths, PatchByName, Resolve;
    if patches == [] {
      NothingTouched(tree, root);
    } else {
      var last := |patches| - 1;
      LastTouched(root, patches);
      TouchedAreFiles(tree, root, unreadable, patches[..last]);
      var before := PatchAllByName(tree, root, unreadable, patches[..last]);
      if before.Applied? && PatchByName(before.tree, root, unreadable, patches[last]).Success? {
        TouchesFile(tree, before.tree, root, unreadable, patches[last], TouchedPaths(root, patches[..last]));
      }
    }
  }

  lemma NothingTouched(tree: Tree, root: seq<string>)
    ensures FilesTouched(tree, tree, TouchedPaths(root, []))
  {
  }

  lemma TouchesFile(tree: Tree, now: Tree, root: seq<string>, unreadable: set<Path>, patch: Patch, touched: set<Path>)
    requires FilesTouched(tree, now, touched) && PatchByName(now, root, unreadable, patch).Success?
    ensures Resolve(root, patch.file).Some?
    ensures FilesTouched(tree, PatchByName(now, root, unreadable, patch).value, touched + {Resolve(root, patch.file).value})
  {
    hide Operate, Resolve;
    var p := Resolve(root, patch.file).value;
    assert p !in touched ==> SameAt(tree, now, p);
  }

  /**
   Executing a request is patching the disk one by one, whatever the patches do, when no
   touched path has a file or another touched path above it.
   */
  lemma UnobstructedAgrees(tree: Tree, root: seq<string>, unreadable: set<Path>, patches: seq<Patch>, touched: set<Path>)
    requires Unobstructed(tree, touched) && TouchedPaths(root, patches) <= touched
    ensures Agrees(Execute(tree, root, unreadable, patches), PatchAllOnDisk(tree, root, unreadable, patches))
  {
    PatchesInStep(tree, root, unreadable, patches, touched);
    TouchedAreFiles(tree, root, unreadable, patches);
    hide PatchAllByName, PatchAllOnDisk, TouchedPaths, Above;
    var o := PatchAllByName(tree, root, unreadable, patches);
    if o.Applied? {
      var written, removed := Written(root, patches, o.tree), Removed(tree, root, patches, o.tree);
      NothingBlocked(tree, touched, written, removed);
      SameFiles(o.tree, WithDirs(o.tree, Parents(written)), Parents(written));
      SameFiles(o.tree, PatchAllOnDisk(tree, root, unreadable, patches).tree, Parents(touched));
    }
  }

  lemma NothingBlocked(tree: Tree, touched: set<Path>, written: set<Path>, removed: set<Path>)
    requires Unobstructed(tree, touched) && written + removed <= touched
    requires forall p :: p in written + removed && p in tree ==> tree[p].File?
    ensures !BlockedByFile(tree, written) && !Nested(written, removed)
  {
    hide Above;
    forall w | w in written
      ensures !FileAbove(tree, w)
    {
      forall d | d in Above(w)
        ensures d in tree ==> tree[d].Directory?
      {
        Unobstructing(tree, touched, w, d);
      }
    }
    FewerParents(written, touched);
    forall p | p in written + removed
      ensures p !in Parents(written)
    {
      if p in Parents(touched) {
        TouchedParent(tree, touched, p);
      }
    }
  }

  lemma SameFiles(before: Tree, after: Tree, dirs: set<Path>)
    requires OnlyDirectoriesAdded(before, after, dirs)
    ensures FilesOf(before) == FilesOf(after)
  {
  }

  /** The patch alone: executing it is what `PatchOnDisk` says, in every tree. */
  lemma OnePatchIsExecuted(tree: Tree, root: seq<string>, unreadable: set<Path>, patch: Patch)
    ensures var e := Execute(tree, root, unreadable, [patch]);
      match PatchOnDisk(tree, root, unreadable, patch)
      case Success(t) => e == Done(t)
      case Failure(reason) => e == Refused(0, reason) || e == CommitFailed(reason)
  {
    hide Operate, Resolve, Above, TouchedPaths;
    OneByName(tree, root, unreadable, patch);
    LastTouched(root, [patch]);
    NoneTouched(root);
    assert [patch][..0] == [];
    if Resolve(root, patch.file).Some? {
      var p := Resolve(root, patch.file).value;
      ParentsOfOne(p);
      AboveIsElsewhere(p);
    }
  }

  lemma NoneTouched(root: seq<string>)
    ensures TouchedPaths(root, []) == {}
  {
  }

  lemma ParentsOfOne(p: Path)
    ensures Parents({p}) == Above(p) && Parents({}) == {}
  {
  }

  lemma OneByName(tree: Tree, root: seq<string>, unreadable: set<Path>, patch: Patch)
    ensures PatchAllByName(tree, root, unreadable, [patch])
         == match PatchByName(tree, root, unreadable, patch)
            case Success(t) => Applied(t)
            case Failure(reason) => Rejected(0, reason)
  {
    assert [patch][..0] == [];
    assert PatchAllByName(tree, root, unreadable, []) == Applied(tree);
  }

  // ---------------------------------------------------------------------
  // When it is not
  // ---------------------------------------------------------------------

  function Create(file: string, text: string): Patch {
    Patch("", file, CreateFile(Some(text)))
  }

  function Delete(file: string): Patch {
    Patch("", file, DeleteFile)
  }

  lemma OneMorePatch(tree: Tree, root: seq<string>, unreadable: set<Path>, patches: seq<Patch>, patch: Patch)
    ensures PatchAllByName(tree, root, unreadable, patches + [patch])
         == match PatchAllByName(tree, root, unreadable, patches)
            case Rejected(i, r) => Rejected(i, r)
            case Applied(t) =>
              match PatchByName(t, root, unreadable, patch)
              case Success(t') => Applied(t')
              case Failure(r) => Rejected(|patches|, r)
    ensures PatchAllOnDisk(tree, root, unreadable, patches + [patch])
         == match PatchAllOnDisk(tree, root, unreadable, patches)
            case Rejected(i, r) => Rejected(i, r)
            case Applied(t) =>
              match PatchOnDisk(t, root, unreadable, patch)
              case Success(t') => Applied(t')
              case Failure(r) => Rejected(|patches|, r)
    ensures TouchedPaths(root, patches + [patch])
         == TouchedPaths(root, patches) + if Resolve(root, patch.file).Some? then {Resolve(root, patch.file).value} else {}
  {
    assert (patches + [patch])[..|patches|] == patches;
    LastTouched(root, patches + [patch]);
  }

  lemma NoPatch(tree: Tree, root: seq<string>, unreadable: set<Path>)
    ensures PatchAllByName(tree, root, unreadable, []) == Applied(tree)
    ensures PatchAllOnDisk(tree, root, unreadable, []) == Applied(tree)
    ensures TouchedPaths(root, []) == {}
  {
  }

  /** Creating a path that is not there. */
  lemma Creating(tree: Tree, root: seq<string>, unreadable: set<Path>, file: string, text: string, p: Path)
    requires Resolve(root, file) == Some(p) && p !in tree
    ensures PatchByName(tree, root, unreadable, Create(file, text)) == Success(tree[p := File(text)])
    ensures PatchOnDisk(tree, root, unreadable, Create(file, text))
         == if FileAbove(tree, p) then Failure(IO_ERROR) else Success(WithDirs(tree[p := File(text)], Above(p)))
  {
  }

  /** Deleting a file that can be read. */
  lemma Deleting(tree: Tree, root: seq<string>, unreadable: set<Path>, file: string, p: Path)
    requires Resolve(root, file) == Some(p) && p in tree && tree[p].File? && p !in unreadable
    ensures PatchByName(tree, root, unreadable, Delete(file)) == Success(tree - {p})
    ensures PatchOnDisk(tree, root, unreadable, Delete(file)) == Success(tree - {p})
  {
  }

  lemma PatchingDirectory(tree: Tree, root: seq<string>, unreadable: set<Path>, patch: Patch, p: Path)
    requires Resolve(root, patch.file) == Some(p) && p in tree && tree[p].Directory?
    ensures PatchByName(tree, root, unreadable, patch) == Failure(INVALID_PATCH)
    ensures PatchOnDisk(tree, root, unreadable, patch) == Failure(INVALID_PATCH)
  {
  }

  /** A file is created below a file and deleted again: the plan is empty and succeeds, the disk refuses the creation. */
  lemma BelowFile(tree: Tree, root: seq<string>, unreadable: set<Path>, file: string, p: Path)
    requires Resolve(root, file) == Some(p) && p !in tree && p !in unreadable && FileAbove(tree, p)
    ensures var patches := [] + [Create(file, "")] + [Delete(file)];
      && Execute(tree, root, unreadable, patches) == Done(tree)
      && PatchAllOnDisk(tree, root, unreadable, patches) == Rejected(0, IO_ERROR)
  {
    hide PatchAllByName, PatchAllOnDisk, PatchByName, PatchOnDisk, TouchedPaths, Resolve, Above, FileAbove;
    NoPatch(tree, root, unreadable);
    OneMorePatch(tree, root, unreadable, [], Create(file, ""));
    OneMorePatch(tree, root, unreadable, [] + [Create(file, "")], Delete(file));
    Creating(tree, root, unreadable, file, "", p);
    Deleting(tree[p := File("")], root, unreadable, file, p);
    assert tree[p := File("")] - {p} == tree;
    ParentsOfOne(p);
    assert WithDirs(tree, {}) == tree;
  }

  /**
   A file is created and deleted, then one is created in the place of a directory above it:
   on disk that directory is left over and in the way; the plan does not see it.
   */
  lemma InPlaceOfDirectory(tree: Tree, root: seq<string>, unreadable: set<Path>, above: string, below: string, d: Path, p: Path)
    requires Resolve(root, above) == Some(d) && Resolve(root, below) == Some(p) && d in Above(p)
    requires d !in tree && p !in tree && p !in unreadable && !FileAbove(tree, p) && !FileAbove(tree, d)
    ensures var patches := [] + [Create(below, "")] + [Delete(below)] + [Create(above, "")];
      && Execute(tree, root, unreadable, patches).Done?
      && PatchAllOnDisk(tree, root, unreadable, patches) == Rejected(2, INVALID_PATCH)
  {
    hide PatchAllByName, PatchAllOnDisk, PatchByName, PatchOnDisk, TouchedPaths, Resolve, Above, FileAbove;
    AboveIsStrict(p, d);
    AboveIsElsewhere(d);
    NoPatch(tree, root, unreadable);
    OneMorePatch(tree, root, unreadable, [], Create(below, ""));
    OneMorePatch(tree, root, unreadable, [] + [Create(below, "")], Delete(below));
    OneMorePatch(tree, root, unreadable, [] + [Create(below, "")] + [Delete(below)], Create(above, ""));
    Creating(tree, root, unreadable, below, "", p);
    Deleting(tree[p := File("")], root, unreadable, below, p);
    assert tree[p := File("")] - {p} == tree;
    Creating(tree, root, unreadable, above, "", d);
    var made := WithDirs(tree[p := File("")], Above(p));
    Deleting(made, root, unreadable, below, p);
    PatchingDirectory(made - {p}, root, unreadable, Create(above, ""), d);
    ParentsOfOne(d);
  }

  /** Every patch is of one of the files. */
  ghost predicate NamesOnly(patches: seq<Patch>, files: set<string>) {
    forall i :: 0 <= i < |patches| ==> patches[i].file in files
  }

  function Resolved(root: seq<string>, files: set<string>): set<Path> {
    set f | f in files && Resolve(root, f).Some? :: Resolve(root, f).value
  }

  ghost predicate AlwaysAgrees(tree: Tree, root: seq<string>, unreadable: set<Path>, files: set<string>) {
    forall patches :: NamesOnly(patches, files) ==>
      Agrees(Execute(tree, root, unreadable, patches), PatchAllOnDisk(tree, root, unreadable, patches))
  }

  /** Patches of obstructed files that are executed with success and fail one by one. */
  lemma ObstructedDisagrees(tree: Tree, root: seq<string>, unreadable: set<Path>, files: set<string>)
    requires Closed(tree) && unreadable <= tree.Keys && !Unobstructed(tree, Resolved(root, files))
    ensures exists patches ::
      && NamesOnly(patches, files)
      && Execute(tree, root, unreadable, patches).Done? && PatchAllOnDisk(tree, root, unreadable, patches).Rejected?
  {
    hide Above, Resolve, FileAbove, Execute, PatchAllOnDisk;
    var touched := Resolved(root, files);
    var p, d :| p in touched && d in Above(p) && !((d in tree ==> tree[d].Directory?) && (d in touched ==> d in tree));
    var below :| below in files && Resolve(root, below) == Some(p);
    assert p !in tree;
    if FileAbove(tree, p) {
      BelowFile(tree, root, unreadable, below, p);
      assert NamesOnly([] + [Create(below, "")] + [Delete(below)], files);
    } else {
      NoFileAbove(tree, p, d);
      var above :| above in files && Resolve(root, above) == Some(d);
      InPlaceOfDirectory(tree, root, unreadable, above, below, d, p);
      assert NamesOnly([] + [Create(below, "")] + [Delete(below)] + [Create(above, "")], files);
    }
  }

  lemma NoFileAbove(tree: Tree, p: Path, d: Path)
    requires !FileAbove(tree, p) && d in Above(p)
    ensures (d in tree ==> tree[d].Directory?) && !FileAbove(tree, d)
  {
    AboveIsStrict(p, d);
  }

  /**
   A set of files can be patched in any way with the outcome of patching the disk one by
   one if and only if none of them has a file above it, nor another of them unless that is
   a directory.
   */
  lemma SafeFilesExactly(tree: Tree, root: seq<string>, unreadable: set<Path>, files: set<string>)
    requires Closed(tree) && unreadable <= tree.Keys
    ensures AlwaysAgrees(tree, root, unreadable, files) <==> Unobstructed(tree, Resolved(root, files))
  {
    hide Unobstructed, Execute, PatchAllOnDisk;
    if Unobstructed(tree, Resolved(root, files)) {
      forall patches | NamesOnly(patches, files)
        ensures Agrees(Execute(tree, root, unreadable, patches), PatchAllOnDisk(tree, root, unreadable, patches))
      {
        TouchedAreResolved(root, patches, files);
        UnobstructedAgrees(tree, root, unreadable, patches, Resolved(root, files));
      }
    } else {
      ObstructedDisagrees(tree, root, unreadable, files);
    }
  }

  lemma TouchedAreResolved(root: seq<string>, patches: seq<Patch>, files: set<string>)
    requires NamesOnly(patches, files)
    ensures TouchedPaths(root, patches) <= Resolved(root, files)
  {
    hide Resolve;
    forall p | p in TouchedPaths(root, patches)
      ensures p in Resolved(root, files)
    {
      var i :| 0 <= i < |patches| && Resolve(root, patches[i].file) == Some(p);
      assert patches[i].file in files;
    }
  }

  lemma NestedCommitFails(tree: Tree, root: seq<string>, unreadable: set<Path>, patches: seq<Patch>, result: Tree, d: Path, p: Path)
    requires PatchAllByName(tree, root, unreadable, patches) == Applied(result) && d in Above(p)
    requires TouchedPaths(root, patches) == {d, p} <= result.Keys && !FileAbove(tree, d) && !FileAbove(tree, p)
    ensures Execute(tree, root, unreadable, patches) == CommitFailed(INVALID_PATCH)
  {
    hide PatchAllByName, TouchedPaths, Above, FileAbove;
    assert Written(root, patches, result) == {d, p};
    assert d in Parents({d, p});
  }

  /** Creating a path and then one below it: in one request the commit fails, one by one the second patch. */
  lemma CreateThenBelow(tree: Tree, root: seq<string>, unreadable: set<Path>, above: string, below: string, d: Path, p: Path)
    requires Resolve(root, above) == Some(d) && Resolve(root, below) == Some(p) && d in Above(p)
    requires d !in tree && p !in tree && !FileAbove(tree, p)
    ensures var patches := [] + [Create(above, "")] + [Create(below, "")];
      && Execute(tree, root, unreadable, patches) == CommitFailed(INVALID_PATCH)
      && PatchAllOnDisk(tree, root, unreadable, patches) == Rejected(1, IO_ERROR)
  {
    hide PatchAllByName, PatchAllOnDisk, PatchByName, PatchOnDisk, TouchedPaths, Resolve, Above, Execute;
    var first := tree[d := File("")];
    AboveIsStrict(p, d);
    NoFileAbove(tree, p, d);
    NoPatch(tree, root, unreadable);
    OneMorePatch(tree, root, unreadable, [], Create(above, ""));
    OneMorePatch(tree, root, unreadable, [] + [Create(above, "")], Create(below, ""));
    Creating(tree, root, unreadable, above, "", d);
    Creating(first, root, unreadable, below, "", p);
    Creating(WithDirs(first, Above(d)), root, unreadable, below, "", p);
    assert FileAbove(WithDirs(first, Above(d)), p);
    NestedCommitFails(tree, root, unreadable, [] + [Create(above, "")] + [Create(below, "")], first[p := File("")], d, p);
  }

  /** Creating a path and then one above it: in one request the commit fails, one by one the second patch. */
  lemma CreateThenAbove(tree: Tree, root: seq<string>, unreadable: set<Path>, above: string, below: string, d: Path, p: Path)
    requires Resolve(root, above) == Some(d) && Resolve(root, below) == Some(p) && d in Above(p)
    requires d !in tree && p !in tree && !FileAbove(tree, p)
    ensures var patches := [] + [Create(below, "")] + [Create(above, "")];
      && Execute(tree, root, unreadable, patches) == CommitFailed(INVALID_PATCH)
      && PatchAllOnDisk(tree, root, unreadable, patches) == Rejected(1, INVALID_PATCH)
  {
    hide PatchAllByName, PatchAllOnDisk, PatchByName, PatchOnDisk, TouchedPaths, Resolve, Above, Execute, FileAbove;
    var first := tree[p := File("")];
    AboveIsStrict(p, d);
    NoFileAbove(tree, p, d);
    NoPatch(tree, root, unreadable);
    OneMorePatch(tree, root, unreadable, [], Create(below, ""));
    OneMorePatch(tree, root, unreadable, [] + [Create(below, "")], Create(above, ""));
    Creating(tree, root, unreadable, below, "", p);
    Creating(first, root, unreadable, above, "", d);
    PatchingDirectory(WithDirs(first, Above(p)), root, unreadable, Create(above, ""), d);
    NestedCommitFails(tree, root, unreadable, [] + [Create(below, "")] + [Create(above, "")], first[d := File("")], d, p);
  }

  /** Replacing a file by a directory of that name: one by one it works, in one request the commit fails. */
  lemma FileBecomesDirectory(tree: Tree, root: seq<string>, unreadable: set<Path>, above: string, below: string, d: Path, p: Path)
    requires Resolve(root, above) == Some(d) && Resolve(root, below) == Some(p) && d in Above(p)
    requires d in tree && tree[d].File? && d !in unreadable && p !in tree && !FileAbove(tree - {d}, p)
    ensures var patches := [] + [Delete(above)] + [Create(below, "")];
      && Execute(tree, root, unreadable, patches) == CommitFailed(IO_ERROR)
      && PatchAllOnDisk(tree, root, unreadable, patches).Applied?
  {
    hide PatchAllByName, PatchAllOnDisk, PatchByName, PatchOnDisk, TouchedPaths, Resolve, Above;
    NoPatch(tree, root, unreadable);
    OneMorePatch(tree, root, unreadable, [], Delete(above));
    OneMorePatch(tree, root, unreadable, [] + [Delete(above)], Create(below, ""));
    Deleting(tree, root, unreadable, above, d);
    Creating(tree - {d}, root, unreadable, below, "", p);
    assert FileAbove(tree, p);
  }

  /** The commit of nested writes leaves the upper target as a directory. */
  lemma NestedLeavesDirectory(tree: Tree, plan: Plan, i: nat, j: nat)
    requires i < |plan.writes| && j < |plan.writes| && plan.writes[j].target in Above(plan.writes[i].target)
    requires FirstBlocked(tree, plan.writes) == |plan.writes| && plan.writes[j].target !in tree
    ensures !Clear(tree, plan)
    ensures var left := WithDirs(tree, DirsOf(plan.writes, FirstBlocked(tree, plan.writes)));
      plan.writes[j].target in left && left[plan.writes[j].target].Directory?
  {
    hide Above;
    var d := plan.writes[j].target;
    DirsOfAll(plan.writes, |plan.writes|);
    assert d in DirsAbove(plan) && d in Ready(tree, plan);
    assert Targets(plan.writes)[j] == d && AllTargets(plan)[j] == d;
  }

  lemma OneName(s: string)
    requires |s| == 1 && s[0] != '/'
    ensures SplitOn(s, '/') == [s]
  {
    assert s[1..] == "" && SplitOn("", '/') == [""];
    assert [s[0]] + "" == s && [""][1..] == [];
  }

  lemma OnePartAndTwo()
    ensures SplitOn("a", '/') == ["a"] && SplitOn("a/b", '/') == ["a", "b"]
  {
    OneName("a");
    OneName("b");
    assert "/b"[1..] == "b" && SplitOn("/b", '/') == [""] + SplitOn("b", '/') == ["", "b"];
    assert "a/b"[1..] == "/b" && SplitOn("a/b", '/') == [['a'] + ""] + ["b"] == ["a", "b"];
  }

  lemma NamesOfNested(root: seq<string>)
    ensures Resolve(root, "a") == Some(Path(root, "a"))
    ensures Resolve(root, "a/b") == Some(Path(root + ["a"], "b"))
    ensures Path(root, "a") in Above(Path(root + ["a"], "b"))
  {
    OnePartAndTwo();
    var p := Path(root + ["a"], "b");
    assert p.parent[..|root|] == root && p.parent[|root|] == "a";
    hide SplitOn;
    assert ["a"][1..] == [] && ["a", "b"][1..] == ["b"] && ["b"][1..] == [];
    assert Walk(root, ["a"]) == root + ["a"];
    assert Walk(root, ["a", "b"]) == Walk(root + ["a"], ["b"]) == Walk(root + ["a"] + ["b"], []);
  }

  /** Inputs, for every workspace without these paths: `a` with `a/b`, and `a/b` come and gone before `a`. */
  lemma NestedInputs(tree: Tree, root: seq<string>, unreadable: set<Path>)
    requires Path(root, "a") !in tree && Path(root + ["a"], "b") !in tree && Path(root + ["a"], "b") !in unreadable
    requires !FileAbove(tree, Path(root + ["a"], "b"))
    ensures var patches := [] + [Create("a", "")] + [Create("a/b", "")];
      && Execute(tree, root, unreadable, patches) == CommitFailed(INVALID_PATCH)
      && PatchAllOnDisk(tree, root, unreadable, patches) == Rejected(1, IO_ERROR)
    ensures var patches := [] + [Create("a/b", "")] + [Delete("a/b")] + [Create("a", "")];
      && Execute(tree, root, unreadable, patches).Done?
      && PatchAllOnDisk(tree, root, unreadable, patches) == Rejected(2, INVALID_PATCH)
  {
    hide Above, Resolve, Execute, PatchAllOnDisk, FileAbove;
    NamesOfNested(root);
    var d, p := Path(root, "a"), Path(root + ["a"], "b");
    NoFileAbove(tree, p, d);
    CreateThenBelow(tree, root, unreadable, "a", "a/b", d, p);
    InPlaceOfDirectory(tree, root, unreadable, "a", "a/b", d, p);
  }

  // ---------------------------------------------------------------------
  // Confinement
  // ---------------------------------------------------------------------

  /** The workspace root is a directory of the tree. */
  ghost predicate RootIsThere(tree: Tree, root: seq<string>) {
    forall k :: 0 <= k < |root| ==> Path(root[..k], root[k]) in tree
  }

  /** Directories above paths of the workspace are added inside the workspace. */
  lemma AddedInside(before: Tree, after: Tree, root: seq<string>, touched: set<Path>, p: Path)
    requires RootIsThere(before, root) && !Inside(root, p) && forall w :: w in touched ==> Inside(root, w)
    requires OnlyDirectoriesAdded(before, after, Parents(touched))
    ensures SameAt(before, after, p)
  {
    if p in Parents(touched) {
      var w :| w in touched && p in Above(w);
      OutsideIsThere(before, root, w, p);
    }
  }

  lemma OutsideIsThere(tree: Tree, root: seq<string>, w: Path, p: Path)
    requires RootIsThere(tree, root) && Inside(root, w) && p in Above(w) && !Inside(root, p)
    ensures p in tree
  {
    var k :| 0 <= k < |w.parent| && p == Path(w.parent[..k], w.parent[k]);
    assert root <= w.parent[..k] <==> k >= |root|;
    assert w.parent[..k] == root[..k] && w.parent[k] == root[k];
  }

  lemma TouchedInside(root: seq<string>, patches: seq<Patch>)
    ensures forall p :: p in TouchedPaths(root, patches) ==> Inside(root, p)
  {
    hide Resolve;
    forall i | 0 <= i < |patches|
      ensures Resolve(root, patches[i].file).Some? ==> Inside(root, Resolve(root, patches[i].file).value)
    {
      ResolvedInside(root, patches[i].file);
    }
  }

  /** No request changes a path outside the workspace, whatever its file names spell and however it ends. */
  lemma {:induction false} ExecutionStaysInside(tree: Tree, root: seq<string>, unreadable: set<Path>, patches: seq<Patch>,
                                                after: Tree, p: Path)
    requires RootIsThere(tree, root) && !Inside(root, p)
    requires
      Execute(tree, root, unreadable, patches) == Done(after)
      || OnlyDirectoriesAdded(tree, after, Parents(TouchedPaths(root, patches)))
    ensures SameAt(tree, after, p)
  {
    hide TouchedPaths, Inside, Parents, PatchAllByName;
    TouchedInside(root, patches);
    if Execute(tree, root, unreadable, patches) == Done(after) {
      PatchesStayInside(tree, root, unreadable, patches, p);
      var result := PatchAllByName(tree, root, unreadable, patches).tree;
      var written := Written(root, patches, result);
      assert OnlyDirectoriesAdded(result, after, Parents(written));
      RootStays(tree, root, unreadable, patches);
      AddedInside(result, after, root, written, p);
    } else {
      AddedInside(tree, after, root, TouchedPaths(root, patches), p);
    }
  }

  lemma RootStays(tree: Tree, root: seq<string>, unreadable: set<Path>, patches: seq<Patch>)
    requires RootIsThere(tree, root)
    ensures var o := PatchAllByName(tree, root, unreadable, patches); o.Applied? ==> RootIsThere(o.tree, root)
  {
    forall k | 0 <= k < |root|
      ensures var o := PatchAllByName(tree, root, unreadable, patches);
        o.Applied? ==> Path(root[..k], root[k]) in o.tree
    {
      PatchesStayInside(tree, root, unreadable, patches, Path(root[..k], root[k]));
    }
  }
}
