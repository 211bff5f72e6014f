/**
 The stage / backup / activate / roll back protocol that puts a patch plan on disk.

 Models `_commit_atomic_patch_plan` and `_cleanup_path` of runtime_core/comms_server.py.
 Staging makes the directories above its targets, and a failed commit leaves them. Any
 forward file operation may raise; the file operations of the rollback itself succeed.
 */
module AtomicCommit {
  import opened Results
  import opened Workspace

  datatype Write = Write(target: Path, content: string)

  /** A rename: of a staged file to its target, or of an original to its backup name. */
  datatype Move = Move(from: Path, to: Path)

  datatype Plan = Plan(writes: seq<Write>, deletes: seq<Path>)

  datatype Exception = ValueError | OsError

  /**
   Where the forward run is hit: operation number `at` raises `error`. If that operation
   makes directories, the first `made` of them may be there; if it writes a staged file, it
   may leave the partial text `torn` behind.
   */
  datatype Fault = NoFault | Fault(at: nat, error: Exception, made: nat, torn: Option<string>)

  const INVALID_PATCH := "invalid_patch"
  const IO_ERROR := "io_error"

  predicate Hits(fault: Fault, step: nat) {
    fault.Fault? && fault.at == step
  }

  predicate HitsBefore(fault: Fault, step: nat) {
    fault.Fault? && fault.at < step
  }

  /** The fault hits the write of a staged file and leaves part of it behind. */
  predicate Tears(fault: Fault, writes: nat) {
    fault.Fault? && fault.torn.Some? && fault.at < 2 * writes && fault.at % 2 == 1
  }

  function Targets(writes: seq<Write>): seq<Path> {
    seq(|writes|, i requires 0 <= i < |writes| => writes[i].target)
  }

  function AllTargets(plan: Plan): seq<Path> {
    Targets(plan.writes) + plan.deletes
  }

  predicate Distinct<T(==)>(s: seq<T>) {
    forall i, j :: 0 <= i < j < |s| ==> s[i] != s[j]
  }

  /** What the caller guarantees: distinct targets, and UUIDs that no existing name carries. */
  ghost predicate Committable(plan: Plan, tree: Tree, uuids: seq<Uuid>) {
    && Distinct(AllTargets(plan))
    && Distinct(uuids)
    && |uuids| >= 2 * |plan.writes| + |plan.deletes|
    && (forall p :: p in AllTargets(plan) ==> !Fresh(p, uuids))
    && (forall p :: p in tree ==> !Fresh(p, uuids))
    && (forall d :: d in DirsAbove(plan) ==> !Fresh(d, uuids))
  }

  /** The directories above the first `n` targets. */
  function DirsOf(writes: seq<Write>, n: nat): set<Path>
    requires n <= |writes|
  {
    if n == 0 then {} else DirsOf(writes, n - 1) + Above(writes[n - 1].target)
  }

  /** The directories that staging a plan makes sure of. */
  function DirsAbove(plan: Plan): set<Path> {
    DirsOf(plan.writes, |plan.writes|)
  }

  /** The tree once those directories are made. */
  function Ready(tree: Tree, plan: Plan): Tree {
    WithDirs(tree, DirsAbove(plan))
  }

  lemma {:induction false} DirsOfAll(writes: seq<Write>, n: nat)
    requires n <= |writes|
    ensures forall d :: d in DirsOf(writes, n) <==> exists i :: 0 <= i < n && d in Above(writes[i].target)
    ensures DirsOf(writes, n) <= DirsOf(writes, |writes|)
    decreases |writes| - n
  {
    DirsOfFirst(writes, n);
    if n < |writes| {
      DirsOfAll(writes, n + 1);
    }
  }

  lemma {:induction false} DirsOfFirst(writes: seq<Write>, n: nat)
    requires n <= |writes|
    ensures forall d :: d in DirsOf(writes, n) <==> exists i :: 0 <= i < n && d in Above(writes[i].target)
  {
    if n > 0 {
      DirsOfFirst(writes, n - 1);
    }
  }

  // ---------------------------------------------------------------------
  // What stands in the way of a plan
  // ---------------------------------------------------------------------

  /** The first write whose directories cannot be made, because a file is above its target. */
  function FirstBlocked(tree: Tree, writes: seq<Write>): (n: nat)
    ensures n <= |writes| && forall i :: 0 <= i < n ==> !FileAbove(tree, writes[i].target)
    ensures n < |writes| ==> FileAbove(tree, writes[n].target)
  {
    if writes == [] || FileAbove(tree, writes[0].target) then 0 else 1 + FirstBlocked(tree, writes[1..])
  }

  /** The first target that is a directory. */
  function FirstDirectory(tree: Tree, targets: seq<Path>): (n: nat)
    ensures n <= |targets| && forall i :: 0 <= i < n && targets[i] in tree ==> tree[targets[i]].File?
    ensures n < |targets| ==> targets[n] in tree && tree[targets[n]].Directory?
  {
    if targets == [] || (targets[0] in tree && tree[targets[0]].Directory?) then 0
    else 1 + FirstDirectory(tree, targets[1..])
  }

  /** Nothing stands in the way: no file above a written target, and no target that is a directory by the time of the backups. */
  predicate Clear(tree: Tree, plan: Plan) {
    FirstBlocked(tree, plan.writes) == |plan.writes| && NoDirectoryTarget(Ready(tree, plan), plan)
  }

  /** The number of operations that a backup and activation take, up to the first directory target. */
  function BackupStop(ready: Tree, plan: Plan): nat {
    var w, d := |plan.writes|, FirstDirectory(ready, AllTargets(plan));
    2 * w + |Existing(ready, AllTargets(plan)[..d])| + if d == |AllTargets(plan)| then w else 0
  }

  /** The number of forward operations of a run that no fault interrupts: to its end, or to what stands in its way. */
  function StopStep(tree: Tree, plan: Plan): nat {
    var n := FirstBlocked(tree, plan.writes);
    if n < |plan.writes| then 2 * n else BackupStop(Ready(tree, plan), plan)
  }

  /**
   What stands in the way, told from the tree before the run: a file above a written target,
   a directory as a target, or a target above a written target.
   */
  lemma ClearExactly(tree: Tree, plan: Plan)
    ensures Clear(tree, plan) <==>
      && (forall w :: w in plan.writes ==> !FileAbove(tree, w.target))
      && NoDirectoryTarget(tree, plan)
      && (forall p, w :: p in AllTargets(plan) && w in plan.writes ==> p !in Above(w.target))
  {
    hide Above;
    DirsOfAll(plan.writes, |plan.writes|);
    if Clear(tree, plan) {
      NothingNested(tree, plan);
    } else if (forall w :: w in plan.writes ==> !FileAbove(tree, w.target)) {
      var ready := Ready(tree, plan);
      var p :| p in AllTargets(plan) && p in ready && ready[p].Directory?;
      assert p !in tree ==> p in DirsAbove(plan);
    }
  }

  lemma FileInTheWay(tree: Tree, target: Path, p: Path)
    ensures p in Above(target) && p in tree && tree[p].File? ==> FileAbove(tree, target)
  {
  }

  lemma NothingNested(tree: Tree, plan: Plan)
    requires Clear(tree, plan)
    ensures forall w :: w in plan.writes ==> !FileAbove(tree, w.target)
    ensures NoDirectoryTarget(tree, plan)
    ensures forall p, w :: p in AllTargets(plan) && w in plan.writes ==> p !in Above(w.target)
  {
    hide Above;
    DirsOfAll(plan.writes, |plan.writes|);
    forall p, w | p in AllTargets(plan) && w in plan.writes
      ensures p !in Above(w.target)
    {
      assert p in Above(w.target) ==> p in DirsAbove(plan) && p in Ready(tree, plan);
      FileInTheWay(tree, w.target, p);
    }
  }

  // ---------------------------------------------------------------------
  // The intended effect of a plan
  // ---------------------------------------------------------------------

  /** The files the first `n` writes ask for. */
  function Contents(writes: seq<Write>, n: nat): Tree
    requires n <= |writes|
  {
    if n == 0 then map[] else Contents(writes, n - 1)[writes[n - 1].target := File(writes[n - 1].content)]
  }

  /** Writing, then deleting, what the plan lists. */
  function Planned(tree: Tree, plan: Plan): Tree {
    (tree + Contents(plan.writes, |plan.writes|)) - set p | p in plan.deletes
  }

  function Existing(tree: Tree, targets: seq<Path>): seq<Path> {
    if targets == [] then []
    else
      var last := |targets| - 1;
      Existing(tree, targets[..last]) + if targets[last] in tree then [targets[last]] else []
  }

  predicate NoDirectoryTarget(tree: Tree, plan: Plan) {
    forall p :: p in AllTargets(plan) && p in tree ==> tree[p].File?
  }

  // ---------------------------------------------------------------------
  // Chains of renames and their undoing
  // ---------------------------------------------------------------------

  function Staging(writes: seq<Write>, uuids: seq<Uuid>): seq<Move>
    requires |writes| <= |uuids|
  {
    seq(|writes|, i requires 0 <= i < |writes| => Move(TmpName(writes[i].target, uuids[i]), writes[i].target))
  }

  /** The files the first `n` staging operations leave. */
  function StagedFiles(writes: seq<Write>, uuids: seq<Uuid>, n: nat): Tree
    requires n <= |writes| <= |uuids|
  {
    if n == 0 then map[]
    else StagedFiles(writes, uuids, n - 1)[TmpName(writes[n - 1].target, uuids[n - 1]) := File(writes[n - 1].content)]
  }

  function RenameAll(tree: Tree, moves: seq<Move>): Tree {
    if moves == [] then tree
    else
      var last := moves[|moves| - 1];
      var before := RenameAll(tree, moves[..|moves| - 1]);
      if last.from in before then Rename(before, last.from, last.to) else before
  }

  lemma RenameNone(tree: Tree, moves: seq<Move>)
    ensures RenameAll(tree, moves[..0]) == tree
  {
  }

  /** `_restore_backups`: the newest backup goes back first. */
  function RestoreAll(tree: Tree, moves: seq<Move>): Tree
    decreases |moves|
  {
    if moves == [] then tree
    else
      var last := moves[|moves| - 1];
      var cleared := Cleanup(tree, last.from);
      RestoreAll(if last.to in cleared then Rename(cleared, last.to, last.from) else cleared, moves[..|moves| - 1])
  }

  function Froms(moves: seq<Move>): set<Path> {
    set m | m in moves :: m.from
  }

  function Tos(moves: seq<Move>): set<Path> {
    set m | m in moves :: m.to
  }

  /** The renames are independent: each takes an existing path to a path of its own that is free. */
  ghost predicate Independent(tree: Tree, moves: seq<Move>) {
    && (forall i :: 0 <= i < |moves| ==> moves[i].from in tree && moves[i].to !in tree)
    && (forall i, j :: 0 <= i < j < |moves| ==> moves[i].from != moves[j].from && moves[i].to != moves[j].to)
  }

  /** `result` is `tree` with every renamed file at its new path and nowhere else. */
  ghost predicate Moved(tree: Tree, moves: seq<Move>, result: Tree) {
    && result.Keys == tree.Keys - Froms(moves) + Tos(moves)
    && (forall i :: 0 <= i < |moves| ==> moves[i].from in tree && moves[i].to in result)
    && (forall i :: 0 <= i < |moves| ==> result[moves[i].to] == tree[moves[i].from])
    && (forall p :: p in tree && p !in Froms(moves) ==> result[p] == tree[p])
  }

  lemma ExtendMoves(moves: seq<Move>, m: Move)
    ensures Froms(moves + [m]) == Froms(moves) + {m.from}
    ensures Tos(moves + [m]) == Tos(moves) + {m.to}
  {
  }

  lemma NewNames(tree: Tree, moves: seq<Move>)
    requires Independent(tree, moves)
    ensures Tos(moves) !! tree.Keys
  {
  }

  lemma ExtendMoved(tree: Tree, moves: seq<Move>, m: Move, before: Tree)
    requires Independent(tree, moves + [m]) && Independent(tree, moves) && Moved(tree, moves, before)
    requires m.from !in Froms(moves) && m.to !in Tos(moves) && m.from in tree && m.to !in tree
    ensures m.from in before && m.to !in before
    ensures Moved(tree, moves + [m], Rename(before, m.from, m.to))
  {
    hide Froms, Tos;
    ExtendMoves(moves, m);
    NewNames(tree, moves);
    var result := Rename(before, m.from, m.to);
    assert result.Keys == before.Keys - {m.from} + {m.to};
    forall i | 0 <= i < |moves + [m]|
      ensures (moves + [m])[i].to in result && result[(moves + [m])[i].to] == tree[(moves + [m])[i].from]
    {
      assert i < |moves| ==> (moves + [m])[i] == moves[i] && moves[i].to != m.from && moves[i].to in before;
    }
  }

  lemma SplitIndependent(tree: Tree, moves: seq<Move>)
    requires moves != [] && Independent(tree, moves)
    ensures var last := |moves| - 1;
      && moves == moves[..last] + [moves[last]]
      && Independent(tree, moves[..last])
      && moves[last].from !in Froms(moves[..last]) && moves[last].to !in Tos(moves[..last])
      && moves[last].from in tree && moves[last].to !in tree
  {
  }

  lemma {:induction false} EffectOfRenames(tree: Tree, moves: seq<Move>)
    requires Independent(tree, moves)
    ensures Moved(tree, moves, RenameAll(tree, moves))
  {
    if moves != [] {
      SplitIndependent(tree, moves);
      var last := |moves| - 1;
      EffectOfRenames(tree, moves[..last]);
      ExtendMoved(tree, moves[..last], moves[last], RenameAll(tree, moves[..last]));
    }
  }

  lemma RenameBack(tree: Tree, a: Path, b: Path)
    requires a in tree && b !in tree && a != b
    ensures var renamed := Rename(tree, a, b);
      b in renamed && Cleanup(renamed, a) == renamed && Rename(renamed, b, a) == tree
  {
  }

  /** Restoring undoes an independent chain of renames. */
  lemma {:induction false} RestoreUndoesRenames(tree: Tree, moves: seq<Move>)
    requires Independent(tree, moves)
    ensures RestoreAll(RenameAll(tree, moves), moves) == tree
  {
    if moves != [] {
      SplitIndependent(tree, moves);
      var last := |moves| - 1;
      EffectOfRenames(tree, moves[..last]);
      ExtendMoved(tree, moves[..last], moves[last], RenameAll(tree, moves[..last]));
      RenameBack(RenameAll(tree, moves[..last]), moves[last].from, moves[last].to);
      RestoreUndoesRenames(tree, moves[..last]);
    }
  }

  lemma RenameCommutes(tree: Tree, m: Move, gone: set<Path>)
    requires m.from in tree && m.from !in gone && m.to !in gone
    ensures Rename(tree, m.from, m.to) - gone == Rename(tree - gone, m.from, m.to)
  {
  }

  /** Removing paths that no rename touches commutes with the renames. */
  lemma {:induction false} RemovalCommutes(tree: Tree, moves: seq<Move>, gone: set<Path>)
    requires forall m :: m in moves ==> m.from !in gone && m.to !in gone
    ensures RenameAll(tree, moves) - gone == RenameAll(tree - gone, moves)
  {
    if moves != [] {
      var last := |moves| - 1;
      RemovalCommutes(tree, moves[..last], gone);
      if moves[last].from in RenameAll(tree, moves[..last]) {
        RenameCommutes(RenameAll(tree, moves[..last]), moves[last], gone);
      }
    }
  }

  // ---------------------------------------------------------------------
  // The tree in each phase of a forward run
  // ---------------------------------------------------------------------

  function BackupMoves(originals: seq<Path>, uuids: seq<Uuid>): seq<Move>
    requires |originals| <= |uuids|
  {
    seq(|originals|, j requires 0 <= j < |originals| => Move(originals[j], BakName(originals[j], uuids[j])))
  }

  lemma {:induction false} ExistingIsPart(tree: Tree, targets: seq<Path>)
    requires Distinct(targets)
    ensures var e := Existing(tree, targets);
      |e| <= |targets| && Distinct(e) && forall p :: p in e <==> p in targets && p in tree
  {
    if targets != [] {
      var last := |targets| - 1;
      ExistingIsPart(tree, targets[..last]);
      assert targets == targets[..last] + [targets[last]];
      assert targets[last] !in targets[..last];
    }
  }

  lemma {:induction false} ExistingGrows(tree: Tree, targets: seq<Path>, more: seq<Path>)
    ensures Existing(tree, targets) <= Existing(tree, targets + more)
  {
    if more == [] {
      assert targets + more == targets;
    } else {
      var last := |more| - 1;
      assert (targets + more)[..|targets + more| - 1] == targets + more[..last];
      ExistingGrows(tree, targets, more[..last]);
    }
  }

  lemma StagingStep(writes: seq<Write>, uuids: seq<Uuid>, n: nat)
    requires n <= |writes| <= |uuids|
    ensures |Staging(writes, uuids)| == |writes| && Staging(writes, uuids)[..0] == []
    ensures Staging(writes, uuids)[..|writes|] == Staging(writes, uuids)
    ensures StagedFiles(writes, uuids, 0) == map[]
    ensures n < |writes| ==>
      var tmp := TmpName(writes[n].target, uuids[n]);
      && Staging(writes, uuids)[..n + 1] == Staging(writes, uuids)[..n] + [Move(tmp, writes[n].target)]
      && StagedFiles(writes, uuids, n + 1) == StagedFiles(writes, uuids, n)[tmp := File(writes[n].content)]
  {
  }

  /** A staged file holds the content of its write, under a name no other staged file has. */
  lemma {:induction false} StagedContent(writes: seq<Write>, uuids: seq<Uuid>, n: nat)
    requires n <= |writes| <= |uuids| && Distinct(uuids)
    ensures StagedFiles(writes, uuids, n).Keys == Froms(Staging(writes, uuids)[..n])
    ensures forall i :: 0 <= i < n ==> HoldsWrite(StagedFiles(writes, uuids, n), writes, uuids, i)
  {
    hide StagedFiles, Staging, Froms, Distinct, HoldsWrite;
    StagingStep(writes, uuids, 0);
    if n > 0 {
      StagedContent(writes, uuids, n - 1);
      StagingStep(writes, uuids, n - 1);
      OneMoreStaged(StagedFiles(writes, uuids, n - 1), Staging(writes, uuids)[..n - 1], writes, uuids, n - 1);
    } else {
      NoFroms();
    }
  }

  lemma NoFroms()
    ensures Froms([]) == {}
  {
  }

  lemma OneMoreStaged(files: Tree, moves: seq<Move>, writes: seq<Write>, uuids: seq<Uuid>, k: nat)
    requires k < |writes| <= |uuids| && Distinct(uuids) && files.Keys == Froms(moves)
    requires forall i :: 0 <= i < k ==> HoldsWrite(files, writes, uuids, i)
    ensures var tmp := TmpName(writes[k].target, uuids[k]);
      var more := files[tmp := File(writes[k].content)];
      && more.Keys == Froms(moves + [Move(tmp, writes[k].target)])
      && forall i :: 0 <= i <= k ==> HoldsWrite(more, writes, uuids, i)
  {
    hide Froms, TmpName;
    var tmp := TmpName(writes[k].target, uuids[k]);
    var more := files[tmp := File(writes[k].content)];
    ExtendMoves(moves, Move(tmp, writes[k].target));
    forall i | 0 <= i < k
      ensures HoldsWrite(more, writes, uuids, i)
    {
      HoldsWriteStays(files, writes, uuids, i, k);
    }
  }

  lemma HoldsWriteStays(tree: Tree, writes: seq<Write>, uuids: seq<Uuid>, i: nat, k: nat)
    requires i < k < |writes| <= |uuids| && Distinct(uuids) && HoldsWrite(tree, writes, uuids, i)
    ensures HoldsWrite(tree[TmpName(writes[k].target, uuids[k]) := File(writes[k].content)], writes, uuids, i)
  {
    FreshNamesDiffer(writes[i].target, uuids[i], writes[k].target, uuids[k]);
  }

  ghost predicate HoldsWrite(tree: Tree, writes: seq<Write>, uuids: seq<Uuid>, i: nat)
    requires i < |writes| <= |uuids|
  {
    var tmp := TmpName(writes[i].target, uuids[i]);
    tmp in tree && tree[tmp] == File(writes[i].content)
  }

  lemma FreshNamesDiffer(p: Path, u: Uuid, q: Path, v: Uuid)
    requires u != v
    ensures TmpName(p, u) != TmpName(q, v) && TmpName(p, u) != BakName(q, v) && BakName(p, u) != BakName(q, v)
  {
    TagOfFreshName(p, u);
    TagOfFreshName(q, v);
  }

  ghost predicate HoldsTarget(tree: Tree, writes: seq<Write>, i: nat)
    requires i < |writes|
  {
    writes[i].target in tree && tree[writes[i].target] == File(writes[i].content)
  }

  lemma {:induction false} WrittenContent(writes: seq<Write>, n: nat)
    requires n <= |writes| && Distinct(Targets(writes))
    ensures forall p :: p in Contents(writes, n) <==> p in Targets(writes)[..n]
    ensures forall i :: 0 <= i < n ==> HoldsTarget(Contents(writes, n), writes, i)
  {
    if n > 0 {
      WrittenContent(writes, n - 1);
      assert Targets(writes)[..n] == Targets(writes)[..n - 1] + [writes[n - 1].target];
      forall i | 0 <= i < n - 1
        ensures HoldsTarget(Contents(writes, n), writes, i)
      {
        assert HoldsTarget(Contents(writes, n - 1), writes, i);
        assert Targets(writes)[i] != Targets(writes)[n - 1];
      }
    }
  }

  ghost function StagedTree(tree: Tree, plan: Plan, uuids: seq<Uuid>): Tree
    requires |plan.writes| <= |uuids|
  {
    tree + StagedFiles(plan.writes, uuids, |plan.writes|)
  }

  /** The backups made for `targets`, each named after the next unused UUID. */
  ghost function Backups(tree: Tree, plan: Plan, uuids: seq<Uuid>, targets: seq<Path>): seq<Move>
    requires Committable(plan, tree, uuids) && targets <= AllTargets(plan)
    ensures |Backups(tree, plan, uuids, targets)| == |Existing(tree, targets)|
  {
    ExistingIsPart(tree, targets);
    BackupMoves(Existing(tree, targets), uuids[|plan.writes|..])
  }

  ghost function BackedTree(tree: Tree, plan: Plan, uuids: seq<Uuid>): Tree
    requires Committable(plan, tree, uuids)
  {
    RenameAll(StagedTree(tree, plan, uuids), Backups(tree, plan, uuids, AllTargets(plan)))
  }

  /** What the backups are named after. */
  lemma BackupsAt(tree: Tree, plan: Plan, uuids: seq<Uuid>, targets: seq<Path>, j: nat)
    requires Committable(plan, tree, uuids) && targets <= AllTargets(plan) && j < |Existing(tree, targets)|
    ensures |plan.writes| + j < |uuids|
    ensures var original := Existing(tree, targets)[j];
      && Backups(tree, plan, uuids, targets)[j] == Move(original, BakName(original, uuids[|plan.writes| + j]))
      && original in tree && original in targets && !Fresh(original, uuids)
  {
    ExistingIsPart(tree, targets);
    assert Existing(tree, targets)[j] in Existing(tree, targets);
    assert forall i :: 0 <= i < |targets| ==> targets[i] == AllTargets(plan)[i];
  }

  /** A backup name is none of the names in the staged tree. */
  lemma BackupNameIsFree(tree: Tree, plan: Plan, uuids: seq<Uuid>, original: Path, k: nat)
    requires Committable(plan, tree, uuids) && |plan.writes| <= k < |uuids|
    ensures BakName(original, uuids[k]) !in StagedTree(tree, plan, uuids)
  {
    hide BakName, TmpName, StagedFiles;
    var w := |plan.writes|;
    StagedContent(plan.writes, uuids, w);
    TagOfFreshName(original, uuids[k]);
    forall i | 0 <= i < w
      ensures Staging(plan.writes, uuids)[..w][i].from != BakName(original, uuids[k])
    {
      FreshNamesDiffer(plan.writes[i].target, uuids[i], original, uuids[k]);
    }
  }

  /** Before the backups: every original is there, every backup name is free. */
  lemma BackupsAreIndependent(tree: Tree, plan: Plan, uuids: seq<Uuid>)
    requires Committable(plan, tree, uuids)
    ensures Independent(StagedTree(tree, plan, uuids), Backups(tree, plan, uuids, AllTargets(plan)))
  {
    hide BakName, TmpName, StagedFiles, Existing, Backups, AllTargets;
    var w, all := |plan.writes|, AllTargets(plan);
    var e, moves := Existing(tree, all), Backups(tree, plan, uuids, all);
    ExistingIsPart(tree, all);
    forall j | 0 <= j < |moves|
      ensures moves[j].from in StagedTree(tree, plan, uuids) && moves[j].to !in StagedTree(tree, plan, uuids)
    {
      BackupsAt(tree, plan, uuids, all, j);
      BackupNameIsFree(tree, plan, uuids, e[j], w + j);
    }
    forall i, j | 0 <= i < j < |moves|
      ensures moves[i].from != moves[j].from && moves[i].to != moves[j].to
    {
      BackupsAt(tree, plan, uuids, all, i);
      BackupsAt(tree, plan, uuids, all, j);
      FreshNamesDiffer(e[i], uuids[w + i], e[j], uuids[w + j]);
    }
  }

  /** Before the activation: every staged file is there, every target is free. */
  lemma ActivationIsIndependent(tree: Tree, plan: Plan, uuids: seq<Uuid>)
    requires Committable(plan, tree, uuids)
    ensures Independent(BackedTree(tree, plan, uuids), Staging(plan.writes, uuids))
  {
    hide BackedTree, AllTargets, TmpName;
    var staging := Staging(plan.writes, uuids);
    forall i | 0 <= i < |staging|
      ensures staging[i].from in BackedTree(tree, plan, uuids) && staging[i].to !in BackedTree(tree, plan, uuids)
    {
      StagedFileSurvivesBackups(tree, plan, uuids, i);
      WrittenTarget(plan, i);
      UserPathAfterBackups(tree, plan, uuids, plan.writes[i].target);
    }
    forall i, j | 0 <= i < j < |staging|
      ensures staging[i].from != staging[j].from && staging[i].to != staging[j].to
    {
      FreshNamesDiffer(plan.writes[i].target, uuids[i], plan.writes[j].target, uuids[j]);
      WrittenTarget(plan, i);
      WrittenTarget(plan, j);
    }
  }

  lemma WrittenTarget(plan: Plan, i: nat)
    requires i < |plan.writes|
    ensures i < |AllTargets(plan)| && AllTargets(plan)[i] == plan.writes[i].target && plan.writes[i].target in AllTargets(plan)
  {
    assert AllTargets(plan)[i] == Targets(plan.writes)[i];
  }

  lemma BackupNamesAreFresh(tree: Tree, plan: Plan, uuids: seq<Uuid>)
    requires Committable(plan, tree, uuids)
    ensures forall p :: p in Tos(Backups(tree, plan, uuids, AllTargets(plan))) ==> Fresh(p, uuids)
  {
    var backups := Backups(tree, plan, uuids, AllTargets(plan));
    ExistingIsPart(tree, AllTargets(plan));
    forall j | 0 <= j < |backups|
      ensures Fresh(backups[j].to, uuids)
    {
      TagOfFreshName(backups[j].from, uuids[|plan.writes| + j]);
    }
  }

  lemma BackupsComeFromExisting(tree: Tree, plan: Plan, uuids: seq<Uuid>)
    requires Committable(plan, tree, uuids)
    ensures forall p :: p in Froms(Backups(tree, plan, uuids, AllTargets(plan))) <==> p in Existing(tree, AllTargets(plan))
  {
    var backups := Backups(tree, plan, uuids, AllTargets(plan));
    assert forall j :: 0 <= j < |backups| ==> backups[j].from == Existing(tree, AllTargets(plan))[j];
  }

  /** After the backups a path under its own name is there exactly if it was and is no target. */
  lemma UserPathAfterBackups(tree: Tree, plan: Plan, uuids: seq<Uuid>, p: Path)
    requires Committable(plan, tree, uuids) && !Fresh(p, uuids)
    ensures var backed := BackedTree(tree, plan, uuids);
      && (p in backed <==> p in tree && p !in AllTargets(plan))
      && (p in backed ==> backed[p] == tree[p])
  {
    var backups := Backups(tree, plan, uuids, AllTargets(plan));
    BackupsAreIndependent(tree, plan, uuids);
    BackupNamesAreFresh(tree, plan, uuids);
    EffectOfRenames(StagedTree(tree, plan, uuids), backups);
    ExistingIsPart(tree, AllTargets(plan));
    StagedNamesAreFresh(plan.writes, uuids, |plan.writes|);
    BackupsComeFromExisting(tree, plan, uuids);
  }

  lemma StagedNamesAreFresh(writes: seq<Write>, uuids: seq<Uuid>, n: nat)
    requires n <= |writes| <= |uuids| && Distinct(uuids)
    ensures forall p :: p in StagedFiles(writes, uuids, n) ==> Fresh(p, uuids)
  {
    StagedContent(writes, uuids, n);
    forall i | 0 <= i < n
      ensures Fresh(Staging(writes, uuids)[i].from, uuids)
    {
      TagOfFreshName(writes[i].target, uuids[i]);
    }
  }

  lemma DistinctParts<T>(a: seq<T>, b: seq<T>)
    requires Distinct(a + b)
    ensures Distinct(a)
    ensures forall x :: x in a + b <==> x in a || x in b
    ensures forall x :: x in a ==> x !in b
  {
    var both := a + b;
    assert forall i :: 0 <= i < |a| ==> both[i] == a[i];
    assert forall j :: 0 <= j < |b| ==> both[|a| + j] == b[j];
    forall i, j | 0 <= i < |a| && 0 <= j < |b|
      ensures a[i] != b[j]
    {
      assert both[i] != both[|a| + j];
    }
  }

  /** A target is written or deleted, never both. */
  lemma TargetKinds(plan: Plan)
    requires Distinct(AllTargets(plan))
    ensures Distinct(Targets(plan.writes))
    ensures forall p :: p in AllTargets(plan) <==> p in Targets(plan.writes) || p in plan.deletes
    ensures forall p :: p in Targets(plan.writes) ==> p !in plan.deletes
  {
    DistinctParts(Targets(plan.writes), plan.deletes);
  }

  lemma StagingTargets(writes: seq<Write>, uuids: seq<Uuid>)
    requires |writes| <= |uuids|
    ensures forall p :: p in Tos(Staging(writes, uuids)) <==> p in Targets(writes)
  {
    assert forall i :: 0 <= i < |writes| ==> Targets(writes)[i] == Staging(writes, uuids)[i].to;
  }

  /** What the plan leaves at a path. */
  lemma PlannedAt(tree: Tree, plan: Plan, p: Path)
    requires Distinct(AllTargets(plan))
    ensures p in Targets(plan.writes) ==> p in Planned(tree, plan)
    ensures p in plan.deletes ==> p !in Planned(tree, plan)
    ensures p !in AllTargets(plan) ==> (p in Planned(tree, plan) <==> p in tree)
    ensures p !in AllTargets(plan) && p in tree ==> Planned(tree, plan)[p] == tree[p]
    ensures forall i :: 0 <= i < |plan.writes| ==> HoldsTarget(Planned(tree, plan), plan.writes, i)
  {
    var w, writes := |plan.writes|, plan.writes;
    TargetKinds(plan);
    WrittenContent(writes, w);
    assert Targets(writes)[..w] == Targets(writes);
    forall i | 0 <= i < w
      ensures HoldsTarget(Planned(tree, plan), writes, i)
    {
      assert HoldsTarget(Contents(writes, w), writes, i);
      assert Targets(writes)[i] == writes[i].target;
    }
  }

  /** The tree once every staged file is renamed to its target. */
  ghost function RunTree(tree: Tree, plan: Plan, uuids: seq<Uuid>): Tree
    requires Committable(plan, tree, uuids)
  {
    RenameAll(BackedTree(tree, plan, uuids), Staging(plan.writes, uuids))
  }

  lemma EffectOfActivation(tree: Tree, plan: Plan, uuids: seq<Uuid>)
    requires Committable(plan, tree, uuids)
    ensures Moved(BackedTree(tree, plan, uuids), Staging(plan.writes, uuids), RunTree(tree, plan, uuids))
  {
    ActivationIsIndependent(tree, plan, uuids);
    EffectOfRenames(BackedTree(tree, plan, uuids), Staging(plan.writes, uuids));
  }

  lemma StagedFileSurvivesBackups(tree: Tree, plan: Plan, uuids: seq<Uuid>, i: nat)
    requires Committable(plan, tree, uuids) && i < |plan.writes|
    ensures HoldsWrite(BackedTree(tree, plan, uuids), plan.writes, uuids, i)
  {
    var backups := Backups(tree, plan, uuids, AllTargets(plan));
    BackupsAreIndependent(tree, plan, uuids);
    EffectOfRenames(StagedTree(tree, plan, uuids), backups);
    StagedContent(plan.writes, uuids, |plan.writes|);
    assert HoldsWrite(StagedFiles(plan.writes, uuids, |plan.writes|), plan.writes, uuids, i);
    TagOfFreshName(plan.writes[i].target, uuids[i]);
    OriginalsAreNotFresh(tree, plan, uuids);
  }

  lemma OriginalsAreNotFresh(tree: Tree, plan: Plan, uuids: seq<Uuid>)
    requires Committable(plan, tree, uuids)
    ensures forall p :: p in Froms(Backups(tree, plan, uuids, AllTargets(plan))) ==> !Fresh(p, uuids)
  {
    var backups := Backups(tree, plan, uuids, AllTargets(plan));
    ExistingIsPart(tree, AllTargets(plan));
    assert forall j :: 0 <= j < |backups| ==> backups[j].from == Existing(tree, AllTargets(plan))[j];
  }

  /** After the run each target of a write holds its content. */
  lemma TargetAfterRun(tree: Tree, plan: Plan, uuids: seq<Uuid>, i: nat)
    requires Committable(plan, tree, uuids) && i < |plan.writes|
    ensures HoldsTarget(RunTree(tree, plan, uuids), plan.writes, i)
  {
    EffectOfActivation(tree, plan, uuids);
    StagedFileSurvivesBackups(tree, plan, uuids, i);
    assert Staging(plan.writes, uuids)[i].to == plan.writes[i].target;
  }

  lemma StagedFromsAreFresh(writes: seq<Write>, uuids: seq<Uuid>)
    requires |writes| <= |uuids|
    ensures forall p :: p in Froms(Staging(writes, uuids)) ==> Fresh(p, uuids)
  {
    forall i | 0 <= i < |writes|
      ensures Fresh(Staging(writes, uuids)[i].from, uuids)
    {
      TagOfFreshName(writes[i].target, uuids[i]);
    }
  }

  /** After the run a path that no write targets is as the plan leaves it. */
  lemma OtherPathAfterRun(tree: Tree, plan: Plan, uuids: seq<Uuid>, p: Path)
    requires Committable(plan, tree, uuids) && !Fresh(p, uuids) && p !in Targets(plan.writes)
    ensures var run := RunTree(tree, plan, uuids);
      && (p in run <==> p in Planned(tree, plan))
      && (p in run ==> run[p] == Planned(tree, plan)[p])
  {
    EffectOfActivation(tree, plan, uuids);
    TargetKinds(plan);
    StagingTargets(plan.writes, uuids);
    UserPathAfterBackups(tree, plan, uuids, p);
    StagedFromsAreFresh(plan.writes, uuids);
    PlannedAt(tree, plan, p);
  }

  /** After the run the only fresh names are those of backups. */
  lemma FreshPathAfterRun(tree: Tree, plan: Plan, uuids: seq<Uuid>, p: Path)
    requires Committable(plan, tree, uuids) && Fresh(p, uuids) && p in RunTree(tree, plan, uuids)
    ensures p in Tos(Backups(tree, plan, uuids, AllTargets(plan)))
  {
    var w, staging := |plan.writes|, Staging(plan.writes, uuids);
    assert staging[..w] == staging;
    BackupsAreIndependent(tree, plan, uuids);
    EffectOfRenames(StagedTree(tree, plan, uuids), Backups(tree, plan, uuids, AllTargets(plan)));
    EffectOfActivation(tree, plan, uuids);
    StagedContent(plan.writes, uuids, w);
    TargetKinds(plan);
    StagingTargets(plan.writes, uuids);
  }

  /** The renames of all phases and the dropping of the backups leave exactly what the plan asks for. */
  lemma PhasesGivePlanned(tree: Tree, plan: Plan, uuids: seq<Uuid>)
    requires Committable(plan, tree, uuids)
    ensures RunTree(tree, plan, uuids) - Tos(Backups(tree, plan, uuids, AllTargets(plan))) == Planned(tree, plan)
  {
    var done := RunTree(tree, plan, uuids) - Tos(Backups(tree, plan, uuids, AllTargets(plan)));
    forall p
      ensures p in done <==> p in Planned(tree, plan)
      ensures p in done ==> done[p] == Planned(tree, plan)[p]
    {
      PathAfterRun(tree, plan, uuids, p);
    }
  }

  lemma PathAfterRun(tree: Tree, plan: Plan, uuids: seq<Uuid>, p: Path)
    requires Committable(plan, tree, uuids)
    ensures var done := RunTree(tree, plan, uuids) - Tos(Backups(tree, plan, uuids, AllTargets(plan)));
      && (p in done <==> p in Planned(tree, plan))
      && (p in done ==> done[p] == Planned(tree, plan)[p])
  {
    PlannedAt(tree, plan, p);
    BackupNamesAreFresh(tree, plan, uuids);
    TargetKinds(plan);
    StagingTargets(plan.writes, uuids);
    if Fresh(p, uuids) {
      if p in RunTree(tree, plan, uuids) {
        FreshPathAfterRun(tree, plan, uuids, p);
      }
    } else if p in Targets(plan.writes) {
      var i :| 0 <= i < |plan.writes| && Targets(plan.writes)[i] == p;
      TargetAfterRun(tree, plan, uuids, i);
      assert HoldsTarget(Planned(tree, plan), plan.writes, i);
    } else {
      OtherPathAfterRun(tree, plan, uuids, p);
    }
  }

  /**
   A run that nothing stops leaves exactly what the plan asks for, with the directories above
   the writes and no fresh name, and a file system can hold the result.
   */
  lemma CompletedRunIsPlanned(tree: Tree, plan: Plan, uuids: seq<Uuid>)
    requires Committable(plan, tree, uuids) && Clear(tree, plan)
    ensures Committable(plan, Ready(tree, plan), uuids)
    ensures var ready := Ready(tree, plan);
      && RunTree(ready, plan, uuids) - Tos(Backups(ready, plan, uuids, AllTargets(plan))) == Planned(ready, plan)
      && FilesOf(Planned(ready, plan)) == Planned(FilesOf(tree), plan)
      && (Closed(tree) ==> Closed(Planned(ready, plan)))
  {
    ReadyIsCommittable(tree, plan, uuids);
    PhasesGivePlanned(Ready(tree, plan), plan, uuids);
    PlannedFiles(tree, plan);
    if Closed(tree) {
      PlannedIsClosed(tree, plan);
    }
  }

  lemma PlannedFiles(tree: Tree, plan: Plan)
    requires Distinct(AllTargets(plan)) && Clear(tree, plan)
    ensures FilesOf(Planned(Ready(tree, plan), plan)) == Planned(FilesOf(tree), plan)
  {
    var ready := Ready(tree, plan);
    forall p
      ensures p in FilesOf(Planned(ready, plan)) <==> p in Planned(FilesOf(tree), plan)
      ensures p in FilesOf(Planned(ready, plan)) ==> Planned(ready, plan)[p] == Planned(FilesOf(tree), plan)[p]
    {
      PlannedFileAt(tree, plan, p);
    }
  }

  lemma PlannedFileAt(tree: Tree, plan: Plan, p: Path)
    requires Distinct(AllTargets(plan)) && Clear(tree, plan)
    ensures p in FilesOf(Planned(Ready(tree, plan), plan)) <==> p in Planned(FilesOf(tree), plan)
    ensures p in FilesOf(Planned(Ready(tree, plan), plan)) ==>
      Planned(Ready(tree, plan), plan)[p] == Planned(FilesOf(tree), plan)[p]
  {
    hide Planned, Clear;
    PlannedAt(Ready(tree, plan), plan, p);
    PlannedAt(FilesOf(tree), plan, p);
    TargetKinds(plan);
    if p in Targets(plan.writes) {
      var i :| 0 <= i < |plan.writes| && Targets(plan.writes)[i] == p;
      assert HoldsTarget(Planned(Ready(tree, plan), plan), plan.writes, i);
      assert HoldsTarget(Planned(FilesOf(tree), plan), plan.writes, i);
    }
  }

  /** No file ends up below a file. */
  lemma PlannedIsClosed(tree: Tree, plan: Plan)
    requires Distinct(AllTargets(plan)) && Clear(tree, plan) && Closed(tree)
    ensures Closed(Planned(Ready(tree, plan), plan))
  {
    var ready := Ready(tree, plan);
    MadeIsClosed(tree, plan.writes, |plan.writes|);
    NothingNested(tree, plan);
    TargetKinds(plan);
    hide Planned, Above;
    forall p, d | p in Planned(ready, plan) && d in Above(p)
      ensures d in Planned(ready, plan) && Planned(ready, plan)[d].Directory?
    {
      PlannedAt(ready, plan, p);
      PlannedAt(ready, plan, d);
      if p in Targets(plan.writes) {
        var i :| 0 <= i < |plan.writes| && Targets(plan.writes)[i] == p;
        MadeAbove(tree, plan.writes, |plan.writes|, i, d);
        assert plan.writes[i] in plan.writes;
      } else {
        assert d in ready && ready[d].Directory?;
      }
    }
  }

  lemma MadeAbove(tree: Tree, writes: seq<Write>, n: nat, i: nat, d: Path)
    requires i < n <= |writes| && n <= FirstBlocked(tree, writes) && d in Above(writes[i].target)
    ensures d in DirsOf(writes, n) && d in WithDirs(tree, DirsOf(writes, n)) && WithDirs(tree, DirsOf(writes, n))[d].Directory?
  {
    DirsOfAll(writes, n);
    assert !FileAbove(tree, writes[i].target);
  }

  /** The directories that staging makes have their own directories. */
  lemma MadeIsClosed(tree: Tree, writes: seq<Write>, n: nat)
    requires n <= |writes| && n <= FirstBlocked(tree, writes) && Closed(tree)
    ensures Closed(WithDirs(tree, DirsOf(writes, n)))
  {
    hide Above, DirsOf, WithDirs;
    forall p, d | p in WithDirs(tree, DirsOf(writes, n)) && d in Above(p)
      ensures d in WithDirs(tree, DirsOf(writes, n)) && WithDirs(tree, DirsOf(writes, n))[d].Directory?
    {
      MadeIsClosedAt(tree, writes, n, p, d);
    }
  }

  lemma MadeIsClosedAt(tree: Tree, writes: seq<Write>, n: nat, p: Path, d: Path)
    requires n <= |writes| && n <= FirstBlocked(tree, writes)
    requires p in WithDirs(tree, DirsOf(writes, n)) && d in Above(p)
    requires p in tree ==> d in tree && tree[d].Directory?
    ensures d in WithDirs(tree, DirsOf(writes, n)) && WithDirs(tree, DirsOf(writes, n))[d].Directory?
  {
    hide Above, DirsOf, FirstBlocked;
    if p !in tree {
      DirsOfFirst(writes, n);
      var i :| 0 <= i < n && p in Above(writes[i].target);
      AboveIsStrict(writes[i].target, p);
      MadeAbove(tree, writes, n, i, d);
    }
  }

  // ---------------------------------------------------------------------
  // Rolling back
  // ---------------------------------------------------------------------

  function Elements<T(==)>(s: seq<T>): set<T> {
    set x | x in s
  }

  function Reversed<T>(s: seq<T>): (r: seq<T>)
    ensures |r| == |s| && forall i :: 0 <= i < |s| ==> r[i] == s[|s| - 1 - i]
  {
    seq(|s|, i requires 0 <= i < |s| => s[|s| - 1 - i])
  }

  lemma ReversedElements<T>(s: seq<T>)
    ensures Elements(Reversed(s)) == Elements(s)
  {
    forall x | x in s
      ensures x in Reversed(s)
    {
      var i :| 0 <= i < |s| && s[i] == x;
      assert Reversed(s)[|s| - 1 - i] == x;
    }
  }

  /** `tree` is `base` with files staged, originals moved to backups, and the first staged files activated. */
  ghost predicate MidCommit(
    tree: Tree, base: Tree, staged: Tree, temps: seq<Move>, backups: seq<Move>, activated: seq<Path>)
  {
    && |activated| <= |temps|
    && staged.Keys == Froms(temps) && staged.Keys !! base.Keys
    && (forall p :: p in staged ==> staged[p].File?)
    && Independent(base + staged, backups)
    && Froms(temps) !! Froms(backups) && Froms(temps) !! Tos(backups)
    && (forall i :: 0 <= i < |activated| ==> activated[i] == temps[i].to)
    && Independent(RenameAll(base + staged, backups), temps[..|activated|])
    && tree == RenameAll(RenameAll(base + staged, backups), temps[..|activated|])
  }

  lemma PrefixElements(temps: seq<Move>, activated: seq<Path>)
    requires |activated| <= |temps| && forall i :: 0 <= i < |activated| ==> activated[i] == temps[i].to
    ensures Elements(activated) == Tos(temps[..|activated|])
    ensures Froms(temps[..|activated|]) <= Froms(temps)
  {
    assert forall i :: 0 <= i < |activated| ==> temps[..|activated|][i].to == activated[i];
  }

  /** Unlinking the activated files leaves the backed-up tree without the staged files they came from. */
  lemma UnlinkActivated(
    tree: Tree, base: Tree, staged: Tree, temps: seq<Move>, backups: seq<Move>, activated: seq<Path>)
    requires MidCommit(tree, base, staged, temps, backups, activated)
    ensures forall p :: p in activated && p in tree ==> tree[p].File?
    ensures tree - Elements(activated) == RenameAll(base + staged, backups) - Froms(temps[..|activated|])
  {
    var backed, acts := RenameAll(base + staged, backups), temps[..|activated|];
    EffectOfRenames(base + staged, backups);
    EffectOfRenames(backed, acts);
    PrefixElements(temps, activated);
    forall i | 0 <= i < |acts|
      ensures tree[activated[i]].File?
    {
      assert acts[i].from in Froms(temps);
      assert backed[acts[i].from] == staged[acts[i].from];
    }
    assert Tos(acts) !! backed.Keys by {
      assert forall i :: 0 <= i < |acts| ==> acts[i].to !in backed;
    }
  }

  lemma StillIndependent(tree: Tree, moves: seq<Move>, gone: set<Path>)
    requires Independent(tree, moves) && gone !! Froms(moves)
    ensures Independent(tree - gone, moves)
  {
    assert forall i :: 0 <= i < |moves| ==> moves[i].from in Froms(moves);
  }

  /** Putting the backups back leaves the staged tree without the activated files. */
  lemma RestoreLeavesStaged(base: Tree, staged: Tree, backups: seq<Move>, gone: set<Path>)
    requires Independent(base + staged, backups) && gone !! Froms(backups) && gone !! Tos(backups)
    ensures RestoreAll(RenameAll(base + staged, backups) - gone, backups) == base + staged - gone
  {
    hide RenameAll, RestoreAll;
    assert forall m :: m in backups ==> m.from in Froms(backups) && m.to in Tos(backups);
    RemovalCommutes(base + staged, backups, gone);
    StillIndependent(base + staged, backups, gone);
    RestoreUndoesRenames(base + staged - gone, backups);
  }

  lemma StagedNames(temps: seq<Move>, tmps: seq<Path>)
    requires |tmps| == |temps| && forall i :: 0 <= i < |temps| ==> tmps[i] == temps[i].from
    ensures Elements(tmps) == Froms(temps) && forall p :: p in tmps ==> p in Froms(temps)
  {
  }

  /** Unlinking the activated files, restoring the backups and unlinking the staged files, in this order, leads back to the base. */
  lemma RollingBack(
    tree: Tree, base: Tree, staged: Tree, temps: seq<Move>, backups: seq<Move>, activated: seq<Path>)
    requires MidCommit(tree, base, staged, temps, backups, activated)
    ensures forall p :: p in Reversed(activated) && p in tree ==> tree[p].File?
    ensures var left := RestoreAll(tree - Elements(Reversed(activated)), backups);
      && (forall p :: p in Froms(temps) && p in left ==> left[p].File?)
      && left - Froms(temps) == base
  {
    hide Independent, RestoreAll, RenameAll;
    var gone := Froms(temps[..|activated|]);
    UnlinkActivated(tree, base, staged, temps, backups, activated);
    ReversedElements(activated);
    assert forall p :: p in Reversed(activated) ==> p in Elements(Reversed(activated)) && p in activated;
    PrefixElements(temps, activated);
    RestoreLeavesStaged(base, staged, backups, gone);
    StagedAside(base, staged, gone);
  }

  lemma StagedAside(base: Tree, staged: Tree, gone: set<Path>)
    requires staged.Keys !! base.Keys && gone <= staged.Keys && forall p :: p in staged ==> staged[p].File?
    ensures base + staged - gone - staged.Keys == base
    ensures forall p :: p in staged.Keys && p in base + staged - gone ==> (base + staged - gone)[p].File?
  {
  }

  /** How staging ends: at the first blocked write, at a fault before it, or with everything staged. */
  ghost predicate StagingStops(start: Tree, writes: seq<Write>, fault: Fault, raised: Option<Exception>,
                               made: set<Path>, torn: Tree)
  {
    var n := FirstBlocked(start, writes);
    && (raised.None? <==> n == |writes| && !HitsBefore(fault, 2 * n))
    && (raised.Some? ==> raised == Some(if HitsBefore(fault, 2 * n) then fault.error else OsError))
    && (!HitsBefore(fault, 2 * n) ==> made == DirsOf(writes, n))
    && (torn == map[] <==> !Tears(fault, n))
  }

  lemma StopsAtFile(start: Tree, writes: seq<Write>, fault: Fault, i: nat)
    requires i < |writes| && i <= FirstBlocked(start, writes) && !HitsBefore(fault, 2 * i)
    ensures if FileAbove(start, writes[i].target) then StagingStops(start, writes, fault, Some(OsError), DirsOf(writes, i), map[])
            else i + 1 <= FirstBlocked(start, writes)
  {
  }

  /** Every other step writes a staged file. */
  lemma FaultWhileStaging(start: Tree, writes: seq<Write>, fault: Fault, i: nat)
    requires i < FirstBlocked(start, writes)
    ensures Hits(fault, 2 * i) ==> forall made :: StagingStops(start, writes, fault, Some(fault.error), made, map[])
    ensures Hits(fault, 2 * i + 1) ==>
      forall made, torn :: (torn == map[] <==> fault.torn.None?) ==>
        StagingStops(start, writes, fault, Some(fault.error), made, torn)
  {
  }

  lemma StagesAll(start: Tree, writes: seq<Write>, fault: Fault)
    requires |writes| <= FirstBlocked(start, writes) && !HitsBefore(fault, 2 * |writes|)
    ensures StagingStops(start, writes, fault, None, DirsOf(writes, |writes|), map[])
  {
  }

  lemma TornNameIsFree(writes: seq<Write>, uuids: seq<Uuid>, n: nat)
    requires n < |writes| <= |uuids| && Distinct(uuids)
    ensures var tmp := TmpName(writes[n].target, uuids[n]);
      Fresh(tmp, uuids) && tmp !in Froms(Staging(writes, uuids)[..n]) && tmp !in StagedFiles(writes, uuids, n)
  {
    TagOfFreshName(writes[n].target, uuids[n]);
    StagedContent(writes, uuids, n);
    forall i | 0 <= i < n
      ensures Staging(writes, uuids)[i].from != TmpName(writes[n].target, uuids[n])
    {
      FreshNamesDiffer(writes[i].target, uuids[i], writes[n].target, uuids[n]);
    }
  }

  /** The made directories, a torn file and the staged files are all that staging has added. */
  ghost predicate StagedWith(start: Tree, tree: Tree, writes: seq<Write>, uuids: seq<Uuid>, temps: seq<Move>,
                             made: set<Path>, torn: Tree)
    requires |writes| <= |uuids|
  {
    && temps <= Staging(writes, uuids) && made <= DirsOf(writes, |writes|)
    && tree == WithDirs(start, made) + torn + StagedFiles(writes, uuids, |temps|)
    && (forall p :: p in torn ==> Fresh(p, uuids) && p !in Froms(temps))
  }

  lemma NothingStaged(tree: Tree, writes: seq<Write>, uuids: seq<Uuid>)
    requires |writes| <= |uuids|
    ensures DirsOf(writes, 0) == {} && StagedWith(tree, tree, writes, uuids, [], {}, map[])
  {
  }

  lemma EverythingStaged(start: Tree, tree: Tree, writes: seq<Write>, uuids: seq<Uuid>, temps: seq<Move>,
                         made: set<Path>, torn: Tree)
    requires |temps| == |writes| <= |uuids| && StagedWith(start, tree, writes, uuids, temps, made, torn)
    ensures temps == Staging(writes, uuids)
  {
  }

  /** Making the directories above the next target, or some of them, and what is in their way. */
  lemma DirsStep(start: Tree, tree: Tree, writes: seq<Write>, uuids: seq<Uuid>, temps: seq<Move>, i: nat, fault: Fault)
    requires i < |writes| <= |uuids| && Distinct(uuids) && |temps| == i
    requires forall d :: d in DirsOf(writes, |writes|) ==> !Fresh(d, uuids)
    requires StagedWith(start, tree, writes, uuids, temps, DirsOf(writes, i), map[])
    ensures var target := writes[i].target;
      && (FileAbove(tree, target) <==> FileAbove(start, target))
      && DirsOf(writes, i + 1) == DirsOf(writes, i) + Above(target)
      && StagedWith(start, WithDirs(tree, Above(target)), writes, uuids, temps, DirsOf(writes, i) + Above(target), map[])
      && (fault.Fault? ==>
            var part := AboveTo(target, fault.made);
            StagedWith(start, WithDirs(tree, part), writes, uuids, temps, DirsOf(writes, i) + part, map[]))
  {
    hide Fresh, StagedFiles, WithDirs, FileAbove, Staging;
    var target, made, staged := writes[i].target, DirsOf(writes, i), StagedFiles(writes, uuids, i);
    DirsOfAll(writes, i + 1);
    StagedNamesAreFresh(writes, uuids, i);
    assert forall d :: d in Above(target) ==> d in DirsOf(writes, i + 1) && d !in staged;
    NothingTorn(WithDirs(start, made), staged);
    MoreDirs(start, made, staged, Above(target));
    FileAboveStays(start, made, staged, target);
    NothingTorn(WithDirs(start, made + Above(target)), staged);
    if fault.Fault? {
      var part := AboveTo(target, fault.made);
      assert part <= Above(target);
      MoreDirs(start, made, staged, part);
      NothingTorn(WithDirs(start, made + part), staged);
    }
  }

  /** Writing the next staged file, or a part of it. */
  lemma WriteStep(start: Tree, tree: Tree, writes: seq<Write>, uuids: seq<Uuid>, temps: seq<Move>, made: set<Path>, i: nat)
    requires i < |writes| <= |uuids| && Distinct(uuids) && |temps| == i
    requires StagedWith(start, tree, writes, uuids, temps, made, map[])
    ensures var tmp := TmpName(writes[i].target, uuids[i]);
      && StagedWith(start, tree[tmp := File(writes[i].content)], writes, uuids, temps + [Move(tmp, writes[i].target)], made, map[])
      && forall text :: StagedWith(start, tree[tmp := File(text)], writes, uuids, temps, made, map[tmp := File(text)])
  {
    hide Fresh, StagedFiles, WithDirs, Staging, DirsOf;
    var base, staged, tmp := WithDirs(start, made), StagedFiles(writes, uuids, i), TmpName(writes[i].target, uuids[i]);
    StagingStep(writes, uuids, i);
    TornNameIsFree(writes, uuids, i);
    assert temps == Staging(writes, uuids)[..i];
    NothingTorn(base, staged);
    StagedOnTop(base, staged, tmp, File(writes[i].content));
    NothingTorn(base, staged[tmp := File(writes[i].content)]);
    forall text
      ensures StagedWith(start, tree[tmp := File(text)], writes, uuids, temps, made, map[tmp := File(text)])
    {
      TornAside(base, staged, tmp, File(text));
    }
  }

  lemma MoreDirs(tree: Tree, made: set<Path>, staged: Tree, more: set<Path>)
    requires forall d :: d in more ==> d !in staged
    ensures WithDirs(WithDirs(tree, made) + staged, more) == WithDirs(tree, made + more) + staged
  {
    DirsInTwoSteps(tree, made, more);
    DirsBesideStaged(WithDirs(tree, made), staged, more);
  }

  lemma DirsBesideStaged(tree: Tree, staged: Tree, more: set<Path>)
    requires forall d :: d in more ==> d !in staged
    ensures WithDirs(tree + staged, more) == WithDirs(tree, more) + staged
  {
    assert more - (tree + staged).Keys == more - tree.Keys;
  }

  lemma FileAboveStays(tree: Tree, made: set<Path>, staged: Tree, p: Path)
    requires forall d :: d in Above(p) ==> d !in staged
    ensures FileAbove(WithDirs(tree, made) + staged, p) <==> FileAbove(tree, p)
  {
    var now := WithDirs(tree, made) + staged;
    if FileAbove(tree, p) {
      var d :| d in Above(p) && d in tree && tree[d].File?;
      assert d in now && now[d].File?;
    }
    if FileAbove(now, p) {
      var d :| d in Above(p) && d in now && now[d].File?;
      assert d in tree && tree[d].File?;
    }
  }

  lemma StagedOnTop(base: Tree, staged: Tree, tmp: Path, node: Node)
    ensures (base + staged)[tmp := node] == base + staged[tmp := node]
  {
  }

  lemma TornAside(base: Tree, staged: Tree, tmp: Path, node: Node)
    requires tmp !in staged
    ensures (base + staged)[tmp := node] == base + map[tmp := node] + staged && tmp in map[tmp := node]
  {
  }

  lemma HandledPrefix(done: seq<Path>, targets: seq<Path>, i: nat, all: seq<Path>)
    requires i < |targets| && done + targets <= all
    ensures done + targets[..i + 1] == done + targets[..i] + [targets[i]]
    ensures done + targets[..i] + [targets[i]] <= all
  {
  }

  lemma PrefixIndependent(tree: Tree, moves: seq<Move>, part: seq<Move>)
    requires Independent(tree, moves) && part <= moves
    ensures Independent(tree, part)
  {
  }

  /** The backups of the targets handled so far come first in the list of all backups. */
  lemma BackupsGrow(before: Tree, plan: Plan, uuids: seq<Uuid>, handled: seq<Path>)
    requires Committable(plan, before, uuids) && handled <= AllTargets(plan)
    ensures Backups(before, plan, uuids, handled) <= Backups(before, plan, uuids, AllTargets(plan))
  {
    var rest := AllTargets(plan)[|handled|..];
    assert handled + rest == AllTargets(plan);
    ExistingGrows(before, handled, rest);
  }

  /** A target not handled yet is still as it was. */
  lemma TargetIsUntouched(before: Tree, plan: Plan, uuids: seq<Uuid>, handled: seq<Path>, target: Path)
    requires Committable(plan, before, uuids) && handled + [target] <= AllTargets(plan)
    ensures handled <= AllTargets(plan)
    ensures var tree := RenameAll(StagedTree(before, plan, uuids), Backups(before, plan, uuids, handled));
      (target in tree <==> target in before) && (target in tree ==> tree[target] == before[target])
  {
    hide RenameAll, BakName, TmpName, StagedFiles, Existing, Independent;
    var all, staged := AllTargets(plan), StagedTree(before, plan, uuids);
    assert handled <= handled + [target];
    var moves := Backups(before, plan, uuids, handled);
    BackupsGrow(before, plan, uuids, handled);
    BackupsAreIndependent(before, plan, uuids);
    PrefixIndependent(staged, Backups(before, plan, uuids, all), moves);
    EffectOfRenames(staged, moves);
    StagedNamesAreFresh(plan.writes, uuids, |plan.writes|);
    BackupNamesAreFresh(before, plan, uuids);
    assert (handled + [target])[|handled|] == all[|handled|] == target;
    assert target !in Froms(moves) by { NotYetMoved(before, plan, uuids, handled, target); }
    assert target !in Tos(moves) by {
      assert forall j :: 0 <= j < |moves| ==> moves[j].to in Tos(Backups(before, plan, uuids, all));
    }
  }

  lemma NotYetMoved(before: Tree, plan: Plan, uuids: seq<Uuid>, handled: seq<Path>, target: Path)
    requires Committable(plan, before, uuids) && handled <= AllTargets(plan)
    requires |handled| < |AllTargets(plan)| && AllTargets(plan)[|handled|] == target
    ensures target !in Froms(Backups(before, plan, uuids, handled))
  {
    var moves := Backups(before, plan, uuids, handled);
    assert forall i :: 0 <= i < |handled| ==> handled[i] == AllTargets(plan)[i] != target;
    ExistingIsPart(before, handled);
    forall j | 0 <= j < |moves|
      ensures moves[j].from != target
    {
      assert moves[j].from == Existing(before, handled)[j];
      assert moves[j].from in Existing(before, handled);
    }
  }

  /** Handling one more target adds a backup exactly if the target exists. */
  lemma BackupListGrows(before: Tree, plan: Plan, uuids: seq<Uuid>, handled: seq<Path>, target: Path)
    requires Committable(plan, before, uuids) && handled + [target] <= AllTargets(plan)
    ensures handled <= AllTargets(plan)
    ensures target in before ==> |plan.writes| + |Backups(before, plan, uuids, handled)| < |uuids|
    ensures var moves := Backups(before, plan, uuids, handled);
      Backups(before, plan, uuids, handled + [target])
      == moves + if target in before then [Move(target, BakName(target, uuids[|plan.writes| + |moves|]))] else []
  {
    hide BakName;
    assert handled <= handled + [target];
    assert (handled + [target])[..|handled + [target]| - 1] == handled;
    ExistingIsPart(before, handled + [target]);
  }

  /** The commit has backed up the targets in `handled` and nothing interrupted it. */
  ghost predicate BackingUp(tree: Tree, before: Tree, plan: Plan, uuids: seq<Uuid>, handled: seq<Path>,
                            backups: seq<Move>, step: nat)
    requires Committable(plan, before, uuids)
  {
    && handled <= AllTargets(plan)
    && backups == Backups(before, plan, uuids, handled)
    && tree == RenameAll(StagedTree(before, plan, uuids), backups)
    && step == 2 * |plan.writes| + |backups|
  }

  lemma BackupStep(tree: Tree, before: Tree, plan: Plan, uuids: seq<Uuid>, handled: seq<Path>,
                   backups: seq<Move>, step: nat, target: Path)
    requires Committable(plan, before, uuids) && handled + [target] <= AllTargets(plan)
    requires BackingUp(tree, before, plan, uuids, handled, backups, step)
    ensures target in tree <==> target in before
    ensures target in tree ==> tree[target] == before[target]
    ensures target !in tree ==> BackingUp(tree, before, plan, uuids, handled + [target], backups, step)
    ensures target in tree ==>
      && |plan.writes| + |backups| < |uuids|
      && var backup := BakName(target, uuids[|plan.writes| + |backups|]);
      BackingUp(Rename(tree, target, backup), before, plan, uuids, handled + [target],
                backups + [Move(target, backup)], step + 1)
  {
    TargetIsUntouched(before, plan, uuids, handled, target);
    BackupListGrows(before, plan, uuids, handled, target);
    BackupsGrow(before, plan, uuids, handled + [target]);
  }

  lemma {:induction false} ExistingUpTo(tree: Tree, targets: seq<Path>, n: nat, m: nat)
    requires n <= m <= |targets|
    ensures |Existing(tree, targets[..n])| <= |Existing(tree, targets[..m])|
  {
    assert targets[..m] == targets[..n] + targets[n..m];
    ExistingGrows(tree, targets[..n], targets[n..m]);
  }

  /** Where the next target leaves the run: past it, at a directory, or with one more backup before the stop. */
  lemma NextBackup(before: Tree, plan: Plan, uuids: seq<Uuid>, handled: seq<Path>, backups: seq<Move>, step: nat,
                   target: Path, tree: Tree)
    requires Committable(plan, before, uuids) && handled + [target] <= AllTargets(plan)
    requires BackingUp(tree, before, plan, uuids, handled, backups, step)
    requires |handled| <= FirstDirectory(before, AllTargets(plan))
    ensures var d := FirstDirectory(before, AllTargets(plan));
      if target in before && before[target].Directory? then
        d == |handled| && BackupStop(before, plan) == step && !NoDirectoryTarget(before, plan)
      else
        |handled + [target]| <= d && (target in before ==> step < BackupStop(before, plan))
  {
    hide Existing, FirstDirectory, Committable, AllTargets;
    var all := AllTargets(plan);
    assert all[|handled|] == (handled + [target])[|handled|] == target && all[..|handled|] == handled;
    BackupCount(before, plan, uuids, handled, target, tree, backups, step);
    if target in before && before[target].Directory? {
      DirectoryIsFirst(before, all, |handled|);
    } else {
      NoDirectoryYet(before, all, |handled|);
      ExistingUpTo(before, all, |handled| + 1, FirstDirectory(before, all));
      assert all[..|handled| + 1] == handled + [target];
    }
  }

  lemma BackupCount(before: Tree, plan: Plan, uuids: seq<Uuid>, handled: seq<Path>, target: Path, tree: Tree,
                    backups: seq<Move>, step: nat)
    requires Committable(plan, before, uuids) && BackingUp(tree, before, plan, uuids, handled, backups, step)
    ensures step == 2 * |plan.writes| + |Existing(before, handled)|
    ensures |Existing(before, handled + [target])| == |Existing(before, handled)| + if target in before then 1 else 0
  {
    hide RenameAll, Committable, StagedTree;
    assert (handled + [target])[..|handled|] == handled;
  }

  lemma NothingBackedUp(before: Tree, plan: Plan, uuids: seq<Uuid>)
    requires Committable(plan, before, uuids)
    ensures BackingUp(StagedTree(before, plan, uuids), before, plan, uuids, [], [], 2 * |plan.writes|)
  {
  }

  /** After the last backup only the activations are left. */
  lemma AllBackedUp(tree: Tree, before: Tree, plan: Plan, uuids: seq<Uuid>, backups: seq<Move>, step: nat)
    requires Committable(plan, before, uuids) && BackingUp(tree, before, plan, uuids, AllTargets(plan), backups, step)
    requires |AllTargets(plan)| <= FirstDirectory(before, AllTargets(plan))
    ensures NoDirectoryTarget(before, plan) && step + |plan.writes| == BackupStop(before, plan)
  {
    hide RenameAll;
    assert AllTargets(plan)[..|AllTargets(plan)|] == AllTargets(plan);
  }

  lemma DirectoryIsFirst(tree: Tree, targets: seq<Path>, k: nat)
    requires k < |targets| && k <= FirstDirectory(tree, targets) && targets[k] in tree && tree[targets[k]].Directory?
    ensures FirstDirectory(tree, targets) == k
  {
  }

  lemma NoDirectoryYet(tree: Tree, targets: seq<Path>, k: nat)
    requires k < |targets| && k <= FirstDirectory(tree, targets) && (targets[k] in tree ==> tree[targets[k]].File?)
    ensures k < FirstDirectory(tree, targets)
  {
  }

  class PatchDisk {
    var tree: Tree

    constructor (tree: Tree)
      ensures this.tree == tree
    {
      this.tree := tree;
    }

    /** `_cleanup_path`, once for each of `paths`. */
    method CleanupEach(paths: seq<Path>)
      requires forall p :: p in paths && p in tree ==> tree[p].File?
      modifies this
      ensures tree == old(tree) - Elements(paths)
    {
      for i := 0 to |paths|
        invariant tree == old(tree) - Elements(paths[..i])
      {
        assert Elements(paths[..i + 1]) == Elements(paths[..i]) + {paths[i]};
        tree := Cleanup(tree, paths[i]);
      }
      assert paths[..|paths|] == paths;
    }

    method RestoreBackups(backups: seq<Move>)
      modifies this
      ensures tree == RestoreAll(old(tree), backups)
    {
      for i := |backups| downto 0
        invariant RestoreAll(tree, backups[..i]) == RestoreAll(old(tree), backups[..|backups|])
      {
        var backup, original := backups[i].to, backups[i].from;
        assert backups[..i + 1][..i] == backups[..i];
        if original in tree {
          tree := Cleanup(tree, original);
        }
        if backup in tree {
          tree := Rename(tree, backup, original);
        }
      }
      assert backups[..|backups|] == backups;
    }

    /** The exception handler: unlink what was activated, put the backups back, unlink what was staged. */
    method RollBack(temps: seq<Move>, backups: seq<Move>, activated: seq<Path>, ghost base: Tree, ghost staged: Tree)
      requires MidCommit(tree, base, staged, temps, backups, activated)
      modifies this
      ensures tree == base
    {
      hide MidCommit, RestoreAll, Elements, Froms;
      RollingBack(tree, base, staged, temps, backups, activated);
      CleanupEach(Reversed(activated));
      RestoreBackups(backups);
      var tmps := seq(|temps|, i requires 0 <= i < |temps| => temps[i].from);
      StagedNames(temps, tmps);
      CleanupEach(tmps);
    }

    /** Stages every write. An interrupted write may leave a torn file behind under its own fresh name. */
    method StageWrites(writes: seq<Write>, uuids: seq<Uuid>, fault: Fault)
      returns (temps: seq<Move>, step: nat, raised: Option<Exception>, ghost made: set<Path>, ghost torn: Tree)
      requires |writes| <= |uuids| && Distinct(uuids)
      requires forall d :: d in DirsOf(writes, |writes|) ==> !Fresh(d, uuids)
      modifies this
      ensures StagedWith(old(tree), tree, writes, uuids, temps, made, torn)
      ensures StagingStops(old(tree), writes, fault, raised, made, torn)
      ensures raised.None? ==> temps == Staging(writes, uuids) && step == 2 * |writes|
    {
      hide StagingStops, StagedWith, Fresh, Staging, StagedFiles, TmpName, DirsOf, Above, AboveTo, FileAbove, WithDirs, FirstBlocked;
      temps, step, raised, made, torn := [], 0, None, {}, map[];
      NothingStaged(tree, writes, uuids);
      for i := 0 to |writes|
        invariant step == 2 * i && i <= FirstBlocked(old(tree), writes)
        invariant made == DirsOf(writes, i) && torn == map[] && raised.None? && !HitsBefore(fault, step)
        invariant |temps| == i && StagedWith(old(tree), tree, writes, uuids, temps, made, torn)
      {
        var target, tmp := writes[i].target, TmpName(writes[i].target, uuids[i]);
        StopsAtFile(old(tree), writes, fault, i);
        DirsStep(old(tree), tree, writes, uuids, temps, i, fault);
        if FileAbove(tree, target) {                   // a file where a directory has to be
          raised := Some(OsError);
          return;
        }
        FaultWhileStaging(old(tree), writes, fault, i);
        if Hits(fault, step) {                         // creating the parent directory
          made := made + AboveTo(target, fault.made);
          tree := WithDirs(tree, AboveTo(target, fault.made));
          raised := Some(fault.error);
          return;
        }
        made := made + Above(target);
        tree := WithDirs(tree, Above(target));
        step := step + 1;
        WriteStep(old(tree), tree, writes, uuids, temps, made, i);
        if Hits(fault, step) {                         // writing the staged text
          raised := Some(fault.error);
          if fault.torn.Some? {
            torn := map[tmp := File(fault.torn.value)];
            assert tmp in torn;
            tree := tree[tmp := File(fault.torn.value)];
          }
          return;
        }
        tree := tree[tmp := File(writes[i].content)];
        temps := temps + [Move(tmp, target)];
        step := step + 1;
      }
      StagesAll(old(tree), writes, fault);
      EverythingStaged(old(tree), tree, writes, uuids, temps, made, torn);
    }

    /** Renames every existing path of `targets` to a backup name; `done` lists the targets handled before. */
    method BackUp(targets: seq<Path>, plan: Plan, uuids: seq<Uuid>, fault: Fault,
                  moves: seq<Move>, step0: nat, ghost before: Tree, ghost done: seq<Path>)
      returns (backups: seq<Move>, step: nat, raised: Option<Exception>, ghost handled: seq<Path>)
      requires Committable(plan, before, uuids) && done + targets <= AllTargets(plan)
      requires BackingUp(tree, before, plan, uuids, done, moves, step0) && !HitsBefore(fault, step0)
      requires |done| <= FirstDirectory(before, AllTargets(plan))
      modifies this
      ensures BackingUp(tree, before, plan, uuids, handled, backups, step)
      ensures raised.None? ==> handled == done + targets && !HitsBefore(fault, step)
      ensures raised.None? ==> |handled| <= FirstDirectory(before, AllTargets(plan))
      ensures raised.Some? ==>
        if HitsBefore(fault, BackupStop(before, plan)) then raised == Some(fault.error)
        else raised == Some(ValueError) && !NoDirectoryTarget(before, plan)
    {
      hide BackingUp, Committable, Existing, RenameAll, BackupStop, BakName, FirstDirectory;
      backups, step, raised, handled := moves, step0, None, done;
      assert done + targets[..0] == done;
      for i := 0 to |targets|
        invariant handled == done + targets[..i]
        invariant BackingUp(tree, before, plan, uuids, handled, backups, step)
        invariant !HitsBefore(fault, step) && |handled| <= FirstDirectory(before, AllTargets(plan))
      {
        var target := targets[i];
        HandledPrefix(done, targets, i, AllTargets(plan));
        NextBackup(before, plan, uuids, handled, backups, step, target, tree);
        BackupStep(tree, before, plan, uuids, handled, backups, step, target);
        if target in tree {
          if tree[target].Directory? {
            raised := Some(ValueError);
            return;
          }
          if Hits(fault, step) {
            raised := Some(fault.error);
            return;
          }
          var backup := BakName(target, uuids[|plan.writes| + |backups|]);
          tree := Rename(tree, target, backup);
          backups := backups + [Move(target, backup)];
          step := step + 1;
        }
        handled := handled + [target];
      }
      assert targets[..|targets|] == targets;
    }

    /** Renames the staged files to their targets. */
    method Activate(temps: seq<Move>, fault: Fault, step0: nat, ghost backed: Tree)
      returns (activated: seq<Path>, step: nat, raised: Option<Exception>)
      requires Independent(backed, temps) && tree == backed
      requires !HitsBefore(fault, step0)
      modifies this
      ensures |activated| <= |temps| && forall i :: 0 <= i < |activated| ==> activated[i] == temps[i].to
      ensures tree == RenameAll(backed, temps[..|activated|])
      ensures raised.None? <==> !HitsBefore(fault, step0 + |temps|)
      ensures raised.None? ==> |activated| == |temps| && step == step0 + |temps|
      ensures raised.Some? ==> fault.Fault? && raised == Some(fault.error)
    {
      activated, step, raised := [], step0, None;
      for i := 0 to |temps|
        invariant |activated| == i && step == step0 + i && !HitsBefore(fault, step)
        invariant forall j :: 0 <= j < i ==> activated[j] == temps[j].to
        invariant tree == RenameAll(backed, temps[..i])
      {
        if Hits(fault, step) {
          raised := Some(fault.error);
          return;
        }
        ActivateStep(backed, temps, i);
        tree := Rename(tree, temps[i].from, temps[i].to);
        activated := activated + [temps[i].to];
        step := step + 1;
      }
    }

    /** Backs up the targets of the writes, then the paths to delete. */
    method BackUpAll(plan: Plan, uuids: seq<Uuid>, fault: Fault, step0: nat, ghost before: Tree)
      returns (backups: seq<Move>, step: nat, raised: Option<Exception>, ghost handled: seq<Path>)
      requires Committable(plan, before, uuids) && tree == StagedTree(before, plan, uuids)
      requires step0 == 2 * |plan.writes| && !HitsBefore(fault, step0)
      modifies this
      ensures BackingUp(tree, before, plan, uuids, handled, backups, step)
      ensures raised.None? ==>
        handled == AllTargets(plan) && NoDirectoryTarget(before, plan) && !HitsBefore(fault, step)
        && step + |plan.writes| == BackupStop(before, plan)
      ensures raised.Some? ==>
        if HitsBefore(fault, BackupStop(before, plan)) then raised == Some(fault.error)
        else raised == Some(ValueError) && !NoDirectoryTarget(before, plan)
    {
      hide BackupStop, FirstDirectory, Existing, RenameAll, NoDirectoryTarget;
      var targets := Targets(plan.writes);
      NothingBackedUp(before, plan, uuids);
      assert [] + targets == targets;
      backups, step, raised, handled := BackUp(targets, plan, uuids, fault, [], step0, before, []);
      if raised.None? {
        backups, step, raised, handled := BackUp(plan.deletes, plan, uuids, fault, backups, step, before, handled);
      }
      if raised.None? {
        AllBackedUp(tree, before, plan, uuids, backups, step);
      }
    }

    /** The end of a successful commit: the backups are unlinked. */
    method DropBackups(backups: seq<Move>, ghost plan: Plan, ghost uuids: seq<Uuid>, ghost before: Tree)
      requires Committable(plan, before, uuids) && NoDirectoryTarget(before, plan)
      requires backups == Backups(before, plan, uuids, AllTargets(plan)) && tree == RunTree(before, plan, uuids)
      modifies this
      ensures tree == Planned(before, plan)
    {
      BackupsAreFiles(before, plan, uuids);
      var names := seq(|backups|, i requires 0 <= i < |backups| => backups[i].to);
      assert Elements(names) == Tos(backups) by {
        assert forall i :: 0 <= i < |backups| ==> names[i] == backups[i].to;
      }
      CleanupEach(names);
      PhasesGivePlanned(before, plan, uuids);
    }

    /**
     `_commit_atomic_patch_plan`: all or nothing, wherever a forward operation fails.

     It commits exactly when nothing stands in the way of the plan and no fault strikes
     before the run is over. Success leaves exactly the planned writes and deletes, and the
     directories above the writes. Failure leaves every path outside the fresh names as it
     was, but for new directories above the written targets; and only an interrupted write
     that tore a staged file leaves anything under a fresh name.
     */
    method CommitAtomicPatchPlan(plan: Plan, uuids: seq<Uuid>, fault: Fault)
      returns (committed: bool, error: Option<string>)
      requires Committable(plan, tree, uuids)
      modifies this
      ensures committed <==> Clear(old(tree), plan) && !HitsBefore(fault, StopStep(old(tree), plan))
      ensures committed ==> tree == Planned(Ready(old(tree), plan), plan) && error.None?
      ensures !committed ==>
        error == Some(if HitsBefore(fault, StopStep(old(tree), plan)) then ErrorName(fault.error)
                      else if FirstBlocked(old(tree), plan.writes) < |plan.writes| then IO_ERROR
                      else INVALID_PATCH)
      ensures !committed ==> OnlyDirectoriesAdded(old(tree), UserView(tree, uuids), DirsAbove(plan))
      ensures !committed && !HitsBefore(fault, StopStep(old(tree), plan)) ==>
        tree == WithDirs(old(tree), DirsOf(plan.writes, FirstBlocked(old(tree), plan.writes)))
      ensures !committed ==>
        (tree == UserView(tree, uuids) <==> !Tears(fault, FirstBlocked(old(tree), plan.writes)))
    {
      hide MidCommit, RenameAll, Existing, Contents, Planned, Independent, Distinct, Fresh, Froms, NoDirectoryTarget,
           WithDirs, DirsOf, BackupStop, FirstBlocked, OnlyDirectoriesAdded, Tears, StagedFiles, Backups;
      ghost var start, ready, w := tree, Ready(tree, plan), |plan.writes|;
      ReadyIsCommittable(start, plan, uuids);
      StopsAfterStaging(start, plan, fault);
      var temps, step, raised, made, torn := StageWrites(plan.writes, uuids, fault);
      if raised.Some? {
        MadeIsNotFresh(start, plan, uuids, made);
        InterruptedStaging(tree, WithDirs(start, made), torn, plan.writes, uuids, temps);
        RollBack(temps, [], [], WithDirs(start, made) + torn, StagedFiles(plan.writes, uuids, |temps|));
        WhatFailureLeaves(start, plan, uuids, made, torn);
        return false, Some(ErrorName(raised.value));
      }
      NothingTorn(ready, StagedFiles(plan.writes, uuids, w));
      var backups;
      ghost var handled;
      backups, step, raised, handled := BackUpAll(plan, uuids, fault, step, ready);
      if raised.Some? {
        RenameNone(tree, temps);
        CanRollBack(tree, ready, plan, uuids, handled, []);
        RollBack(temps, backups, [], ready, StagedFiles(plan.writes, uuids, w));
        WhatFailureLeaves(start, plan, uuids, DirsAbove(plan), map[]);
        return false, Some(ErrorName(raised.value));
      }
      ActivationIsIndependent(ready, plan, uuids);
      var activated;
      activated, step, raised := Activate(temps, fault, step, tree);
      if raised.Some? {
        CanRollBack(tree, ready, plan, uuids, handled, activated);
        RollBack(temps, backups, activated, ready, StagedFiles(plan.writes, uuids, w));
        WhatFailureLeaves(start, plan, uuids, DirsAbove(plan), map[]);
        return false, Some(ErrorName(raised.value));
      }
      assert temps[..w] == temps;
      DropBackups(backups, plan, uuids, ready);
      return true, None;
    }
  }

  function ErrorName(e: Exception): string {
    if e.ValueError? then INVALID_PATCH else IO_ERROR
  }

  /** The made directories carry no fresh name, so the plan fits the tree with them too. */
  lemma ReadyIsCommittable(tree: Tree, plan: Plan, uuids: seq<Uuid>)
    requires Committable(plan, tree, uuids)
    ensures Committable(plan, Ready(tree, plan), uuids)
  {
  }

  lemma MadeIsNotFresh(tree: Tree, plan: Plan, uuids: seq<Uuid>, made: set<Path>)
    requires Committable(plan, tree, uuids) && made <= DirsAbove(plan)
    ensures forall p :: p in WithDirs(tree, made) ==> !Fresh(p, uuids)
  {
  }

  /** A fault before the run stops strikes while staging, or after it. */
  lemma StopsAfterStaging(tree: Tree, plan: Plan, fault: Fault)
    ensures var n := FirstBlocked(tree, plan.writes);
      && n <= |plan.writes|
      && (n < |plan.writes| ==> StopStep(tree, plan) == 2 * n && !Clear(tree, plan))
      && (n == |plan.writes| ==>
            && StopStep(tree, plan) == BackupStop(Ready(tree, plan), plan) >= 2 * n
            && (Clear(tree, plan) <==> NoDirectoryTarget(Ready(tree, plan), plan)))
    ensures !HitsBefore(fault, 2 * FirstBlocked(tree, plan.writes)) ==> !Tears(fault, FirstBlocked(tree, plan.writes))
  {
  }

  lemma NothingTorn(ready: Tree, staged: Tree)
    ensures ready + map[] + staged == ready + staged
  {
    assert ready + map[] == ready;
  }

  /** What the user sees after a failure: the tree from before and the made directories; a torn file is aside. */
  lemma WhatFailureLeaves(tree: Tree, plan: Plan, uuids: seq<Uuid>, made: set<Path>, torn: Tree)
    requires Committable(plan, tree, uuids) && made <= DirsAbove(plan)
    requires forall p :: p in torn ==> Fresh(p, uuids)
    ensures OnlyDirectoriesAdded(tree, UserView(WithDirs(tree, made) + torn, uuids), DirsAbove(plan))
    ensures var after := WithDirs(tree, made) + torn; after == UserView(after, uuids) <==> torn == map[]
    ensures torn == map[] ==> WithDirs(tree, made) + torn == WithDirs(tree, made)
  {
    var after := WithDirs(tree, made) + torn;
    MadeIsNotFresh(tree, plan, uuids, made);
    if p :| p in torn {
      assert p in after && p !in UserView(after, uuids);
    } else {
      assert after == WithDirs(tree, made);
    }
  }

  /** A run that stops while staging can be rolled back to its start, torn file aside. */
  lemma InterruptedStaging(tree: Tree, before: Tree, torn: Tree, writes: seq<Write>, uuids: seq<Uuid>, temps: seq<Move>)
    requires |writes| <= |uuids| && Distinct(uuids) && temps <= Staging(writes, uuids)
    requires forall p :: p in before ==> !Fresh(p, uuids)
    requires forall p :: p in torn ==> p !in Froms(temps)
    requires tree == before + torn + StagedFiles(writes, uuids, |temps|)
    ensures MidCommit(tree, before + torn, StagedFiles(writes, uuids, |temps|), temps, [], [])
  {
    var staged := StagedFiles(writes, uuids, |temps|);
    assert temps == Staging(writes, uuids)[..|temps|];
    StagedContent(writes, uuids, |temps|);
    StagedNamesAreFresh(writes, uuids, |temps|);
    StagedFilesAreFiles(writes, uuids, |temps|);
    StagedApart(before, torn, staged, temps, uuids);
    NothingMoved(before + torn, staged, temps);
  }

  lemma StagedApart(before: Tree, torn: Tree, staged: Tree, temps: seq<Move>, uuids: seq<Uuid>)
    requires staged.Keys == Froms(temps)
    requires forall p :: p in staged ==> Fresh(p, uuids)
    requires forall p :: p in before ==> !Fresh(p, uuids)
    requires forall p :: p in torn ==> p !in Froms(temps)
    ensures staged.Keys !! (before + torn).Keys
  {
  }

  /** Before the first backup only the staged files are new. */
  lemma NothingMoved(base: Tree, staged: Tree, temps: seq<Move>)
    requires staged.Keys == Froms(temps) && staged.Keys !! base.Keys && forall p :: p in staged ==> staged[p].File?
    ensures MidCommit(base + staged, base, staged, temps, [], [])
  {
    assert temps[..0] == [];
  }

  /** Backups of a plan without directory targets are files. */
  lemma BackupsAreFiles(before: Tree, plan: Plan, uuids: seq<Uuid>)
    requires Committable(plan, before, uuids) && NoDirectoryTarget(before, plan)
    ensures var run, backups := RunTree(before, plan, uuids), Backups(before, plan, uuids, AllTargets(plan));
      forall j :: 0 <= j < |backups| && backups[j].to in run ==> run[backups[j].to].File?
  {
    var run, backups := RunTree(before, plan, uuids), Backups(before, plan, uuids, AllTargets(plan));
    BackupsAreIndependent(before, plan, uuids);
    EffectOfRenames(StagedTree(before, plan, uuids), backups);
    EffectOfActivation(before, plan, uuids);
    ExistingIsPart(before, AllTargets(plan));
    NamesApart(before, plan, uuids, AllTargets(plan));
    StagedNamesAreFresh(plan.writes, uuids, |plan.writes|);
    forall j | 0 <= j < |backups| && backups[j].to in run
      ensures run[backups[j].to].File?
    {
      var original := backups[j].from;
      assert original == Existing(before, AllTargets(plan))[j];
      assert original in Existing(before, AllTargets(plan));
      assert backups[j].to in Tos(backups);
    }
  }

  /** A run that stops while backing up or activating can be rolled back. */
  lemma CanRollBack(tree: Tree, before: Tree, plan: Plan, uuids: seq<Uuid>, handled: seq<Path>, activated: seq<Path>)
    requires Committable(plan, before, uuids) && handled <= AllTargets(plan)
    requires activated == [] || handled == AllTargets(plan)
    requires |activated| <= |plan.writes|
    requires forall i :: 0 <= i < |activated| ==> activated[i] == Staging(plan.writes, uuids)[i].to
    requires tree == RenameAll(RenameAll(StagedTree(before, plan, uuids), Backups(before, plan, uuids, handled)),
                               Staging(plan.writes, uuids)[..|activated|])
    ensures MidCommit(tree, before, StagedFiles(plan.writes, uuids, |plan.writes|), Staging(plan.writes, uuids),
                      Backups(before, plan, uuids, handled), activated)
  {
    var w := |plan.writes|;
    var staged, staging, moves := StagedFiles(plan.writes, uuids, w), Staging(plan.writes, uuids), Backups(before, plan, uuids, handled);
    var allMoves := Backups(before, plan, uuids, AllTargets(plan));
    assert staging[..w] == staging;
    StagedContent(plan.writes, uuids, w);
    StagedNamesAreFresh(plan.writes, uuids, w);
    StagedFilesAreFiles(plan.writes, uuids, w);
    BackupsAreIndependent(before, plan, uuids);
    BackupsGrow(before, plan, uuids, handled);
    PrefixIndependent(before + staged, allMoves, moves);
    NamesApart(before, plan, uuids, handled);
    if activated != [] {
      ActivationIsIndependent(before, plan, uuids);
      PrefixIndependent(BackedTree(before, plan, uuids), staging, staging[..|activated|]);
    }
  }

  lemma {:induction false} StagedFilesAreFiles(writes: seq<Write>, uuids: seq<Uuid>, n: nat)
    requires n <= |writes| <= |uuids|
    ensures forall p :: p in StagedFiles(writes, uuids, n) ==> StagedFiles(writes, uuids, n)[p].File?
  {
    if n > 0 {
      StagedFilesAreFiles(writes, uuids, n - 1);
    }
  }

  /** Staged names are neither backed-up paths nor backup names. */
  lemma NamesApart(before: Tree, plan: Plan, uuids: seq<Uuid>, handled: seq<Path>)
    requires Committable(plan, before, uuids) && handled <= AllTargets(plan)
    ensures Froms(Staging(plan.writes, uuids)) !! Froms(Backups(before, plan, uuids, handled))
    ensures Froms(Staging(plan.writes, uuids)) !! Tos(Backups(before, plan, uuids, handled))
  {
    ExistingIsPart(before, handled);
    var moves, staging := Backups(before, plan, uuids, handled), Staging(plan.writes, uuids);
    var all := Backups(before, plan, uuids, AllTargets(plan));
    BackupsGrow(before, plan, uuids, handled);
    OriginalsAreNotFresh(before, plan, uuids);
    StagedFromsAreFresh(plan.writes, uuids);
    assert forall j :: 0 <= j < |moves| ==> moves[j].from in Froms(all);
    forall i, j | 0 <= i < |staging| && 0 <= j < |moves|
      ensures staging[i].from != moves[j].to
    {
      FreshNamesDiffer(plan.writes[i].target, uuids[i], moves[j].from, uuids[|plan.writes| + j]);
    }
  }

  lemma ActivateStep(backed: Tree, temps: seq<Move>, i: nat)
    requires Independent(backed, temps) && i < |temps|
    ensures temps[i].from in RenameAll(backed, temps[..i])
    ensures RenameAll(backed, temps[..i + 1]) == Rename(RenameAll(backed, temps[..i]), temps[i].from, temps[i].to)
  {
    SplitIndependent(backed, temps[..i + 1]);
    assert temps[..i + 1][..i] == temps[..i];
    EffectOfRenames(backed, temps[..i]);
  }
}
