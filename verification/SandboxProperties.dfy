/**
 What sandboxes keep over whole runs: immutable snapshots, exact restores, and a manifest
 that indexes the files.
 */
module SandboxProperties {
  import opened Results
  import opened JsonValues
  import opened SandboxModel
  import FactTree

  // ---------------------------------------------------------------------
  // Snapshots
  // ---------------------------------------------------------------------

  /** Snapshot ids are given out in order. */
  ghost predicate Ordered(s: State) {
    forall id :: id in s.snapshots ==> id < s.nextSnapshot
  }

  ghost predicate KeepsSnapshots(s: State, t: State) {
    && Ordered(t)
    && forall id :: id in s.snapshots ==> id in t.snapshots && t.snapshots[id] == s.snapshots[id]
  }

  lemma StepKeepsSnapshots(s: State, op: Op)
    requires Ordered(s)
    ensures KeepsSnapshots(s, Next(s, op))
  {
    hide Mutate, Malformed, ParsePath, Covers, Deduct, Record, Forget, Resources, CanStore, TmpOf, Ancestors;
  }

  /** No operation changes or removes a snapshot. */
  lemma {:induction false} RunKeepsSnapshots(s: State, ops: seq<Op>)
    requires Ordered(s)
    ensures KeepsSnapshots(s, Run(s, ops))
    decreases |ops|
  {
    if ops != [] {
      StepKeepsSnapshots(s, ops[0]);
      RunKeepsSnapshots(Next(s, ops[0]), ops[1..]);
    }
  }

  /** The memory (with its revision), the file tree and the manifest that readers see. */
  ghost predicate SameContents(s: State, t: State) {
    s.memory == t.memory && s.files == t.files && s.dirs == t.dirs && Resources(s) == Resources(t)
  }

  /**
   Restoring a snapshot after any later operations gives back what the sandbox held when
   the snapshot was taken; and it succeeds exactly when the file budget covers its cost.
   */
  lemma RestoreIsExact(s: State, snapshotCost: real, ops: seq<Op>, restoreCost: real)
    requires Ordered(s) && Apply(s, TakeSnapshot(snapshotCost)).Success? && restoreCost >= 0.0
    ensures var id := s.nextSnapshot;
      var later := Run(Apply(s, TakeSnapshot(snapshotCost)).value, ops);
      var restored := Apply(later, RestoreSnapshot(id, restoreCost));
      && (restored.Success? <==> AffordsFileWrites(later, restoreCost))
      && (restored.Success? ==> SameContents(restored.value, s))
  {
    var taken := Apply(s, TakeSnapshot(snapshotCost)).value;
    RunKeepsSnapshots(taken, ops);
    assert s.nextSnapshot in taken.snapshots;
  }

  // ---------------------------------------------------------------------
  // The manifest
  // ---------------------------------------------------------------------

  ghost predicate Describes(e: Entry, files: Files) {
    e.path in files && e.hash == Sha256(files[e.path]) && e.size == Utf8Size(files[e.path])
  }

  /** One entry per file with its current hash and size, and no other entries. */
  ghost predicate Indexes(entries: seq<Entry>, files: Files) {
    && (forall i, j :: 0 <= i < j < |entries| ==> entries[i].path != entries[j].path)
    && (forall i :: 0 <= i < |entries| ==> Describes(entries[i], files))
    && (forall path :: path in files ==> Lists(entries, path))
  }

  lemma {:induction false} ForgetKeepsOthers(entries: seq<Entry>, path: string)
    ensures forall e :: e in Forget(entries, path) <==> e in entries && e.path != path
  {
    if entries != [] {
      ForgetKeepsOthers(entries[1..], path);
      assert entries == [entries[0]] + entries[1..];
    }
  }

  ghost predicate DistinctPaths(entries: seq<Entry>) {
    forall i, j :: 0 <= i < j < |entries| ==> entries[i].path != entries[j].path
  }

  lemma {:induction false} ForgetKeepsDistinct(entries: seq<Entry>, path: string)
    requires DistinctPaths(entries)
    ensures DistinctPaths(Forget(entries, path))
  {
    if entries != [] {
      ForgetKeepsDistinct(entries[1..], path);
      ForgetKeepsOthers(entries[1..], path);
      var rest := Forget(entries[1..], path);
      assert forall e :: e in rest ==> e in entries[1..];
      assert forall e :: e in entries[1..] ==> e.path != entries[0].path;
    }
  }

  lemma ForgetLists(entries: seq<Entry>, path: string, other: string)
    requires Lists(entries, other) && other != path
    ensures Lists(Forget(entries, path), other)
  {
    hide Forget;
    ForgetKeepsOthers(entries, path);
    var i :| 0 <= i < |entries| && entries[i].path == other;
    assert entries[i] in Forget(entries, path);
  }

  lemma ForgetIndexes(entries: seq<Entry>, files: Files, path: string)
    requires Indexes(entries, files)
    ensures Indexes(Forget(entries, path), files - {path})
  {
    hide Forget, Lists;
    ForgetKeepsOthers(entries, path);
    ForgetKeepsDistinct(entries, path);
    var kept := Forget(entries, path);
    forall i | 0 <= i < |kept|
      ensures Describes(kept[i], files - {path})
    {
      assert kept[i] in kept;
      var k :| 0 <= k < |entries| && entries[k] == kept[i];
      assert Describes(entries[k], files);
    }
    forall other | other in files - {path}
      ensures Lists(kept, other)
    {
      ForgetLists(entries, path, other);
    }
  }

  /** What recording does to the entry at each place, and to the places. */
  lemma RecordAt(entries: seq<Entry>, path: string, text: string, i: nat)
    requires i < |Record(entries, path, text)|
    ensures |entries| <= |Record(entries, path, text)| <= |entries| + 1
    ensures var e := Record(entries, path, text)[i];
      && (i < |entries| ==> e.path == entries[i].path)
      && (i < |entries| && e.path != path ==> e == entries[i])
      && (i == |entries| ==> e.path == path && !Lists(entries, path))
      && (e.path == path ==> e.hash == Sha256(text) && e.size == Utf8Size(text))
  {
    if !Lists(entries, path) && i < |entries| {
      assert entries[i].path != path;
    }
  }

  lemma RecordLists(entries: seq<Entry>, path: string, text: string, other: string)
    requires Lists(entries, other) || other == path
    ensures Lists(Record(entries, path, text), other)
  {
    var recorded := Record(entries, path, text);
    if Lists(entries, other) {
      var i :| 0 <= i < |entries| && entries[i].path == other;
      assert recorded[i].path == other;
    } else {
      assert recorded[|entries|].path == path;
    }
  }

  lemma RecordIndexes(entries: seq<Entry>, files: Files, path: string, text: string)
    requires Indexes(entries, files)
    ensures Indexes(Record(entries, path, text), files[path := text])
  {
    hide Record, Lists;
    var recorded, after := Record(entries, path, text), files[path := text];
    forall i | 0 <= i < |recorded|
      ensures Describes(recorded[i], after)
    {
      RecordAt(entries, path, text, i);
      assert i < |entries| ==> Describes(entries[i], files);
    }
    forall i, j | 0 <= i < j < |recorded|
      ensures recorded[i].path != recorded[j].path
    {
      RecordAt(entries, path, text, i);
      RecordAt(entries, path, text, j);
      UnlistedIsNew(entries, path, i);
    }
    forall other | other in after
      ensures Lists(recorded, other)
    {
      RecordLists(entries, path, text, other);
    }
  }

  lemma UnlistedIsNew(entries: seq<Entry>, path: string, i: nat)
    requires i < |entries|
    ensures !Lists(entries, path) ==> entries[i].path != path
  {
  }

  /** The manifest is an exact index of the files. */
  ghost predicate IsIndex(s: State) {
    Indexes(Resources(s), s.files)
  }

  lemma TmpIsLonger(path: string)
    ensures TmpOf(path) != path
  {
    assert |TmpOf(path)| == |path| + 4;
  }

  /** A store that succeeds keeps the index exactly when no file has the temporary name. */
  lemma StoreIndexesExactly(s: State, path: string, text: string)
    requires IsIndex(s)
    ensures IsIndex(Store(s, path, text)) <==> TmpOf(path) !in s.files
  {
    var t := Store(s, path, text);
    TmpIsLonger(path);
    if TmpOf(path) !in s.files {
      assert s.files - {TmpOf(path)} == s.files;
      RecordIndexes(Resources(s), s.files, path, text);
    } else {
      var i :| 0 <= i < |Resources(s)| && Resources(s)[i].path == TmpOf(path);
      assert Resources(t)[i] == Resources(s)[i];
      assert !Describes(Resources(t)[i], t.files);
    }
  }

  /** A temporary file left behind keeps the index only if it was there before with the same text. */
  lemma LeftTmpIndexesExactly(s: State, t: State, tmp: string, text: string)
    requires IsIndex(s) && t.files == s.files[tmp := text] && Resources(t) == Resources(s)
    ensures IsIndex(t) <==> tmp in s.files && s.files[tmp] == text
  {
    if tmp in s.files {
      if s.files[tmp] == text {
        assert t.files == s.files;
      } else {
        var i :| 0 <= i < |Resources(s)| && Resources(s)[i].path == tmp;
        assert Describes(Resources(s)[i], s.files) && !Describes(Resources(t)[i], t.files);
      }
    } else {
      assert tmp in t.files && !Lists(Resources(t), tmp);
    }
  }

  /** The file system refuses the store before it writes anything. */
  predicate StopsBeforeWriting(s: State, path: string) {
    Ancestors(path) * s.files.Keys != {} || TmpOf(path) in s.dirs
  }

  /**
   Exactly when an attempt to store keeps the manifest an exact index. Unless the attempt
   stops before it writes, there must be no directory at the path and no file under its
   temporary name; a directory at the path does no harm only if the left temporary file was
   there before with the same text.
   */
  lemma AttemptIndexesExactly(s: State, path: string, text: string)
    requires IsIndex(s)
    ensures IsIndex(AfterStoring(s, path, text)) <==>
      || StopsBeforeWriting(s, path)
      || (if path in s.dirs then TmpOf(path) in s.files && s.files[TmpOf(path)] == text else TmpOf(path) !in s.files)
  {
    if CanStore(s, path) {
      StoreIndexesExactly(s, path, text);
    } else if !StopsBeforeWriting(s, path) {
      LeftTmpIndexesExactly(s, Leftover(s, path, text), TmpOf(path), text);
    } else {
      assert Leftover(s, path, text).files == s.files;
    }
  }

  // ---------------------------------------------------------------------
  // The manifest over whole runs
  // ---------------------------------------------------------------------

  /** The path an operation may create a file at. */
  function WrittenPath(op: Op): Option<string> {
    match op
    case WriteFile(path, _, _) => ParsePath(path)
    case RollbackWriteFile(path, _, _, _) => ParsePath(path)
    case RollbackDeleteFile(path, _, _) => ParsePath(path)
    case _ => None
  }

  /** No tracked path is the temporary name of another. */
  ghost predicate NoTmpNames(tracked: set<string>) {
    forall p, q :: p in tracked && q in tracked ==> p != TmpOf(q)
  }

  /** No tracked path is a directory above another. */
  ghost predicate NoAncestors(tracked: set<string>) {
    forall p, q :: p in tracked && q in tracked ==> p !in Ancestors(q)
  }

  ghost predicate WritesInside(ops: seq<Op>, tracked: set<string>) {
    forall i :: 0 <= i < |ops| && WrittenPath(ops[i]).Some? ==> WrittenPath(ops[i]).value in tracked
  }

  /** The files are tracked, and the directories are above tracked paths. */
  ghost predicate TreeInside(files: Files, dirs: set<string>, tracked: set<string>) {
    files.Keys <= tracked && forall d :: d in dirs ==> exists p :: p in tracked && d in Ancestors(p)
  }

  /** The tree and those of the snapshots lie inside `tracked`, each with its exact index. */
  ghost predicate Indexed(s: State, tracked: set<string>) {
    && TreeInside(s.files, s.dirs, tracked) && IsIndex(s)
    && forall id :: id in s.snapshots ==>
      && TreeInside(s.snapshots[id].files, s.snapshots[id].dirs, tracked)
      && Indexes(s.snapshots[id].manifest, s.snapshots[id].files)
  }

  lemma TreeGrowsInside(files: Files, dirs: set<string>, path: string, tracked: set<string>)
    requires TreeInside(files, dirs, tracked) && path in tracked
    ensures TreeInside(files, dirs + Ancestors(path), tracked)
  {
  }

  /** Nothing is ever in the way of a tracked path but a directory under its temporary name. */
  lemma TrackedIsNoDirectory(s: State, path: string, tracked: set<string>)
    requires Indexed(s, tracked) && NoAncestors(tracked) && path in tracked
    ensures path !in s.dirs && Ancestors(path) * s.files.Keys == {}
  {
  }

  lemma AttemptKeepsIndexed(s: State, path: string, text: string, tracked: set<string>)
    requires Indexed(s, tracked) && NoTmpNames(tracked) && NoAncestors(tracked) && path in tracked
    ensures Indexed(AfterStoring(s, path, text), tracked)
  {
    TrackedIsNoDirectory(s, path, tracked);
    AttemptIndexesExactly(s, path, text);
    TreeGrowsInside(s.files, s.dirs, path, tracked);
  }

  lemma DropKeepsIndexed(s: State, path: string, tracked: set<string>)
    requires Indexed(s, tracked)
    ensures Indexed(Drop(s, path), tracked)
  {
    ForgetIndexes(Resources(s), s.files, path);
  }

  lemma PayingKeepsIndexed(s: State, cost: real, tracked: set<string>)
    requires Indexed(s, tracked)
    ensures Indexed(PayFileWrites(s, cost), tracked)
  {
  }

  /** What an operation that stores a text does to the tree. */
  lemma StoringEffect(s: State, op: Op)
    requires StoredText(op).Some?
    ensures var checked := CheckFileWrite(s, op.path, op.cost);
      Next(s, op) == if checked.Failure? then s
      else if CanStore(s, checked.value) then PayFileWrites(Store(s, checked.value, StoredText(op).value), op.cost)
      else Leftover(s, checked.value, StoredText(op).value)
  {
  }

  /** What the other operations on a file do to the tree. */
  lemma RemovingEffect(s: State, op: Op)
    requires (op.RollbackWriteFile? && StoredText(op).None?) || op.DeleteFile?
    ensures var checked := CheckFileWrite(s, op.path, op.cost);
      Next(s, op) == s || (checked.Success? && Next(s, op) == PayFileWrites(Drop(s, checked.value), op.cost))
  {
  }

  lemma FileOpKeepsIndexed(s: State, op: Op, tracked: set<string>)
    requires Indexed(s, tracked) && NoTmpNames(tracked) && NoAncestors(tracked)
    requires op.WriteFile? || op.RollbackWriteFile? || op.DeleteFile? || op.RollbackDeleteFile?
    requires WrittenPath(op).Some? ==> WrittenPath(op).value in tracked
    ensures Indexed(Next(s, op), tracked)
  {
    var checked := CheckFileWrite(s, op.path, op.cost);
    if StoredText(op).Some? {
      StoringEffect(s, op);
      if checked.Success? {
        AttemptKeepsIndexed(s, checked.value, StoredText(op).value, tracked);
        PayingKeepsIndexed(AfterStoring(s, checked.value, StoredText(op).value), op.cost, tracked);
      }
    } else {
      RemovingEffect(s, op);
      if checked.Success? {
        DropKeepsIndexed(s, checked.value, tracked);
        PayingKeepsIndexed(Drop(s, checked.value), op.cost, tracked);
      }
    }
  }

  lemma SameFilesKeepIndexed(s: State, t: State, tracked: set<string>)
    requires Indexed(s, tracked) && t == s.(memory := t.memory, budget := t.budget)
    ensures Indexed(t, tracked)
  {
  }

  /** A memory write leaves files, manifest and snapshots alone. */
  lemma MemoryWriteLeavesFiles(s: State, op: MemoryOp, cost: real)
    ensures var t := Next(s, MemoryWrite(op, cost)); t == s.(memory := t.memory, budget := t.budget)
  {
  }

  lemma ReadLeavesFiles(s: State, path: string, cost: real)
    ensures var t := Next(s, ReadFile(path, cost)); t == s.(budget := t.budget)
  {
  }

  lemma SnapshotKeepsIndexed(s: State, cost: real, tracked: set<string>)
    requires Indexed(s, tracked)
    ensures Indexed(Next(s, TakeSnapshot(cost)), tracked)
  {
    if Apply(s, TakeSnapshot(cost)).Success? {
      var t := s.(snapshots := s.snapshots[s.nextSnapshot := Snapped(s)], nextSnapshot := s.nextSnapshot + 1);
      assert Indexed(t, tracked);
      PayingKeepsIndexed(t, cost, tracked);
    }
  }

  lemma RestoreKeepsIndexed(s: State, id: nat, cost: real, tracked: set<string>)
    requires Indexed(s, tracked)
    ensures Indexed(Next(s, RestoreSnapshot(id, cost)), tracked)
  {
    if Apply(s, RestoreSnapshot(id, cost)).Success? {
      var snap := s.snapshots[id];
      var t := s.(memory := snap.memory, files := snap.files, dirs := snap.dirs, manifest := Some(snap.manifest));
      assert Indexed(t, tracked);
      PayingKeepsIndexed(t, cost, tracked);
    }
  }

  lemma ResetKeepsIndexed(s: State, tracked: set<string>)
    requires Indexed(s, tracked)
    ensures Indexed(Next(s, Reset), tracked)
  {
  }

  lemma StepKeepsIndexed(s: State, op: Op, tracked: set<string>)
    requires Indexed(s, tracked) && NoTmpNames(tracked) && NoAncestors(tracked)
    requires WrittenPath(op).Some? ==> WrittenPath(op).value in tracked
    ensures Indexed(Next(s, op), tracked)
  {
    match op {
      case MemoryWrite(m, cost) =>
        MemoryWriteLeavesFiles(s, m, cost);
        SameFilesKeepIndexed(s, Next(s, op), tracked);
      case ReadFile(path, cost) =>
        ReadLeavesFiles(s, path, cost);
        SameFilesKeepIndexed(s, Next(s, op), tracked);
      case TakeSnapshot(cost) => SnapshotKeepsIndexed(s, cost, tracked);
      case RestoreSnapshot(id, cost) => RestoreKeepsIndexed(s, id, cost, tracked);
      case Reset => ResetKeepsIndexed(s, tracked);
      case _ => FileOpKeepsIndexed(s, op, tracked);
    }
  }

  /**
   In every sandbox reached by writing tracked paths, none of them the temporary name of
   another or a directory above another, the manifest is an exact index of the files.
   */
  lemma {:induction false} RunKeepsIndexed(s: State, ops: seq<Op>, tracked: set<string>)
    requires Indexed(s, tracked) && NoTmpNames(tracked) && NoAncestors(tracked) && WritesInside(ops, tracked)
    ensures Indexed(Run(s, ops), tracked)
    decreases |ops|
  {
    if ops != [] {
      StepKeepsIndexed(s, ops[0], tracked);
      assert WritesInside(ops[1..], tracked) by {
        assert forall i :: 0 <= i < |ops[1..]| ==> ops[1..][i] == ops[i + 1];
      }
      RunKeepsIndexed(Next(s, ops[0]), ops[1..], tracked);
    }
  }

  // ---------------------------------------------------------------------
  // Exactly which tracked paths are safe
  // ---------------------------------------------------------------------

  const NEW_SANDBOX := State(EMPTY_MEMORY, map[], {}, None, map[], 0, None)

  /** Whatever a new sandbox does while it writes tracked paths, its manifest stays an exact index. */
  ghost predicate AlwaysIndexed(tracked: set<string>) {
    forall ops :: WritesInside(ops, tracked) ==> IsIndex(Run(NEW_SANDBOX, ops))
  }

  /** The first write of a new sandbox succeeds. */
  lemma FirstWrite(q: string)
    requires ParsePath(q) == Some(q)
    ensures Next(NEW_SANDBOX, WriteFile(q, "x", 0.0)) == Store(NEW_SANDBOX, q, "x")
    ensures var t := Store(NEW_SANDBOX, q, "x");
      IsIndex(t) && t.files == map[q := "x"] && t.dirs == Ancestors(q) && t.budget.None?
  {
    assert IsIndex(NEW_SANDBOX);
    StoreIndexesExactly(NEW_SANDBOX, q, "x");
  }

  lemma SecondWrite(s: State, p: string, text: string)
    requires ParsePath(p) == Some(p) && s.budget.None?
    ensures Next(s, WriteFile(p, text, 0.0)) == AfterStoring(s, p, text)
  {
  }

  lemma RunTwo(s: State, a: Op, b: Op)
    ensures Run(s, [a, b]) == Next(Next(s, a), b)
  {
    var next := Next(s, a);
    assert [a, b][1..] == [b] && [b][1..] == [];
    assert Run(next, [b]) == Run(Next(next, b), []);
  }

  /** Writing a path after its temporary name loses the file of that name. */
  lemma TmpNameBreaksIndex(q: string)
    requires ParsePath(q) == Some(q) && ParsePath(TmpOf(q)) == Some(TmpOf(q))
    ensures !IsIndex(Run(NEW_SANDBOX, [WriteFile(TmpOf(q), "x", 0.0), WriteFile(q, "y", 0.0)]))
  {
    var tmp := TmpOf(q);
    var s := Store(NEW_SANDBOX, tmp, "x");
    FirstWrite(tmp);
    SecondWrite(s, q, "y");
    RunTwo(NEW_SANDBOX, WriteFile(tmp, "x", 0.0), WriteFile(q, "y", 0.0));
    TmpIsNoAncestor(q);
    AttemptIndexesExactly(s, q, "y");
  }

  lemma TmpIsNoAncestor(q: string)
    ensures q !in Ancestors(TmpOf(q)) && TmpOf(q) !in Ancestors(TmpOf(q)) && TmpOf(q) !in Ancestors(q)
  {
    assert TmpOf(q)[..|q|] == q && TmpOf(q)[|q|] == '.';
    assert forall d :: d in Ancestors(TmpOf(q)) ==> TmpOf(q)[|d|] == '/' && |d| < |TmpOf(q)|;
    assert forall d :: d in Ancestors(q) ==> |d| < |q| < |TmpOf(q)|;
  }

  /**
   Writing a directory above a file that was written before leaves an unlisted temporary
   file, and so it does after that file is deleted, because its directories stay.
   */
  lemma AncestorBreaksIndex(p: string, q: string)
    requires ParsePath(p) == Some(p) && ParsePath(q) == Some(q) && p in Ancestors(q)
    ensures !IsIndex(Run(NEW_SANDBOX, [WriteFile(q, "x", 0.0), WriteFile(p, "y", 0.0)]))
    ensures !IsIndex(Run(NEW_SANDBOX, [WriteFile(q, "x", 0.0), DeleteFile(q, 0.0), WriteFile(p, "y", 0.0)]))
  {
    var written := Store(NEW_SANDBOX, q, "x");
    FirstWrite(q);
    SecondWrite(written, p, "y");
    RunTwo(NEW_SANDBOX, WriteFile(q, "x", 0.0), WriteFile(p, "y", 0.0));
    AboveIsFree(p, q);
    AttemptIndexesExactly(written, p, "y");
    DeletedDescendant(p, q, written);
  }

  lemma DeletedDescendant(p: string, q: string, written: State)
    requires ParsePath(p) == Some(p) && ParsePath(q) == Some(q) && p in Ancestors(q)
    requires written == Next(NEW_SANDBOX, WriteFile(q, "x", 0.0)) && IsIndex(written)
    requires written.files == map[q := "x"] && written.dirs == Ancestors(q) && written.budget.None?
    ensures !IsIndex(Run(NEW_SANDBOX, [WriteFile(q, "x", 0.0), DeleteFile(q, 0.0), WriteFile(p, "y", 0.0)]))
  {
    AboveIsFree(p, q);
    var ops := [WriteFile(q, "x", 0.0), DeleteFile(q, 0.0), WriteFile(p, "y", 0.0)];
    var dropped := Drop(written, q);
    DeleteDrops(written, q);
    SecondWrite(dropped, p, "y");
    AttemptIndexesExactly(dropped, p, "y");
    assert ops[1..] == [DeleteFile(q, 0.0), WriteFile(p, "y", 0.0)];
    RunTwo(written, DeleteFile(q, 0.0), WriteFile(p, "y", 0.0));
  }

  /** Deleting the only file leaves an empty index and the directories. */
  lemma DeleteDrops(s: State, q: string)
    requires ParsePath(q) == Some(q) && IsIndex(s) && s.budget.None? && s.files.Keys == {q} && q !in s.dirs
    ensures Next(s, DeleteFile(q, 0.0)) == Drop(s, q)
    ensures var t := Drop(s, q); IsIndex(t) && t.files == map[] && t.dirs == s.dirs && t.budget.None?
  {
    hide IsIndex, ParsePath, Next;
    DeleteTakes(s, q);
    DropIndexes(s, q);
  }

  lemma DeleteTakes(s: State, q: string)
    requires ParsePath(q) == Some(q) && s.budget.None? && q in s.files && q !in s.dirs
    ensures Next(s, DeleteFile(q, 0.0)) == Drop(s, q)
  {
    hide ParsePath, Forget, Resources;
  }

  lemma DropIndexes(s: State, q: string)
    requires IsIndex(s) && s.files.Keys == {q}
    ensures IsIndex(Drop(s, q)) && Drop(s, q).files == map[]
  {
    hide Indexes, Forget;
    ForgetIndexes(Resources(s), s.files, q);
    assert s.files - {q} == map[];
  }

  /** A directory above a path is shorter than the path, and so are the directories above it; its temporary name leads elsewhere. */
  lemma AboveIsFree(p: string, q: string)
    requires p in Ancestors(q)
    ensures p != q && q !in Ancestors(p) && TmpOf(p) !in Ancestors(q) && TmpOf(p) != q && q !in Ancestors(q)
  {
    var i :| 0 <= i < |q| && q[i] == '/' && p == q[..i];
    assert TmpOf(p)[|p|] == '.';
    assert forall d :: d in Ancestors(q) ==> |d| < |q| && d == q[..|d|];
    assert forall d :: d in Ancestors(p) ==> |d| < |p|;
    assert forall d :: d in Ancestors(q) && |d| > |p| ==> d[|p|] == q[|p|];
  }

  lemma NewIsIndexed(tracked: set<string>)
    ensures Indexed(NEW_SANDBOX, tracked)
  {
  }

  lemma UnsafeTmpName(tracked: set<string>)
    requires !NoTmpNames(tracked) && forall p :: p in tracked ==> ParsePath(p) == Some(p)
    ensures !AlwaysIndexed(tracked)
  {
    hide IsIndex, Run, ParsePath;
    var p, q :| p in tracked && q in tracked && p == TmpOf(q);
    TmpNameBreaksIndex(q);
    assert WritesInside([WriteFile(TmpOf(q), "x", 0.0), WriteFile(q, "y", 0.0)], tracked);
  }

  lemma UnsafeAncestor(tracked: set<string>)
    requires !NoAncestors(tracked) && forall p :: p in tracked ==> ParsePath(p) == Some(p)
    ensures !AlwaysIndexed(tracked)
  {
    hide IsIndex, Run, ParsePath, Ancestors;
    var p, q :| p in tracked && q in tracked && p in Ancestors(q);
    AncestorBreaksIndex(p, q);
    assert WritesInside([WriteFile(q, "x", 0.0), WriteFile(p, "y", 0.0)], tracked);
  }

  /** Exactly the sets of paths without temporary names and without directories above one another are safe to write. */
  lemma SafePathsExactly(tracked: set<string>)
    requires forall p :: p in tracked ==> ParsePath(p) == Some(p)
    ensures AlwaysIndexed(tracked) <==> NoTmpNames(tracked) && NoAncestors(tracked)
  {
    hide WritesInside, IsIndex, Run, NoTmpNames, NoAncestors, Ancestors, TmpOf, ParsePath;
    if NoTmpNames(tracked) && NoAncestors(tracked) {
      NewIsIndexed(tracked);
      forall ops | WritesInside(ops, tracked)
        ensures IsIndex(Run(NEW_SANDBOX, ops))
      {
        RunKeepsIndexed(NEW_SANDBOX, ops, tracked);
      }
    } else if !NoTmpNames(tracked) {
      UnsafeTmpName(tracked);
    } else {
      UnsafeAncestor(tracked);
    }
  }

  // ---------------------------------------------------------------------
  // Facts
  // ---------------------------------------------------------------------

  /** A memory operation that succeeds counts one revision. */
  lemma MemoryWriteEffect(s: State, op: MemoryOp, cost: real)
    requires Apply(s, MemoryWrite(op, cost)).Success?
    ensures !Malformed(op) && Mutate(op, s.memory).Success?
    ensures var t := Next(s, MemoryWrite(op, cost));
      t == s.(memory := Mutate(op, s.memory).value.(revision := s.memory.revision + 1), budget := t.budget)
  {
  }

  lemma FactEffects(m: Memory, key: string, value: Json, previous: Option<Json>)
    requires FactTree.ParseKey(key).Some?
    ensures var path := FactTree.ParseKey(key).value;
      && Mutate(SetFact(key, value), m) == Success(m.(facts := FactTree.Set(m.facts, path, value)))
      && Mutate(RollbackSetFact(key, previous), m) == Success(m.(facts := FactTree.Undo(m.facts, path, previous)))
  {
  }

  /**
   Rolling back a fact through the sandbox leaves every key reading as before, except the
   proper prefixes of the written key; tasks, artifacts, notes and files stay, and the
   revision counts both transactions.
   */
  lemma FactRollbackIsExact(s: State, key: string, value: Json, cost: real, undoCost: real, other: FactTree.FactPath)
    requires FactTree.ParseKey(key).Some? && Apply(s, MemoryWrite(SetFact(key, value), cost)).Success?
    requires var previous := FactTree.Previous(s.memory.facts, FactTree.ParseKey(key).value);
      Apply(Next(s, MemoryWrite(SetFact(key, value), cost)), MemoryWrite(RollbackSetFact(key, previous), undoCost)).Success?
    requires !FactTree.ProperPrefix(other, FactTree.ParseKey(key).value)
    ensures var previous := FactTree.Previous(s.memory.facts, FactTree.ParseKey(key).value);
      var t := Next(Next(s, MemoryWrite(SetFact(key, value), cost)), MemoryWrite(RollbackSetFact(key, previous), undoCost));
      && FactTree.Get(t.memory.facts, other) == FactTree.Get(s.memory.facts, other)
      && t == s.(memory := s.memory.(facts := t.memory.facts, revision := s.memory.revision + 2), budget := t.budget)
  {
    var path := FactTree.ParseKey(key).value;
    var previous := FactTree.Previous(s.memory.facts, path);
    var between := Next(s, MemoryWrite(SetFact(key, value), cost));
    MemoryWriteEffect(s, SetFact(key, value), cost);
    MemoryWriteEffect(between, RollbackSetFact(key, previous), undoCost);
    FactEffects(s.memory, key, value, previous);
    FactEffects(between.memory, key, value, previous);
    FactTree.UndoRestoresReads(s.memory.facts, path, value, other);
  }
}
