/**
 The sandbox as an object that changes in place.

 Models the class `StateSandbox` of runtime_core/sandbox.py with its JSON memory file in
 use. Every method is proved to have the effect that SandboxModel gives its operation.
 */
module StateSandboxes {
  import opened Results
  import opened SandboxModel

  /** The first entry of a path, or the number of entries. */
  method FirstEntry(entries: seq<Entry>, path: string) returns (at: nat)
    ensures at <= |entries| && (at < |entries| <==> Lists(entries, path))
    ensures at < |entries| ==> entries[at].version == FirstVersion(entries, path)
  {
    at := 0;
    while at < |entries| && entries[at].path != path
      invariant at <= |entries|
      invariant forall i :: 0 <= i < at ==> entries[i].path != path
      invariant FirstVersion(entries, path) == FirstVersion(entries[at..], path)
    {
      assert entries[at..][0] == entries[at] && entries[at..][1..] == entries[at + 1..];
      at := at + 1;
    }
    if at < |entries| {
      assert entries[at..][0] == entries[at];
    }
  }

  /** The entries with those of a path replaced. */
  method WithEntry(entries: seq<Entry>, path: string, updated: Entry) returns (result: seq<Entry>)
    ensures |result| == |entries|
    ensures forall k :: 0 <= k < |entries| ==> result[k] == if entries[k].path == path then updated else entries[k]
  {
    result := [];
    for i := 0 to |entries|
      invariant |result| == i
      invariant forall k :: 0 <= k < i ==> result[k] == if entries[k].path == path then updated else entries[k]
    {
      result := result + [if entries[i].path == path then updated else entries[i]];
    }
  }

  class StateSandbox {
    var memory: Memory
    var files: Files
    var dirs: set<string>
    var manifest: Option<seq<Entry>>
    var snapshots: map<nat, Snapshot>
    var nextSnapshot: nat
    var budget: Option<Budget>

    /** The abstract state of this sandbox. */
    function View(): State
      reads this
    {
      State(memory, files, dirs, manifest, snapshots, nextSnapshot, budget)
    }

    constructor (budget: Option<Budget>)
      ensures View() == State(EMPTY_MEMORY, map[], {}, None, map[], 0, budget)
    {
      memory, files, dirs, manifest, snapshots, nextSnapshot := EMPTY_MEMORY, map[], {}, None, map[], 0;
      this.budget := budget;
    }

    method DeductFileWrites(cost: real)
      modifies this`budget
      ensures View() == PayFileWrites(old(View()), cost)
    {
      if budget.Some? {
        budget := Some(budget.value.(fileWrites := Deduct(budget.value.fileWrites, cost)));
      }
    }

    /** The checks of an operation and `_transaction`: check, change a copy, bump the revision, write, pay. */
    method Transaction(op: MemoryOp, cost: real) returns (error: Option<Error>)
      modifies this`memory, this`budget
      ensures View() == Next(old(View()), MemoryWrite(op, cost))
      ensures error.None? <==> Transact(old(View()), op, cost).Success?
      ensures error.Some? ==> error.value == Transact(old(View()), op, cost).error
    {
      if Malformed(op) || cost < 0.0 {
        return Some(InvalidArgument);
      }
      if budget.Some? && !Covers(budget.value.memoryWrites, cost) {
        return Some(BudgetExhausted);
      }
      var working := Mutate(op, memory);
      if working.Failure? {
        return Some(working.error);
      }
      memory := working.value.(revision := memory.revision + 1);
      if budget.Some? {
        budget := Some(budget.value.(memoryWrites := Deduct(budget.value.memoryWrites, cost)));
      }
      return None;
    }

    /** `_update_manifest_entry` for a written file. */
    method RecordInManifest(path: string)
      requires path in files
      modifies this`manifest
      ensures manifest == Some(Record(Resources(old(View())), path, files[path]))
    {
      var entries := if manifest.None? then [] else manifest.value;
      var text := files[path];
      var at := FirstEntry(entries, path);
      if at == |entries| {
        manifest := Some(entries + [Entry(path, 1, Sha256(text), Utf8Size(text))]);
        return;
      }
      var updated := Entry(path, entries[at].version + 1, Sha256(text), Utf8Size(text));
      var result := WithEntry(entries, path, updated);
      assert result == Record(entries, path, text);
      manifest := Some(result);
    }

    /** `_update_manifest_entry` for a deleted file. */
    method ForgetInManifest(path: string)
      modifies this`manifest
      ensures manifest == Some(Forget(Resources(old(View())), path))
    {
      var entries, kept := if manifest.None? then [] else manifest.value, [];
      for i := |entries| downto 0
        invariant kept == Forget(entries[i..], path)
      {
        assert entries[i..][0] == entries[i] && entries[i..][1..] == entries[i + 1..];
        if entries[i].path != path {
          kept := [entries[i]] + kept;
        }
      }
      manifest := Some(kept);
    }

    /** The staged write shared by the three operations that store a file; the file system may refuse any step of it. */
    method StoreFile(path: string, text: string) returns (stored: bool)
      modifies this`files, this`dirs, this`manifest
      ensures stored == CanStore(old(View()), path)
      ensures View() == AfterStoring(old(View()), path, text)
    {
      if Ancestors(path) * files.Keys != {} {
        return false;
      }
      dirs := dirs + Ancestors(path);
      var tmp := TmpOf(path);
      NotAbove(path);
      if tmp in dirs {
        return false;
      }
      files := files[tmp := text];
      if path in dirs {
        return false;
      }
      files := (files - {tmp})[path := files[tmp]];
      RecordInManifest(path);
      return true;
    }

    method DropFile(path: string)
      modifies this`files, this`manifest
      ensures View() == Drop(old(View()), path)
    {
      files := files - {path};
      ForgetInManifest(path);
    }

    method Admit(path: string, cost: real) returns (checked: Result<string, Error>)
      ensures checked == CheckFileWrite(View(), path, cost)
    {
      var parsed := ParsePath(path);
      if parsed.None? || cost < 0.0 {
        return Failure(InvalidArgument);
      }
      if budget.Some? && !Covers(budget.value.fileWrites, cost) {
        return Failure(BudgetExhausted);
      }
      return Success(parsed.value);
    }

    method WriteText(path: string, text: string, cost: real) returns (error: Option<Error>)
      modifies this`files, this`dirs, this`manifest, this`budget
      ensures View() == Next(old(View()), WriteFile(path, text, cost))
      ensures error.None? <==> Apply(old(View()), WriteFile(path, text, cost)).Success?
    {
      var checked := Admit(path, cost);
      if checked.Failure? {
        return Some(checked.error);
      }
      var stored := StoreFile(checked.value, text);
      if !stored {
        return Some(OsError);
      }
      DeductFileWrites(cost);
      return None;
    }

    method RollbackWrite(path: string, previous: Option<string>, existed: bool, cost: real) returns (error: Option<Error>)
      modifies this`files, this`dirs, this`manifest, this`budget
      ensures View() == Next(old(View()), RollbackWriteFile(path, previous, existed, cost))
      ensures error.None? <==> Apply(old(View()), RollbackWriteFile(path, previous, existed, cost)).Success?
    {
      var checked := Admit(path, cost);
      if checked.Failure? {
        return Some(checked.error);
      }
      if existed && previous.Some? {
        var stored := StoreFile(checked.value, previous.value);
        if !stored {
          return Some(OsError);
        }
      } else {
        if checked.value in dirs {
          return Some(OsError);
        }
        DropFile(checked.value);
      }
      DeductFileWrites(cost);
      return None;
    }

    /** Deleting a missing file succeeds and pays nothing. */
    method Delete(path: string, cost: real) returns (error: Option<Error>)
      modifies this`files, this`dirs, this`manifest, this`budget
      ensures View() == Next(old(View()), DeleteFile(path, cost))
      ensures error.None? <==> Apply(old(View()), DeleteFile(path, cost)).Success?
    {
      var checked := Admit(path, cost);
      if checked.Failure? {
        return Some(checked.error);
      }
      if checked.value in dirs {
        return Some(InvalidArgument);
      }
      if checked.value !in files {
        return None;
      }
      DropFile(checked.value);
      DeductFileWrites(cost);
      return None;
    }

    method RollbackDelete(path: string, previous: string, cost: real) returns (error: Option<Error>)
      modifies this`files, this`dirs, this`manifest, this`budget
      ensures View() == Next(old(View()), RollbackDeleteFile(path, previous, cost))
      ensures error.None? <==> Apply(old(View()), RollbackDeleteFile(path, previous, cost)).Success?
    {
      var checked := Admit(path, cost);
      if checked.Failure? {
        return Some(checked.error);
      }
      var stored := StoreFile(checked.value, previous);
      if !stored {
        return Some(OsError);
      }
      DeductFileWrites(cost);
      return None;
    }

    method ReadText(path: string, cost: real) returns (r: Result<string, Error>)
      modifies this`budget
      ensures View() == Next(old(View()), ReadFile(path, cost))
      ensures r.Success? <==> Apply(old(View()), ReadFile(path, cost)).Success?
      ensures r.Success? ==> files[ParsePath(path).value] == r.value
    {
      var parsed := ParsePath(path);
      if parsed.None? || cost < 0.0 {
        return Failure(InvalidArgument);
      }
      if budget.Some? && !Covers(budget.value.fileReads, cost) {
        return Failure(BudgetExhausted);
      }
      if parsed.value in dirs {
        return Failure(InvalidArgument);
      }
      if parsed.value !in files {
        return Failure(NotFound);
      }
      if budget.Some? {
        budget := Some(budget.value.(fileReads := Deduct(budget.value.fileReads, cost)));
      }
      return Success(files[parsed.value]);
    }

    /** `snapshot_state`. */
    method SnapshotState(cost: real) returns (id: Result<nat, Error>)
      modifies this`snapshots, this`nextSnapshot, this`budget
      ensures View() == Next(old(View()), TakeSnapshot(cost))
      ensures id.Success? <==> Apply(old(View()), TakeSnapshot(cost)).Success?
      ensures id.Success? ==> id.value == old(nextSnapshot)
    {
      if cost < 0.0 {
        return Failure(InvalidArgument);
      }
      if budget.Some? && !Covers(budget.value.fileWrites, cost) {
        return Failure(BudgetExhausted);
      }
      id := Success(nextSnapshot);
      snapshots := snapshots[nextSnapshot := Snapshot(memory, files, dirs, if manifest.None? then [] else manifest.value)];
      nextSnapshot := nextSnapshot + 1;
      DeductFileWrites(cost);
    }

    /** `restore_snapshot`. */
    method Restore(id: nat, cost: real) returns (error: Option<Error>)
      modifies this`memory, this`files, this`dirs, this`manifest, this`budget
      ensures View() == Next(old(View()), RestoreSnapshot(id, cost))
      ensures error.None? <==> Apply(old(View()), RestoreSnapshot(id, cost)).Success?
    {
      if cost < 0.0 {
        return Some(InvalidArgument);
      }
      if budget.Some? && !Covers(budget.value.fileWrites, cost) {
        return Some(BudgetExhausted);
      }
      if id !in snapshots {
        return Some(NotFound);
      }
      memory := snapshots[id].memory;
      files := snapshots[id].files;
      dirs := snapshots[id].dirs;
      manifest := Some(snapshots[id].manifest);
      DeductFileWrites(cost);
      return None;
    }

    /** `reset`: snapshots and budget stay. */
    method ResetAll()
      modifies this`memory, this`files, this`dirs, this`manifest
      ensures View() == Next(old(View()), Reset)
    {
      memory := EMPTY_MEMORY;
      files := map[];
      dirs := {};
      manifest := None;
    }

    /** One operation of a tool. */
    method Perform(op: Op) returns (ok: bool)
      modifies this
      ensures View() == Next(old(View()), op)
      ensures ok <==> Apply(old(View()), op).Success?
    {
      var error;
      match op
      case MemoryWrite(m, cost) => error := Transaction(m, cost); ok := error.None?;
      case ReadFile(path, cost) => var r := ReadText(path, cost); ok := r.Success?;
      case WriteFile(path, text, cost) => error := WriteText(path, text, cost); ok := error.None?;
      case RollbackWriteFile(path, previous, existed, cost) =>
        error := RollbackWrite(path, previous, existed, cost); ok := error.None?;
      case DeleteFile(path, cost) => error := Delete(path, cost); ok := error.None?;
      case RollbackDeleteFile(path, previous, cost) => error := RollbackDelete(path, previous, cost); ok := error.None?;
      case TakeSnapshot(cost) => var id := SnapshotState(cost); ok := id.Success?;
      case RestoreSnapshot(id, cost) => error := Restore(id, cost); ok := error.None?;
      case Reset => ResetAll(); ok := true;
    }
  }

  /** Neither a path nor its temporary sibling is a directory above the path. */
  lemma NotAbove(path: string)
    ensures path !in Ancestors(path) && TmpOf(path) !in Ancestors(path) && TmpOf(path) != path
  {
    assert |TmpOf(path)| == |path| + 4;
    assert forall d :: d in Ancestors(path) ==> |d| < |path|;
  }
}
