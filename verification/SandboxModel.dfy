/**
 The state of a sandbox and the effect of its operations.

 Models the operations of `StateSandbox` and `ResourceBudget` in runtime_core/sandbox.py
 as functions of the sandbox state. The class in StateSandbox.dfy performs them in place.
 */
module SandboxModel {
  import opened Results
  import opened Strings
  import opened JsonValues
  import FactTree

  /** The exceptions of the operations; `OsError` is what the file system raises. */
  datatype Error = InvalidArgument | BudgetExhausted | NotFound | OsError

  // ---------------------------------------------------------------------
  // Budgets
  // ---------------------------------------------------------------------

  datatype Amount = Unlimited | Limited(left: real)

  datatype Budget = Budget(memoryWrites: Amount, fileReads: Amount, fileWrites: Amount)

  predicate Covers(a: Amount, cost: real) {
    a.Unlimited? || cost <= a.left
  }

  /** `deduct`: an amount never falls below zero. */
  function Deduct(a: Amount, cost: real): Amount {
    if a.Unlimited? then a else Limited(if a.left < cost then 0.0 else a.left - cost)
  }

  // ---------------------------------------------------------------------
  // State
  // ---------------------------------------------------------------------

  datatype Task = Task(id: string, description: string, status: string)

  datatype Artifact = Artifact(id: string, name: string, path: string, metadata: Json)

  /** The memory document. `notes` is absent until a note operation creates it. */
  datatype Memory = Memory(
    notes: Option<seq<string>>, facts: FactTree.Facts, tasks: seq<Task>, artifacts: seq<Artifact>, revision: nat)

  const EMPTY_MEMORY := Memory(None, map[], [], [], 0)

  /** SHA-256 as an injective function. */
  datatype Digest = Sha256(of: string)

  datatype Entry = Entry(path: string, version: nat, hash: Digest, size: nat)

  type Files = map<string, string>

  datatype Snapshot = Snapshot(memory: Memory, files: Files, dirs: set<string>, manifest: seq<Entry>)

  /**
   A sandbox: the files of its tree and the directories in it, by their relative paths. The
   manifest file may be missing, snapshot ids are numbers in order of creation.
   */
  datatype State = State(
    memory: Memory,
    files: Files,
    dirs: set<string>,
    manifest: Option<seq<Entry>>,
    snapshots: map<nat, Snapshot>,
    nextSnapshot: nat,
    budget: Option<Budget>)

  /** `_load_manifest`: a missing manifest lists nothing. */
  function Resources(s: State): seq<Entry> {
    if s.manifest.None? then [] else s.manifest.value
  }

  function PayFileWrites(s: State, cost: real): State {
    if s.budget.None? then s
    else s.(budget := Some(s.budget.value.(fileWrites := Deduct(s.budget.value.fileWrites, cost))))
  }

  predicate AffordsFileWrites(s: State, cost: real) {
    s.budget.None? || Covers(s.budget.value.fileWrites, cost)
  }

  // ---------------------------------------------------------------------
  // Memory operations
  // ---------------------------------------------------------------------

  datatype MemoryOp =
    | SetFact(key: string, value: Json)
    | RollbackSetFact(key: string, previous: Option<Json>)
    | AppendTask(description: string, status: string)
    | UpdateTask(id: string, newDescription: Option<string>, newStatus: Option<string>)
    | RollbackUpdateTask(id: string, previousTask: Task)
    | RemoveTask(id: string)
    | StoreArtifact(name: string, path: string, metadata: Json)
    | RemoveArtifact(id: string)
    | AppendNote(note: string)
    | RemoveNote(note: string)
    | CompressMemory(maxNotes: int)
    | PruneMemory(pruneDone: bool)

  predicate Blank(s: string) {
    Strip(s) == ""
  }

  /** SANDBOX_ID_RE. */
  predicate IsResourceId(s: string) {
    && 1 <= |s| <= 64
    && (forall i :: 0 <= i < |s| ==>
          ('A' <= s[i] <= 'Z') || ('a' <= s[i] <= 'z') || ('0' <= s[i] <= '9')
          || (i > 0 && (s[i] == '_' || s[i] == '.' || s[i] == '-')))
  }

  /** `_parse_relative_resource_path`. */
  function ParsePath(path: string): Option<string> {
    var normalized := Slashes(Strip(path));
    var parts := SplitOn(normalized, '/');
    if forall i :: 0 <= i < |parts| ==> parts[i] != "" && parts[i] != "." && parts[i] != ".." then Some(normalized)
    else None
  }

  function Slashes(s: string): string {
    seq(|s|, i requires 0 <= i < |s| => if s[i] == '\\' then '/' else s[i])
  }

  function FindTask(tasks: seq<Task>, id: string): (at: Option<nat>)
    ensures at.Some? ==> at.value < |tasks| && tasks[at.value].id == id
  {
    if tasks == [] then None
    else if tasks[0].id == id then Some(0)
    else
      var rest := FindTask(tasks[1..], id);
      if rest.None? then None else Some(rest.value + 1)
  }

  function RemoveLastTask(tasks: seq<Task>, id: string): seq<Task> {
    if tasks == [] then []
    else if tasks[|tasks| - 1].id == id then tasks[..|tasks| - 1]
    else RemoveLastTask(tasks[..|tasks| - 1], id) + [tasks[|tasks| - 1]]
  }

  function RemoveLastArtifact(artifacts: seq<Artifact>, id: string): seq<Artifact> {
    if artifacts == [] then []
    else if artifacts[|artifacts| - 1].id == id then artifacts[..|artifacts| - 1]
    else RemoveLastArtifact(artifacts[..|artifacts| - 1], id) + [artifacts[|artifacts| - 1]]
  }

  function RemoveLastNote(notes: seq<string>, note: string): seq<string> {
    if notes == [] then []
    else if notes[|notes| - 1] == note then notes[..|notes| - 1]
    else RemoveLastNote(notes[..|notes| - 1], note) + [notes[|notes| - 1]]
  }

  function OpenTasks(tasks: seq<Task>): seq<Task> {
    if tasks == [] then []
    else (if tasks[0].status in {"done", "closed", "completed"} then [] else [tasks[0]]) + OpenTasks(tasks[1..])
  }

  function Notes(m: Memory): seq<string> {
    if m.notes.None? then [] else m.notes.value
  }

  function ChangeTask(task: Task, description: Option<string>, status: Option<string>): Option<Task> {
    if (description.Some? && Blank(description.value)) || (status.Some? && Blank(status.value)) then None
    else Some(Task(task.id,
                   if description.Some? then description.value else task.description,
                   if status.Some? then status.value else task.status))
  }

  /** The arguments that an operation refuses before its transaction begins. */
  predicate Malformed(op: MemoryOp) {
    match op
    case SetFact(key, _) => FactTree.ParseKey(key).None?
    case RollbackSetFact(key, _) => FactTree.ParseKey(key).None?
    case AppendTask(description, status) => Blank(description) || Blank(status)
    case UpdateTask(id, description, status) => !IsResourceId(Strip(id)) || (description.None? && status.None?)
    case RollbackUpdateTask(id, _) => !IsResourceId(Strip(id))
    case RemoveTask(id) => !IsResourceId(Strip(id))
    case StoreArtifact(name, path, _) => Blank(name) || ParsePath(path).None?
    case RemoveArtifact(id) => !IsResourceId(Strip(id))
    case AppendNote(note) => Blank(note)
    case RemoveNote(_) => false
    case CompressMemory(maxNotes) => maxNotes < 0
    case PruneMemory(_) => false
  }

  /** The `mutate` closure of an operation; the revision is left to the transaction. */
  function Mutate(op: MemoryOp, m: Memory): Result<Memory, Error>
    requires !Malformed(op)
  {
    match op
    case SetFact(key, value) => Success(m.(facts := FactTree.Set(m.facts, FactTree.ParseKey(key).value, value)))
    case RollbackSetFact(key, previous) =>
      Success(m.(facts := FactTree.Undo(m.facts, FactTree.ParseKey(key).value, previous)))
    case AppendTask(description, status) =>
      Success(m.(tasks := m.tasks + [Task("task-" + Decimal(m.revision + 1), description, status)]))
    case UpdateTask(id, description, status) =>
      var at := FindTask(m.tasks, Strip(id));
      if at.None? then Failure(NotFound)
      else
        var changed := ChangeTask(m.tasks[at.value], description, status);
        if changed.None? then Failure(InvalidArgument) else Success(m.(tasks := m.tasks[at.value := changed.value]))
    case RollbackUpdateTask(id, previous) =>
      var at := FindTask(m.tasks, Strip(id));
      if at.None? then Failure(NotFound) else Success(m.(tasks := m.tasks[at.value := previous]))
    case RemoveTask(id) => Success(m.(tasks := RemoveLastTask(m.tasks, Strip(id))))
    case StoreArtifact(name, path, metadata) =>
      Success(m.(artifacts := m.artifacts
                 + [Artifact("artifact-" + Decimal(m.revision + 1), name, ParsePath(path).value, metadata)]))
    case RemoveArtifact(id) => Success(m.(artifacts := RemoveLastArtifact(m.artifacts, Strip(id))))
    case AppendNote(note) => Success(m.(notes := Some(Notes(m) + [note])))
    case RemoveNote(note) => Success(m.(notes := Some(RemoveLastNote(Notes(m), note))))
    case CompressMemory(maxNotes) =>
      var notes := Notes(m);
      Success(m.(notes := Some(if |notes| > maxNotes then notes[|notes| - maxNotes..] else notes)))
    case PruneMemory(pruneDone) => Success(if pruneDone then m.(tasks := OpenTasks(m.tasks)) else m)
  }

  /** The checks of an operation, then `_transaction`. */
  function Transact(s: State, op: MemoryOp, cost: real): Result<State, Error> {
    if Malformed(op) || cost < 0.0 then Failure(InvalidArgument)
    else if s.budget.Some? && !Covers(s.budget.value.memoryWrites, cost) then Failure(BudgetExhausted)
    else
      match Mutate(op, s.memory)
      case Failure(e) => Failure(e)
      case Success(m) =>
        var written := s.(memory := m.(revision := s.memory.revision + 1));
        Success(if s.budget.None? then written
                else written.(budget := Some(s.budget.value.(memoryWrites := Deduct(s.budget.value.memoryWrites, cost)))))
  }

  // ---------------------------------------------------------------------
  // File operations
  // ---------------------------------------------------------------------

  /** The number of bytes of a text in UTF-8. */
  function Utf8Size(text: string): nat {
    if text == "" then 0
    else
      var c := text[0] as int;
      (if c < 0x80 then 1 else if c < 0x800 then 2 else if c < 0x1_0000 then 3 else 4) + Utf8Size(text[1..])
  }

  function TmpOf(path: string): string {
    path + ".tmp"
  }

  predicate Lists(entries: seq<Entry>, path: string) {
    exists i :: 0 <= i < |entries| && entries[i].path == path
  }

  function FirstVersion(entries: seq<Entry>, path: string): nat {
    if entries == [] then 0 else if entries[0].path == path then entries[0].version else FirstVersion(entries[1..], path)
  }

  /** `_update_manifest_entry` after a write. */
  function Record(entries: seq<Entry>, path: string, text: string): seq<Entry> {
    if Lists(entries, path) then
      var updated := Entry(path, FirstVersion(entries, path) + 1, Sha256(text), Utf8Size(text));
      seq(|entries|, i requires 0 <= i < |entries| => if entries[i].path == path then updated else entries[i])
    else entries + [Entry(path, 1, Sha256(text), Utf8Size(text))]
  }

  /** `_update_manifest_entry` after a delete. */
  function Forget(entries: seq<Entry>, path: string): seq<Entry> {
    if entries == [] then []
    else (if entries[0].path == path then [] else [entries[0]]) + Forget(entries[1..], path)
  }

  /** The directories above a path. */
  function Ancestors(path: string): set<string> {
    set i | 0 <= i < |path| && path[i] == '/' :: path[..i]
  }

  /** No file is in the way of the directories above the path, and neither the path nor its `.tmp` sibling is a directory. */
  predicate CanStore(s: State, path: string) {
    Ancestors(path) * s.files.Keys == {} && TmpOf(path) !in s.dirs && path !in s.dirs
  }

  /** The directories are made, the text goes to the `.tmp` sibling, which then takes the place of the file. */
  function Store(s: State, path: string, text: string): State {
    s.(files := (s.files - {TmpOf(path)})[path := text], dirs := s.dirs + Ancestors(path),
       manifest := Some(Record(Resources(s), path, text)))
  }

  /**
   What a store leaves when the file system refuses it: nothing new while the directories
   cannot be made, and the `.tmp` sibling when a directory is in its way.
   */
  function Leftover(s: State, path: string, text: string): State {
    if Ancestors(path) * s.files.Keys != {} then s
    else
      var made := s.(dirs := s.dirs + Ancestors(path));
      if TmpOf(path) in s.dirs then made else made.(files := s.files[TmpOf(path) := text])
  }

  /** The tree and the manifest after an attempt to store. */
  function AfterStoring(s: State, path: string, text: string): State {
    if CanStore(s, path) then Store(s, path, text) else Leftover(s, path, text)
  }

  function Drop(s: State, path: string): State {
    s.(files := s.files - {path}, manifest := Some(Forget(Resources(s), path)))
  }

  datatype Op =
    | MemoryWrite(op: MemoryOp, cost: real)
    | ReadFile(path: string, cost: real)
    | WriteFile(path: string, text: string, cost: real)
    | RollbackWriteFile(path: string, previous: Option<string>, existed: bool, cost: real)
    | DeleteFile(path: string, cost: real)
    | RollbackDeleteFile(path: string, previousText: string, cost: real)
    | TakeSnapshot(cost: real)
    | RestoreSnapshot(id: nat, cost: real)
    | Reset

  /** The checks at the start of every file write operation. */
  function CheckFileWrite(s: State, path: string, cost: real): Result<string, Error> {
    var parsed := ParsePath(path);
    if parsed.None? || cost < 0.0 then Failure(InvalidArgument)
    else if !AffordsFileWrites(s, cost) then Failure(BudgetExhausted)
    else Success(parsed.value)
  }

  /** An operation that stores a text. */
  function StoreChecked(s: State, path: string, text: string, cost: real): Result<State, Error> {
    match CheckFileWrite(s, path, cost)
    case Failure(e) => Failure(e)
    case Success(p) => if CanStore(s, p) then Success(PayFileWrites(Store(s, p, text), cost)) else Failure(OsError)
  }

  function Snapped(s: State): Snapshot {
    Snapshot(s.memory, s.files, s.dirs, Resources(s))
  }

  function Apply(s: State, op: Op): Result<State, Error> {
    match op
    case MemoryWrite(m, cost) => Transact(s, m, cost)
    case ReadFile(path, cost) =>
      var parsed := ParsePath(path);
      if parsed.None? || cost < 0.0 then Failure(InvalidArgument)
      else if s.budget.Some? && !Covers(s.budget.value.fileReads, cost) then Failure(BudgetExhausted)
      else if parsed.value in s.dirs then Failure(InvalidArgument)
      else if parsed.value !in s.files then Failure(NotFound)
      else if s.budget.None? then Success(s)
      else Success(s.(budget := Some(s.budget.value.(fileReads := Deduct(s.budget.value.fileReads, cost)))))
    case WriteFile(path, text, cost) => StoreChecked(s, path, text, cost)
    case RollbackWriteFile(path, previous, existed, cost) =>
      if existed && previous.Some? then StoreChecked(s, path, previous.value, cost)
      else
        (match CheckFileWrite(s, path, cost)
         case Failure(e) => Failure(e)
         case Success(p) => if p in s.dirs then Failure(OsError) else Success(PayFileWrites(Drop(s, p), cost)))
    case DeleteFile(path, cost) =>
      (match CheckFileWrite(s, path, cost)
       case Failure(e) => Failure(e)
       case Success(p) =>
         if p in s.dirs then Failure(InvalidArgument)
         else Success(if p in s.files then PayFileWrites(Drop(s, p), cost) else s))
    case RollbackDeleteFile(path, previous, cost) => StoreChecked(s, path, previous, cost)
    case TakeSnapshot(cost) =>
      if cost < 0.0 then Failure(InvalidArgument)
      else if !AffordsFileWrites(s, cost) then Failure(BudgetExhausted)
      else
        Success(PayFileWrites(
          s.(snapshots := s.snapshots[s.nextSnapshot := Snapped(s)], nextSnapshot := s.nextSnapshot + 1), cost))
    case RestoreSnapshot(id, cost) =>
      if cost < 0.0 then Failure(InvalidArgument)
      else if !AffordsFileWrites(s, cost) then Failure(BudgetExhausted)
      else if id !in s.snapshots then Failure(NotFound)
      else
        var snap := s.snapshots[id];
        Success(PayFileWrites(
          s.(memory := snap.memory, files := snap.files, dirs := snap.dirs, manifest := Some(snap.manifest)), cost))
    case Reset => Success(s.(memory := EMPTY_MEMORY, files := map[], dirs := {}, manifest := None))
  }

  /** The text an operation stores, if it stores one. */
  function StoredText(op: Op): Option<string> {
    match op
    case WriteFile(_, text, _) => Some(text)
    case RollbackWriteFile(_, previous, existed, _) => if existed then previous else None
    case RollbackDeleteFile(_, previous, _) => Some(previous)
    case _ => None
  }

  /** A failed operation changes nothing, but for the leftovers of a store that the file system refuses. */
  function Next(s: State, op: Op): State {
    match Apply(s, op)
    case Success(t) => t
    case Failure(_) =>
      if StoredText(op).Some? && CheckFileWrite(s, op.path, op.cost).Success? then
        Leftover(s, CheckFileWrite(s, op.path, op.cost).value, StoredText(op).value)
      else s
  }

  function Run(s: State, ops: seq<Op>): State
    decreases |ops|
  {
    if ops == [] then s else Run(Next(s, ops[0]), ops[1..])
  }
}
