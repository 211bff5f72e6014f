/**
 Session memory: a bounded window of epochs beside a complete ledger.

 Models `StmStore`, `SessionLedger` and the ledger events of `MemoryStore` in
 runtime_core/memory.py as functions of their state. The classes in MemoryStore.dfy
 perform them in place. An epoch id is the number it is printed from.
 */
module SessionMemory {
  import opened Results

  datatype Frame = Frame(role: string, content: string, ts: real)

  datatype Epoch = Epoch(number: nat, openedAt: real, messages: seq<Frame>, closed: Option<(real, string)>)

  datatype Kind = MessageAppended | EpochCreated | EpochClosed | StmEpochEvicted | EpochEvicted | OtherEvent(name: string)

  /** A ledger entry; `epoch` is its `epoch_seq`, `about` the epoch id in its metadata. */
  datatype Entry = Entry(number: nat, kind: Kind, epoch: Option<nat>, frame: Option<Frame>, about: Option<nat>)

  /** The short-term window and the ledger of one memory store. */
  datatype Store = Store(
    maxEpochs: nat,
    closeRoles: set<string>,
    epochs: seq<Epoch>,
    open: Option<Epoch>,
    nextEpoch: nat,
    entries: seq<Entry>,
    nextEntry: nat)

  /** A fresh store; its default window holds six closed epochs, and assistant messages close. */
  function Empty(maxEpochs: nat, closeRoles: set<string>): Store {
    Store(maxEpochs, closeRoles, [], None, 1, [], 1)
  }

  // ---------------------------------------------------------------------
  // Operations
  // ---------------------------------------------------------------------

  /** How many of `n` closed epochs a window of `max` drops. */
  function Excess(n: nat, max: nat): nat {
    if n > max then n - max else 0
  }

  function Numbers(epochs: seq<Epoch>): seq<nat> {
    seq(|epochs|, i requires 0 <= i < |epochs| => epochs[i].number)
  }

  function Logged(s: Store, kind: Kind, epoch: Option<nat>, frame: Option<Frame>, about: Option<nat>): Store {
    s.(entries := s.entries + [Entry(s.nextEntry, kind, epoch, frame, about)], nextEntry := s.nextEntry + 1)
  }

  /** Two events for each evicted epoch. */
  function LoggedEvictions(s: Store, evicted: seq<nat>): Store
    decreases |evicted|
  {
    if evicted == [] then s
    else
      var id := Some(evicted[0]);
      LoggedEvictions(Logged(Logged(s, StmEpochEvicted, None, None, id), EpochEvicted, None, None, id), evicted[1..])
  }

  /** The epoch that receives the next message. */
  function CurrentEpoch(s: Store, ts: real): Epoch {
    if s.open.Some? then s.open.value else Epoch(s.nextEpoch, ts, [], None)
  }

  /** The window after a message: `_begin_epoch`, then the message. */
  function Received(s: Store, frame: Frame): Store {
    var epoch := CurrentEpoch(s, frame.ts);
    s.(open := Some(epoch.(messages := epoch.messages + [frame])),
       nextEpoch := if s.open.Some? then s.nextEpoch else s.nextEpoch + 1)
  }

  /** The window after its open epoch is closed and the oldest epochs make room. */
  function Closed(s: Store, at: real, reason: string): Store
    requires s.open.Some?
  {
    var epochs := s.epochs + [s.open.value.(closed := Some((at, reason)))];
    s.(epochs := epochs[Excess(|epochs|, s.maxEpochs)..], open := None)
  }

  function Evicted(s: Store): seq<nat>
    requires s.open.Some?
  {
    var epochs := s.epochs + [s.open.value];
    Numbers(epochs[..Excess(|epochs|, s.maxEpochs)])
  }

  /** `MemoryStore.append`. */
  function Append(s: Store, frame: Frame): Store {
    var received := Received(s, frame);
    var number := received.open.value.number;
    var message := Logged(received, MessageAppended, Some(number), Some(frame), Some(number));
    var created := if s.open.Some? then message else Logged(message, EpochCreated, Some(number), None, Some(number));
    if frame.role !in s.closeRoles then created
    else
      LoggedEvictions(Logged(Closed(created, frame.ts, "assistant_turn_complete"), EpochClosed, Some(number), None, Some(number)),
                      Evicted(created))
  }

  /** `MemoryStore.close_epoch`; an open epoch without messages is dropped without a trace. */
  function CloseEpoch(s: Store, reason: string): Store {
    if s.open.None? then s
    else if s.open.value.messages == [] then s.(open := None)
    else
      var epoch := s.open.value;
      LoggedEvictions(Logged(Closed(s, epoch.messages[|epoch.messages| - 1].ts, reason), EpochClosed, Some(epoch.number), None, Some(epoch.number)),
                      Evicted(s))
  }

  /** Any other event of the session: nominations, admissions, the session's closing events. */
  function Note(s: Store, name: string): Store {
    Logged(s, OtherEvent(name), None, None, None)
  }

  /** The ledger events of `MemoryStore.close_session`. */
  function CloseSession(s: Store): Store {
    var closed := Note(CloseEpoch(s, "session_closed"), "session_closed");
    var written := Note(Note(closed, "compression_started"), "ltm_artifact_written");
    Note(Note(written, "compression_completed"), "ltm_promoted")
  }

  datatype Op = AppendMessage(frame: Frame) | CloseOpenEpoch(reason: string) | NoteEvent(name: string) | EndSession

  function Perform(s: Store, op: Op): Store {
    match op
    case AppendMessage(frame) => Append(s, frame)
    case CloseOpenEpoch(reason) => CloseEpoch(s, reason)
    case NoteEvent(name) => Note(s, name)
    case EndSession => CloseSession(s)
  }

  function Run(s: Store, ops: seq<Op>): Store
    decreases |ops|
  {
    if ops == [] then s else Run(Perform(s, ops[0]), ops[1..])
  }

  // ---------------------------------------------------------------------
  // What the window shows
  // ---------------------------------------------------------------------

  /** `recent_epochs` without a limit. */
  function LiveEpochs(s: Store): seq<Epoch> {
    s.epochs + if s.open.Some? then [s.open.value] else []
  }

  function Concat(epochs: seq<Epoch>): seq<Frame> {
    if epochs == [] then [] else Concat(epochs[..|epochs| - 1]) + epochs[|epochs| - 1].messages
  }

  /** `recent_epochs` with a limit: the last ones; a limit of 0 is no limit, as `epochs[-0:]` is all of them. */
  function RecentEpochs(s: Store, limit: nat): seq<Epoch> {
    var live := LiveEpochs(s);
    if limit == 0 then live else live[Excess(|live|, limit)..]
  }

  /** `active_prompt_frames`. */
  function ActiveFrames(s: Store, limit: nat): seq<Frame> {
    Concat(RecentEpochs(s, limit))
  }

  // ---------------------------------------------------------------------
  // What the ledger tells
  // ---------------------------------------------------------------------

  /** The epochs created, in order. */
  function CreatedIn(entries: seq<Entry>): seq<nat> {
    if entries == [] then []
    else
      var e := entries[|entries| - 1];
      CreatedIn(entries[..|entries| - 1]) + if e.kind.EpochCreated? && e.epoch.Some? then [e.epoch.value] else []
  }

  predicate EvictedIn(entries: seq<Entry>, number: nat) {
    exists i :: 0 <= i < |entries| && entries[i].kind.EpochEvicted? && entries[i].about == Some(number)
  }

  predicate ClosedIn(entries: seq<Entry>, number: nat) {
    exists i :: 0 <= i < |entries| && entries[i].kind.EpochClosed? && entries[i].epoch == Some(number)
  }

  /** The messages of one epoch, in order. */
  function MessagesIn(entries: seq<Entry>, number: nat): seq<Frame> {
    if entries == [] then []
    else
      var e := entries[|entries| - 1];
      MessagesIn(entries[..|entries| - 1], number)
      + if e.kind.MessageAppended? && e.frame.Some? && e.epoch == Some(number) then [e.frame.value] else []
  }

  /** Every message of the session, in order. */
  function AllMessages(entries: seq<Entry>): seq<Frame> {
    if entries == [] then []
    else
      var e := entries[|entries| - 1];
      AllMessages(entries[..|entries| - 1]) + if e.kind.MessageAppended? && e.frame.Some? then [e.frame.value] else []
  }

  /** What a reader of the ledger can say of an epoch: its number, its messages, whether it is closed. */
  datatype Recovered = Recovered(number: nat, messages: seq<Frame>, isClosed: bool)

  function RecoverFrom(entries: seq<Entry>, numbers: seq<nat>): seq<Recovered> {
    if numbers == [] then []
    else
      RecoverFrom(entries, numbers[..|numbers| - 1])
      + var n := numbers[|numbers| - 1];
        if EvictedIn(entries, n) then [] else [Recovered(n, MessagesIn(entries, n), ClosedIn(entries, n))]
  }

  /** The window, read off the ledger alone. */
  function Recover(entries: seq<Entry>): seq<Recovered> {
    RecoverFrom(entries, CreatedIn(entries))
  }

  function Summary(epochs: seq<Epoch>): seq<Recovered> {
    seq(|epochs|, i requires 0 <= i < |epochs| =>
      Recovered(epochs[i].number, epochs[i].messages, epochs[i].closed.Some?))
  }
}
