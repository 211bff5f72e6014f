/** The short-term window is always recoverable from the session ledger. */
module SessionMemoryProperties {
  import opened Results
  import opened Sequences
  import opened SessionMemory

  // ---------------------------------------------------------------------
  // One more entry
  // ---------------------------------------------------------------------

  /** The list with one element more, if there is one. */
  function Added<T>(s: seq<T>, more: Option<T>): seq<T> {
    if more.Some? then s + [more.value] else s
  }

  function CreatedBy(e: Entry): Option<nat> {
    if e.kind.EpochCreated? then e.epoch else None
  }

  function MessageOf(e: Entry): Option<Frame> {
    if e.kind.MessageAppended? then e.frame else None
  }

  lemma OneMoreEntry(entries: seq<Entry>, e: Entry)
    ensures CreatedIn(entries + [e]) == Added(CreatedIn(entries), CreatedBy(e))
    ensures AllMessages(entries + [e]) == Added(AllMessages(entries), MessageOf(e))
    ensures forall n: nat ::
      MessagesIn(entries + [e], n) == Added(MessagesIn(entries, n), if e.epoch == Some(n) then MessageOf(e) else None)
  {
    assert (entries + [e])[..|entries|] == entries;
  }

  lemma OneMoreMark(entries: seq<Entry>, e: Entry, n: nat)
    ensures EvictedIn(entries + [e], n) <==> EvictedIn(entries, n) || (e.kind.EpochEvicted? && e.about == Some(n))
    ensures ClosedIn(entries + [e], n) <==> ClosedIn(entries, n) || (e.kind.EpochClosed? && e.epoch == Some(n))
  {
    var more := entries + [e];
    assert more[|entries|] == e && forall i :: 0 <= i < |entries| ==> more[i] == entries[i];
  }

  /** The two ledgers tell the same creations and messages. */
  ghost predicate SameTale(a: seq<Entry>, b: seq<Entry>) {
    && CreatedIn(a) == CreatedIn(b) && AllMessages(a) == AllMessages(b)
    && forall n: nat :: MessagesIn(a, n) == MessagesIn(b, n)
  }

  /** Entry numbers count from 1. */
  ghost predicate Numbered(s: Store) {
    s.nextEntry == |s.entries| + 1 && forall i :: 0 <= i < |s.entries| ==> s.entries[i].number == i + 1
  }

  lemma MarkKeepsTale(s: Store, kind: Kind, epoch: Option<nat>, about: Option<nat>)
    requires !kind.MessageAppended? && !kind.EpochCreated?
    ensures var t := Logged(s, kind, epoch, None, about);
      && SameTale(s.entries, t.entries)
      && (Numbered(s) ==> Numbered(t))
      && forall n: nat ::
           && (EvictedIn(t.entries, n) <==> EvictedIn(s.entries, n) || (kind.EpochEvicted? && about == Some(n)))
           && (ClosedIn(t.entries, n) <==> ClosedIn(s.entries, n) || (kind.EpochClosed? && epoch == Some(n)))
  {
    var e := Entry(s.nextEntry, kind, epoch, None, about);
    OneMoreEntry(s.entries, e);
    forall n: nat
      ensures EvictedIn(s.entries + [e], n) <==> EvictedIn(s.entries, n) || (kind.EpochEvicted? && about == Some(n))
      ensures ClosedIn(s.entries + [e], n) <==> ClosedIn(s.entries, n) || (kind.EpochClosed? && epoch == Some(n))
    {
      OneMoreMark(s.entries, e, n);
    }
  }

  lemma {:induction false} EvictionsAreMarks(s: Store, evicted: seq<nat>)
    ensures var t := LoggedEvictions(s, evicted);
      && SameTale(s.entries, t.entries)
      && t == s.(entries := t.entries, nextEntry := t.nextEntry)
      && (Numbered(s) ==> Numbered(t))
      && forall n: nat ::
           && (EvictedIn(t.entries, n) <==> EvictedIn(s.entries, n) || n in evicted)
           && (ClosedIn(t.entries, n) <==> ClosedIn(s.entries, n))
    decreases |evicted|
  {
    if evicted != [] {
      var id := Some(evicted[0]);
      var noted := Logged(s, StmEpochEvicted, None, None, id);
      MarkKeepsTale(s, StmEpochEvicted, None, id);
      MarkKeepsTale(noted, EpochEvicted, None, id);
      EvictionsAreMarks(Logged(noted, EpochEvicted, None, None, id), evicted[1..]);
      assert evicted == [evicted[0]] + evicted[1..];
    }
  }

  // ---------------------------------------------------------------------
  // The invariant
  // ---------------------------------------------------------------------

  /** The number of the oldest live epoch. */
  function First(s: Store): int {
    s.nextEpoch - |LiveEpochs(s)|
  }

  /**
   The live epochs are a contiguous run of numbers that ends with the newest; all but an open
   last one are closed, and once an epoch was evicted the window stays full.
   */
  ghost predicate Window(s: Store) {
    && First(s) >= 1 && |s.epochs| <= s.maxEpochs && (First(s) > 1 ==> |s.epochs| == s.maxEpochs)
    && (forall i :: 0 <= i < |s.epochs| ==> s.epochs[i].number == First(s) + i && s.epochs[i].closed.Some?)
    && (s.open.Some? ==>
          && s.open.value.number == First(s) + |s.epochs| && s.open.value.closed.None? && s.open.value.messages != [])
  }

  function UpTo(n: nat): seq<nat>
    requires n >= 1
  {
    seq(n - 1, i => i + 1)
  }

  /** The messages of the epochs before `n`, epoch by epoch. */
  function History(entries: seq<Entry>, n: nat): seq<Frame> {
    if n <= 1 then [] else History(entries, n - 1) + MessagesIn(entries, n - 1)
  }

  /** What the ledger tells agrees with the window. */
  ghost predicate Told(s: Store) {
    && First(s) >= 1
    && CreatedIn(s.entries) == UpTo(s.nextEpoch)
    && (forall n: nat :: EvictedIn(s.entries, n) <==> 1 <= n < First(s))
    && (forall n: nat :: ClosedIn(s.entries, n) <==> 1 <= n < First(s) + |s.epochs|)
    && (forall i :: 0 <= i < |s.epochs| ==> MessagesIn(s.entries, s.epochs[i].number) == s.epochs[i].messages)
    && (s.open.Some? ==> MessagesIn(s.entries, s.open.value.number) == s.open.value.messages)
    && (forall n: nat :: n >= s.nextEpoch ==> MessagesIn(s.entries, n) == [])
    && AllMessages(s.entries) == History(s.entries, s.nextEpoch)
  }

  ghost predicate Inv(s: Store) {
    Window(s) && Told(s) && Numbered(s)
  }

  lemma EmptyIsInv(maxEpochs: nat, closeRoles: set<string>)
    ensures Inv(Empty(maxEpochs, closeRoles))
  {
  }

  lemma {:induction false} HistoryOfSame(a: seq<Entry>, b: seq<Entry>, n: nat)
    requires forall k: nat :: k < n ==> MessagesIn(a, k) == MessagesIn(b, k)
    ensures History(a, n) == History(b, n)
  {
    if n > 1 {
      HistoryOfSame(a, b, n - 1);
    }
  }

  // ---------------------------------------------------------------------
  // A message
  // ---------------------------------------------------------------------

  /** The store after the message and, for a new epoch, its creation are logged. */
  function Opened(s: Store, frame: Frame): Store {
    var received := Received(s, frame);
    var number := received.open.value.number;
    var message := Logged(received, MessageAppended, Some(number), Some(frame), Some(number));
    if s.open.Some? then message else Logged(message, EpochCreated, Some(number), None, Some(number))
  }

  lemma ReceivedKeepsWindow(s: Store, frame: Frame)
    requires Window(s)
    ensures Window(Received(s, frame)) && First(Received(s, frame)) == First(s)
    ensures Received(s, frame).open.value.number == Received(s, frame).nextEpoch - 1
  {
  }

  /** The ledger with one message more, in the newest epoch. */
  lemma MessageTold(s: Store, frame: Frame, number: nat, t: Store)
    requires Window(s) && Told(s) && Numbered(s) && number == Received(s, frame).open.value.number
    requires t == Logged(Received(s, frame), MessageAppended, Some(number), Some(frame), Some(number))
    ensures Numbered(t) && CreatedIn(t.entries) == CreatedIn(s.entries)
    ensures forall n: nat :: MessagesIn(t.entries, n) == Added(MessagesIn(s.entries, n), if n == number then Some(frame) else None)
    ensures forall n: nat ::
      && (EvictedIn(t.entries, n) <==> EvictedIn(s.entries, n))
      && (ClosedIn(t.entries, n) <==> ClosedIn(s.entries, n))
    ensures AllMessages(t.entries) == History(t.entries, t.nextEpoch)
  {
    hide Window, Told, CreatedIn, MessagesIn, AllMessages, History, EvictedIn, ClosedIn;
    ReceivedKeepsWindow(s, frame);
    MessageAdded(s.entries, Entry(s.nextEntry, MessageAppended, Some(number), Some(frame), Some(number)), number, frame);
    HistoryAtNewest(s, number);
    assert t.nextEpoch == number + 1;
    NewestHistory(s.entries, t.entries, number, frame);
  }

  lemma MessageAdded(entries: seq<Entry>, e: Entry, number: nat, frame: Frame)
    requires e.kind.MessageAppended? && e.epoch == Some(number) && e.frame == Some(frame)
    ensures var after := entries + [e];
      && CreatedIn(after) == CreatedIn(entries) && AllMessages(after) == AllMessages(entries) + [frame]
      && (forall n: nat :: MessagesIn(after, n) == Added(MessagesIn(entries, n), if n == number then Some(frame) else None))
      && forall n: nat :: (EvictedIn(after, n) <==> EvictedIn(entries, n)) && (ClosedIn(after, n) <==> ClosedIn(entries, n))
  {
    OneMoreEntry(entries, e);
    forall n: nat
      ensures EvictedIn(entries + [e], n) <==> EvictedIn(entries, n)
      ensures ClosedIn(entries + [e], n) <==> ClosedIn(entries, n)
    {
      OneMoreMark(entries, e, n);
    }
  }

  /** All messages are those of the epochs before the newest, and then its own. */
  lemma HistoryAtNewest(s: Store, number: nat)
    requires Told(s) && number >= 1 && number + 1 == if s.open.Some? then s.nextEpoch else s.nextEpoch + 1
    ensures AllMessages(s.entries) == History(s.entries, number) + MessagesIn(s.entries, number)
  {
    if s.open.None? {
      assert History(s.entries, number) + [] == History(s.entries, number);
    }
  }

  lemma NewestHistory(before: seq<Entry>, after: seq<Entry>, number: nat, frame: Frame)
    requires number >= 1 && AllMessages(before) == History(before, number) + MessagesIn(before, number)
    requires forall n: nat :: n < number ==> MessagesIn(before, n) == MessagesIn(after, n)
    requires MessagesIn(after, number) == MessagesIn(before, number) + [frame]
    requires AllMessages(after) == AllMessages(before) + [frame]
    ensures AllMessages(after) == History(after, number + 1)
  {
    HistoryOfSame(before, after, number);
    Associative(History(before, number), MessagesIn(before, number), [frame]);
  }

  lemma OpenedKeepsInv(s: Store, frame: Frame)
    requires Inv(s)
    ensures Inv(Opened(s, frame)) && Opened(s, frame).open.Some?
  {
    ReceivedKeepsWindow(s, frame);
    var number := Received(s, frame).open.value.number;
    var message := Logged(Received(s, frame), MessageAppended, Some(number), Some(frame), Some(number));
    MessageTold(s, frame, number, message);
    if s.open.None? {
      CreationTold(s, message, frame, number);
    }
  }

  /** The creation of the epoch is logged after its first message. */
  lemma CreationTold(s: Store, message: Store, frame: Frame, number: nat)
    requires Inv(s) && s.open.None? && number == s.nextEpoch
    requires message == Logged(Received(s, frame), MessageAppended, Some(number), Some(frame), Some(number))
    requires Numbered(message) && CreatedIn(message.entries) == CreatedIn(s.entries)
    requires forall n: nat :: MessagesIn(message.entries, n) == Added(MessagesIn(s.entries, n), if n == number then Some(frame) else None)
    requires AllMessages(message.entries) == History(message.entries, message.nextEpoch)
    requires forall n: nat :: EvictedIn(message.entries, n) <==> EvictedIn(s.entries, n)
    requires forall n: nat :: ClosedIn(message.entries, n) <==> ClosedIn(s.entries, n)
    ensures Inv(Logged(message, EpochCreated, Some(number), None, Some(number)))
  {
    hide Inv, MessagesIn, CreatedIn, AllMessages, History, EvictedIn, ClosedIn;
    var t := Logged(message, EpochCreated, Some(number), None, Some(number));
    var e := Entry(message.nextEntry, EpochCreated, Some(number), None, Some(number));
    OneMoreEntry(message.entries, e);
    forall n: nat
      ensures EvictedIn(t.entries, n) <==> EvictedIn(message.entries, n)
      ensures ClosedIn(t.entries, n) <==> ClosedIn(message.entries, n)
    {
      OneMoreMark(message.entries, e, n);
    }
    HistoryOfSame(message.entries, t.entries, t.nextEpoch);
    NewEpochTold(s, t, frame, number);
  }

  lemma UpToGrows(n: nat)
    requires n >= 1
    ensures UpTo(n + 1) == UpTo(n) + [n]
  {
  }

  /** A ledger that tells one creation and one message more tells the window with that epoch open. */
  lemma NewEpochTold(s: Store, t: Store, frame: Frame, number: nat)
    requires Inv(s) && s.open.None? && number == s.nextEpoch
    requires t == Received(s, frame).(entries := t.entries, nextEntry := t.nextEntry) && Numbered(t)
    requires CreatedIn(t.entries) == CreatedIn(s.entries) + [number]
    requires forall n: nat :: MessagesIn(t.entries, n) == Added(MessagesIn(s.entries, n), if n == number then Some(frame) else None)
    requires AllMessages(t.entries) == History(t.entries, t.nextEpoch)
    requires forall n: nat :: EvictedIn(t.entries, n) <==> EvictedIn(s.entries, n)
    requires forall n: nat :: ClosedIn(t.entries, n) <==> ClosedIn(s.entries, n)
    ensures Inv(t)
  {
    ReceivedKeepsWindow(s, frame);
    UpToGrows(s.nextEpoch);
    assert MessagesIn(t.entries, number) == [] + [frame] == t.open.value.messages;
    forall i | 0 <= i < |t.epochs|
      ensures MessagesIn(t.entries, t.epochs[i].number) == t.epochs[i].messages
    {
      assert t.epochs[i] == s.epochs[i] && t.epochs[i].number < number;
    }
  }

  // ---------------------------------------------------------------------
  // Closing
  // ---------------------------------------------------------------------

  /** The evicted numbers are the oldest of the window. */
  lemma EvictedAreOldest(s: Store)
    requires Window(s) && s.open.Some?
    ensures var k := Excess(|s.epochs| + 1, s.maxEpochs);
      && k <= |s.epochs| + 1
      && forall n: nat :: n in Evicted(s) <==> First(s) <= n < First(s) + k
  {
    var k := Excess(|s.epochs| + 1, s.maxEpochs);
    var numbers := Evicted(s);
    assert |numbers| == k && forall i :: 0 <= i < k ==> numbers[i] == First(s) + i;
    forall n: nat | First(s) <= n < First(s) + k
      ensures n in numbers
    {
      assert numbers[n - First(s)] == n;
    }
  }

  lemma ClosedKeepsWindow(s: Store, at: real, reason: string)
    requires Window(s) && s.open.Some?
    ensures var t := Closed(s, at, reason);
      && Window(t) && First(t) == First(s) + Excess(|s.epochs| + 1, s.maxEpochs)
      && First(t) + |t.epochs| == s.nextEpoch
      && Kept(s.epochs + [s.open.value], First(s), t.epochs)
  {
    var last := s.open.value.(closed := Some((at, reason)));
    var all := s.epochs + [last];
    AppendedParts(s.epochs, last);
    WindowShrinks(s, all, Closed(s, at, reason), Excess(|all|, s.maxEpochs));
  }

  lemma AppendedParts<T>(s: seq<T>, x: T)
    ensures (s + [x])[..|s|] == s && (s + [x])[|s|] == x && |s + [x]| == |s| + 1
  {
  }

  lemma WindowShrinks(s: Store, all: seq<Epoch>, t: Store, k: nat)
    requires Window(s) && s.open.Some? && |all| == |s.epochs| + 1 && k == Excess(|all|, s.maxEpochs)
    requires all[..|s.epochs|] == s.epochs && all[|s.epochs|] == s.open.value.(closed := all[|s.epochs|].closed)
    requires all[|s.epochs|].closed.Some?
    requires t == s.(epochs := all[k..], open := None)
    ensures Window(t) && First(t) == First(s) + k && First(t) + |t.epochs| == s.nextEpoch
    ensures Kept(s.epochs + [s.open.value], First(s), t.epochs)
  {
    forall i | 0 <= i < |t.epochs|
      ensures t.epochs[i].number == First(s) + k + i && t.epochs[i].closed.Some?
      ensures t.epochs[i].messages == (s.epochs + [s.open.value])[t.epochs[i].number - First(s)].messages
    {
      assert t.epochs[i] == all[k + i];
      assert k + i < |s.epochs| ==> all[k + i] == all[..|s.epochs|][k + i] == s.epochs[k + i];
    }
  }

  /** The ledger after an epoch is closed and the oldest epochs are evicted. */
  function ClosedAndLogged(s: Store, at: real, reason: string): Store
    requires s.open.Some?
  {
    var number := s.open.value.number;
    LoggedEvictions(Logged(Closed(s, at, reason), EpochClosed, Some(number), None, Some(number)), Evicted(s))
  }

  /** Logging a closing and evictions adds exactly those marks. */
  lemma ClosingMarks(closed: Store, number: nat, evicted: seq<nat>)
    requires Numbered(closed)
    ensures var t := LoggedEvictions(Logged(closed, EpochClosed, Some(number), None, Some(number)), evicted);
      && t == closed.(entries := t.entries, nextEntry := t.nextEntry)
      && Numbered(t) && SameTale(closed.entries, t.entries)
      && forall n: nat ::
           && (EvictedIn(t.entries, n) <==> EvictedIn(closed.entries, n) || n in evicted)
           && (ClosedIn(t.entries, n) <==> ClosedIn(closed.entries, n) || n == number)
  {
    var marked := Logged(closed, EpochClosed, Some(number), None, Some(number));
    MarkKeepsTale(closed, EpochClosed, Some(number), Some(number));
    EvictionsAreMarks(marked, evicted);
  }

  lemma ClosingKeepsInv(s: Store, at: real, reason: string)
    requires Inv(s) && s.open.Some?
    ensures Inv(ClosedAndLogged(s, at, reason)) && ClosedAndLogged(s, at, reason).open.None?
  {
    ClosedKeepsWindow(s, at, reason);
    EvictedAreOldest(s);
    ClosedAndLoggedTold(s, Closed(s, at, reason), Evicted(s), ClosedAndLogged(s, at, reason));
  }

  lemma ClosedAndLoggedTold(s: Store, closed: Store, evicted: seq<nat>, t: Store)
    requires Inv(s) && s.open.Some?
    requires closed == s.(epochs := closed.epochs, open := None) && Window(closed)
    requires First(closed) >= First(s) && First(closed) + |closed.epochs| == s.nextEpoch
    requires forall n: nat :: n in evicted <==> First(s) <= n < First(closed)
    requires var number := s.open.value.number;
      t == LoggedEvictions(Logged(closed, EpochClosed, Some(number), None, Some(number)), evicted)
    requires Kept(s.epochs + [s.open.value], First(s), closed.epochs)
    ensures Inv(t)
  {
    ClosingMarks(closed, s.open.value.number, evicted);
    HistoryOfSame(s.entries, t.entries, s.nextEpoch);
    WindowTold(s, t, closed);
  }

  /** Each epoch of a window is told as it was in the wider window `all`, whose numbers start at `first`. */
  ghost predicate Kept(all: seq<Epoch>, first: int, epochs: seq<Epoch>) {
    forall i :: 0 <= i < |epochs| ==>
      && 0 <= epochs[i].number - first < |all|
      && epochs[i].messages == all[epochs[i].number - first].messages
  }

  lemma WindowTold(s: Store, t: Store, closed: Store)
    requires Inv(s) && s.open.Some?
    requires t == closed.(entries := t.entries, nextEntry := t.nextEntry) && Numbered(t)
    requires Window(closed) && closed.open.None? && closed.nextEpoch == s.nextEpoch
    requires SameTale(s.entries, t.entries) && History(s.entries, s.nextEpoch) == History(t.entries, s.nextEpoch)
    requires First(closed) >= First(s) && First(closed) + |closed.epochs| == s.nextEpoch
    requires forall n: nat :: EvictedIn(t.entries, n) <==> EvictedIn(s.entries, n) || First(s) <= n < First(closed)
    requires forall n: nat :: ClosedIn(t.entries, n) <==> ClosedIn(s.entries, n) || n == s.open.value.number
    requires Kept(s.epochs + [s.open.value], First(s), closed.epochs)
    ensures Inv(t)
  {
    KeptIsTold(s, t.entries, closed.epochs);
    assert Window(t) && First(t) == First(closed);
  }

  lemma KeptIsTold(s: Store, entries: seq<Entry>, epochs: seq<Epoch>)
    requires Inv(s) && s.open.Some? && SameTale(s.entries, entries)
    requires Kept(s.epochs + [s.open.value], First(s), epochs)
    ensures forall i :: 0 <= i < |epochs| ==> epochs[i].number >= 0 && MessagesIn(entries, epochs[i].number) == epochs[i].messages
  {
    hide Inv, MessagesIn, CreatedIn, AllMessages;
    forall i | 0 <= i < |epochs|
      ensures MessagesIn(entries, epochs[i].number) == epochs[i].messages
    {
      LiveMessagesTold(s, epochs[i].number);
    }
  }

  /** The ledger tells the messages of each live epoch. */
  lemma LiveMessagesTold(s: Store, n: nat)
    requires Inv(s) && s.open.Some? && First(s) <= n < s.nextEpoch
    ensures MessagesIn(s.entries, n) == (s.epochs + [s.open.value])[n - First(s)].messages
  {
    var was := (s.epochs + [s.open.value])[n - First(s)];
    assert was.number == n;
  }

  // ---------------------------------------------------------------------
  // Every run
  // ---------------------------------------------------------------------

  lemma AppendKeepsInv(s: Store, frame: Frame)
    requires Inv(s)
    ensures Inv(Append(s, frame))
  {
    OpenedKeepsInv(s, frame);
    if frame.role in s.closeRoles {
      var begun := Opened(s, frame);
      ClosingKeepsInv(begun, frame.ts, "assistant_turn_complete");
    }
  }

  lemma CloseEpochKeepsInv(s: Store, reason: string)
    requires Inv(s)
    ensures Inv(CloseEpoch(s, reason))
  {
    if s.open.Some? {
      var messages := s.open.value.messages;
      ClosingKeepsInv(s, messages[|messages| - 1].ts, reason);
    }
  }

  lemma NoteKeepsInv(s: Store, name: string)
    requires Inv(s)
    ensures Inv(Note(s, name))
  {
    var t := Note(s, name);
    MarkKeepsTale(s, OtherEvent(name), None, None);
    HistoryOfSame(s.entries, t.entries, s.nextEpoch);
  }

  lemma CloseSessionKeepsInv(s: Store)
    requires Inv(s)
    ensures Inv(CloseSession(s))
  {
    CloseEpochKeepsInv(s, "session_closed");
    var closed := CloseEpoch(s, "session_closed");
    var noted := Note(closed, "session_closed");
    var started := Note(noted, "compression_started");
    var written := Note(started, "ltm_artifact_written");
    NoteKeepsInv(closed, "session_closed");
    NoteKeepsInv(noted, "compression_started");
    NoteKeepsInv(started, "ltm_artifact_written");
    NoteKeepsInv(written, "compression_completed");
    NoteKeepsInv(Note(written, "compression_completed"), "ltm_promoted");
  }

  lemma {:induction false} RunKeepsInv(s: Store, ops: seq<Op>)
    requires Inv(s)
    ensures Inv(Run(s, ops))
    decreases |ops|
  {
    if ops != [] {
      match ops[0] {
        case AppendMessage(frame) => AppendKeepsInv(s, frame);
        case CloseOpenEpoch(reason) => CloseEpochKeepsInv(s, reason);
        case NoteEvent(name) => NoteKeepsInv(s, name);
        case EndSession => CloseSessionKeepsInv(s);
      }
      RunKeepsInv(Perform(s, ops[0]), ops[1..]);
    }
  }

  // ---------------------------------------------------------------------
  // Main results
  // ---------------------------------------------------------------------

  lemma SummaryGrows(live: seq<Epoch>, j: nat)
    requires j < |live|
    ensures Summary(live[..j + 1]) == Summary(live[..j]) + [Summary(live)[j]]
  {
  }

  lemma RecoverOneMore(entries: seq<Entry>, n: nat)
    requires n >= 1
    ensures RecoverFrom(entries, UpTo(n + 1)) == RecoverFrom(entries, UpTo(n))
      + if EvictedIn(entries, n) then [] else [Recovered(n, MessagesIn(entries, n), ClosedIn(entries, n))]
  {
    assert UpTo(n + 1)[..n - 1] == UpTo(n);
  }

  lemma {:induction false} RecoverEvicted(s: Store, n: nat)
    requires Inv(s) && 1 <= n <= First(s)
    ensures RecoverFrom(s.entries, UpTo(n)) == []
  {
    if n > 1 {
      RecoverEvicted(s, n - 1);
      RecoverOneMore(s.entries, n - 1);
    }
  }

  lemma {:induction false} RecoverLive(s: Store, live: seq<Epoch>, j: nat)
    requires Inv(s) && live == LiveEpochs(s) && j <= |live|
    ensures RecoverFrom(s.entries, UpTo(First(s) + j)) == Summary(live[..j])
  {
    hide Inv, LiveEpochs, MessagesIn, ClosedIn, EvictedIn, First;
    LiveNumbers(s);
    if j == 0 {
      RecoverEvicted(s, First(s));
    } else {
      RecoverLive(s, live, j - 1);
      LiveEpochIsTold(s, j - 1);
      RecoverOneMore(s.entries, First(s) + (j - 1));
      SummaryGrows(live, j - 1);
    }
  }

  lemma LiveNumbers(s: Store)
    requires Inv(s)
    ensures First(s) >= 1 && First(s) + |LiveEpochs(s)| == s.nextEpoch
    ensures AllMessages(s.entries) == History(s.entries, s.nextEpoch)
  {
  }

  lemma LiveEpochIsTold(s: Store, i: nat)
    requires Inv(s) && i < |LiveEpochs(s)|
    ensures var n: nat := First(s) + i;
      && LiveEpochs(s)[i].number == n && !EvictedIn(s.entries, n)
      && Summary(LiveEpochs(s))[i] == Recovered(n, MessagesIn(s.entries, n), ClosedIn(s.entries, n))
  {
  }

  /**
   In every run the window can be rebuilt from the ledger alone: the epochs created and not
   evicted, each with its messages and whether it is closed, are the live epochs in order.
   They are the last ones created, at most `maxEpochs` of them are closed, and none was
   evicted while there was room.
   */
  lemma WindowIsAlwaysRecoverable(maxEpochs: nat, closeRoles: set<string>, ops: seq<Op>)
    ensures var s := Run(Empty(maxEpochs, closeRoles), ops);
      && Recover(s.entries) == Summary(LiveEpochs(s))
      && (forall i :: 0 <= i < |LiveEpochs(s)| ==> LiveEpochs(s)[i].number == s.nextEpoch - |LiveEpochs(s)| + i)
      && |s.epochs| <= maxEpochs
      && ((exists n: nat :: EvictedIn(s.entries, n)) ==> |s.epochs| == maxEpochs)
  {
    var empty := Empty(maxEpochs, closeRoles);
    var s := Run(empty, ops);
    EmptyIsInv(maxEpochs, closeRoles);
    RunKeepsInv(empty, ops);
    RunKeepsShape(empty, ops);
    var live := LiveEpochs(s);
    RecoverLive(s, live, |live|);
    assert live[..|live|] == live;
  }

  lemma {:induction false} EvictionsKeepShape(s: Store, evicted: seq<nat>)
    ensures LoggedEvictions(s, evicted).maxEpochs == s.maxEpochs && LoggedEvictions(s, evicted).closeRoles == s.closeRoles
  {
    EvictionsAreMarks(s, evicted);
  }

  lemma CloseEpochKeepsShape(s: Store, reason: string)
    ensures CloseEpoch(s, reason).maxEpochs == s.maxEpochs
  {
    if s.open.Some? && s.open.value.messages != [] {
      var epoch := s.open.value;
      EvictionsKeepShape(
        Logged(Closed(s, epoch.messages[|epoch.messages| - 1].ts, reason), EpochClosed, Some(epoch.number), None, Some(epoch.number)),
        Evicted(s));
    }
  }

  lemma PerformKeepsShape(s: Store, op: Op)
    ensures Perform(s, op).maxEpochs == s.maxEpochs
  {
    match op {
      case AppendMessage(frame) =>
        var begun := Opened(s, frame);
        if frame.role in s.closeRoles {
          var number := begun.open.value.number;
          EvictionsKeepShape(Logged(Closed(begun, frame.ts, "assistant_turn_complete"), EpochClosed, Some(number), None, Some(number)),
            Evicted(begun));
        }
      case CloseOpenEpoch(reason) => CloseEpochKeepsShape(s, reason);
      case NoteEvent(name) =>
      case EndSession => CloseEpochKeepsShape(s, "session_closed");
    }
  }

  lemma {:induction false} RunKeepsShape(s: Store, ops: seq<Op>)
    ensures Run(s, ops).maxEpochs == s.maxEpochs
    decreases |ops|
  {
    if ops != [] {
      PerformKeepsShape(s, ops[0]);
      RunKeepsShape(Perform(s, ops[0]), ops[1..]);
    }
  }

  /** The ledger tells these messages for the epochs numbered from `base`. */
  ghost predicate TellsFrom(entries: seq<Entry>, base: nat, epochs: seq<Epoch>) {
    forall i :: 0 <= i < |epochs| ==> MessagesIn(entries, base + i) == epochs[i].messages
  }

  lemma TellsShorter(entries: seq<Entry>, base: nat, epochs: seq<Epoch>, last: Epoch)
    requires TellsFrom(entries, base, epochs + [last])
    ensures TellsFrom(entries, base, epochs) && MessagesIn(entries, base + |epochs|) == last.messages
  {
    var all := epochs + [last];
    assert all[|epochs|] == last && forall i :: 0 <= i < |epochs| ==> all[i] == epochs[i];
  }

  lemma ConcatAppended(epochs: seq<Epoch>, last: Epoch)
    ensures Concat(epochs + [last]) == Concat(epochs) + last.messages
  {
    assert (epochs + [last])[..|epochs|] == epochs;
  }

  lemma HistoryGrows(entries: seq<Entry>, n: nat, past: seq<Frame>, recent: seq<Frame>, last: seq<Frame>)
    requires n >= 1 && History(entries, n) == past + recent && MessagesIn(entries, n) == last
    ensures History(entries, n + 1) == past + (recent + last)
  {
    Associative(past, recent, last);
  }

  lemma {:induction false} HistoryThrough(entries: seq<Entry>, base: nat, epochs: seq<Epoch>)
    requires base >= 1 && TellsFrom(entries, base, epochs)
    ensures History(entries, base + |epochs|) == History(entries, base) + Concat(epochs)
  {
    if epochs != [] {
      var k := |epochs| - 1;
      var before, last := epochs[..k], epochs[k];
      assert epochs == before + [last];
      TellsShorter(entries, base, before, last);
      HistoryThrough(entries, base, before);
      ConcatAppended(before, last);
      HistoryGrows(entries, base + k, History(entries, base), Concat(before), last.messages);
    }
  }

  predicate EndsWith(whole: seq<Frame>, end: seq<Frame>) {
    |end| <= |whole| && whole[|whole| - |end|..] == end
  }

  lemma LiveIsTold(s: Store, live: seq<Epoch>, d: nat)
    requires Inv(s) && live == LiveEpochs(s) && d <= |live|
    ensures TellsFrom(s.entries, First(s) + d, live[d..])
  {
    forall i | 0 <= i < |live[d..]|
      ensures MessagesIn(s.entries, First(s) + d + i) == live[d..][i].messages
    {
      LiveEpochIsTold(s, d + i);
    }
  }

  lemma FramesEndTheHistory(s: Store, live: seq<Epoch>, d: nat)
    requires Inv(s) && live == LiveEpochs(s) && d <= |live|
    ensures EndsWith(AllMessages(s.entries), Concat(live[d..]))
  {
    hide Inv, LiveEpochs, AllMessages, History, Concat, First;
    LiveNumbers(s);
    LiveIsTold(s, live, d);
    HistoryThrough(s.entries, First(s) + d, live[d..]);
    assert First(s) + d + |live[d..]| == s.nextEpoch;
    TailEnds(History(s.entries, First(s) + d), Concat(live[d..]));
  }

  lemma TailEnds(older: seq<Frame>, recent: seq<Frame>)
    ensures EndsWith(older + recent, recent)
  {
  }

  /** The prompt frames are the end of the whole history, whatever the limit on epochs. */
  lemma ActiveFramesEndTheHistory(maxEpochs: nat, closeRoles: set<string>, ops: seq<Op>, limit: nat)
    ensures var s := Run(Empty(maxEpochs, closeRoles), ops);
      EndsWith(AllMessages(s.entries), ActiveFrames(s, limit))
  {
    var empty := Empty(maxEpochs, closeRoles);
    var s := Run(empty, ops);
    EmptyIsInv(maxEpochs, closeRoles);
    RunKeepsInv(empty, ops);
    var live := LiveEpochs(s);
    var d := if limit == 0 then 0 else Excess(|live|, limit);
    FramesEndTheHistory(s, live, d);
    assert live[0..] == live;
  }

  /** The messages a run sends. */
  function Sent(ops: seq<Op>): seq<Frame> {
    if ops == [] then [] else (if ops[0].AppendMessage? then [ops[0].frame] else []) + Sent(ops[1..])
  }

  lemma AppendLogs(s: Store, frame: Frame)
    ensures AllMessages(Append(s, frame).entries) == AllMessages(s.entries) + [frame]
  {
    var received := Received(s, frame);
    var number := received.open.value.number;
    OneMoreEntry(s.entries, Entry(s.nextEntry, MessageAppended, Some(number), Some(frame), Some(number)));
    var message := Logged(received, MessageAppended, Some(number), Some(frame), Some(number));
    OneMoreEntry(message.entries, Entry(message.nextEntry, EpochCreated, Some(number), None, Some(number)));
    var begun := Opened(s, frame);
    if frame.role in s.closeRoles {
      var closed := Closed(begun, frame.ts, "assistant_turn_complete");
      MarkKeepsTale(closed, EpochClosed, Some(number), Some(number));
      EvictionsAreMarks(Logged(closed, EpochClosed, Some(number), None, Some(number)), Evicted(begun));
    }
  }

  lemma CloseEpochLogsNoMessage(s: Store, reason: string)
    ensures AllMessages(CloseEpoch(s, reason).entries) == AllMessages(s.entries)
  {
    if s.open.Some? && s.open.value.messages != [] {
      var epoch := s.open.value;
      var closed := Closed(s, epoch.messages[|epoch.messages| - 1].ts, reason);
      MarkKeepsTale(closed, EpochClosed, Some(epoch.number), Some(epoch.number));
      EvictionsAreMarks(Logged(closed, EpochClosed, Some(epoch.number), None, Some(epoch.number)), Evicted(s));
    }
  }

  lemma NoteLogsNoMessage(s: Store, name: string)
    ensures AllMessages(Note(s, name).entries) == AllMessages(s.entries)
  {
    MarkKeepsTale(s, OtherEvent(name), None, None);
  }

  lemma PerformLogs(s: Store, op: Op)
    ensures AllMessages(Perform(s, op).entries) == AllMessages(s.entries) + if op.AppendMessage? then [op.frame] else []
  {
    match op {
      case AppendMessage(frame) => AppendLogs(s, frame);
      case CloseOpenEpoch(reason) => CloseEpochLogsNoMessage(s, reason);
      case NoteEvent(name) => NoteLogsNoMessage(s, name);
      case EndSession =>
        CloseEpochLogsNoMessage(s, "session_closed");
        var closed := CloseEpoch(s, "session_closed");
        var noted := Note(closed, "session_closed");
        var started := Note(noted, "compression_started");
        var written := Note(started, "ltm_artifact_written");
        NoteLogsNoMessage(closed, "session_closed");
        NoteLogsNoMessage(noted, "compression_started");
        NoteLogsNoMessage(started, "ltm_artifact_written");
        NoteLogsNoMessage(written, "compression_completed");
        NoteLogsNoMessage(Note(written, "compression_completed"), "ltm_promoted");
    }
  }

  /** Nothing evicted is lost: the ledger holds every message sent, in order. */
  lemma {:induction false} LedgerIsComplete(s: Store, ops: seq<Op>)
    ensures AllMessages(Run(s, ops).entries) == AllMessages(s.entries) + Sent(ops)
    decreases |ops|
  {
    if ops != [] {
      PerformLogs(s, ops[0]);
      LedgerIsComplete(Perform(s, ops[0]), ops[1..]);
      var first := if ops[0].AppendMessage? then [ops[0].frame] else [];
      Associative(AllMessages(s.entries), first, Sent(ops[1..]));
    }
  }
}
