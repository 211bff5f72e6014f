/**
 The stores of runtime_core/memory.py, updated in place. Each method is proved equal to
 the function of SessionMemory with the same role, so what SessionMemoryProperties proves
 of those functions holds of the objects.
 */
module MemoryStores {
  import opened Results
  import opened SessionMemory

  datatype AppendResult = AppendResult(epoch: nat, closed: bool, created: bool, evicted: seq<nat>)

  class StmStore {
    const maxEpochs: nat
    const closeRoles: set<string>
    var epochs: seq<Epoch>
    var open: Option<Epoch>
    var nextEpoch: nat

    /** The store as a value, without a ledger. */
    ghost function Window(): Store
      reads this
    {
      Store(maxEpochs, closeRoles, epochs, open, nextEpoch, [], 1)
    }

    constructor (maxEpochs: nat, closeRoles: set<string>)
      ensures Window() == Empty(maxEpochs, closeRoles)
    {
      this.maxEpochs := maxEpochs;
      this.closeRoles := closeRoles;
      epochs := [];
      open := None;
      nextEpoch := 1;
    }

    method BeginEpoch(at: real) returns (epoch: Epoch)
      modifies this`open, this`nextEpoch
      ensures epoch == Epoch(old(nextEpoch), at, [], None)
      ensures open == Some(epoch) && nextEpoch == old(nextEpoch) + 1
    {
      var number := nextEpoch;
      nextEpoch := nextEpoch + 1;
      epoch := Epoch(number, at, [], None);
      open := Some(epoch);
    }

    /** Drops the oldest epochs one by one until the window fits. */
    method EvictIfNeeded() returns (evicted: seq<nat>)
      modifies this`epochs
      ensures var k := Excess(|old(epochs)|, maxEpochs);
        epochs == old(epochs)[k..] && evicted == Numbers(old(epochs)[..k])
    {
      evicted := [];
      while |epochs| > maxEpochs
        invariant |evicted| <= Excess(|old(epochs)|, maxEpochs)
        invariant epochs == old(epochs)[|evicted|..]
        invariant evicted == Numbers(old(epochs)[..|evicted|])
      {
        var dropped := epochs[0];
        epochs := epochs[1..];
        evicted := evicted + [dropped.number];
      }
    }

    /** Adds the message to the open epoch, or to a new one; a closing role ends the epoch. */
    method AppendFrame(frame: Frame) returns (r: AppendResult)
      modifies this
      ensures var received := Received(old(Window()), frame);
        && r.epoch == received.open.value.number && r.created == old(open).None?
        && r.closed == (frame.role in closeRoles)
        && Window() == (if r.closed then Closed(received, frame.ts, "assistant_turn_complete") else received)
        && r.evicted == if r.closed then Evicted(received) else []
    {
      var created := open.None?;
      var epoch: Epoch;
      if created {
        epoch := BeginEpoch(frame.ts);
      } else {
        epoch := open.value;
      }
      epoch := epoch.(messages := epoch.messages + [frame]);
      open := Some(epoch);
      var evicted: seq<nat> := [];
      var closed := false;
      if frame.role in closeRoles {
        closed := true;
        epochs := epochs + [epoch.(closed := Some((frame.ts, "assistant_turn_complete")))];
        open := None;
        evicted := EvictIfNeeded();
      }
      r := AppendResult(epoch.number, closed, created, evicted);
    }

    /** Closes the open epoch at its last message; an empty one just goes away. */
    method ForceClose(reason: string) returns (closed: Option<Epoch>, evicted: seq<nat>)
      modifies this`epochs, this`open
      ensures var s := old(Window());
        if s.open.Some? && s.open.value.messages != [] then
          var at := s.open.value.messages[|s.open.value.messages| - 1].ts;
          && closed == Some(s.open.value.(closed := Some((at, reason))))
          && Window() == Closed(s, at, reason) && evicted == Evicted(s)
        else closed == None && evicted == [] && Window() == s.(open := None)
    {
      if open.None? {
        return None, [];
      }
      var epoch := open.value;
      if epoch.messages == [] {
        open := None;
        return None, [];
      }
      var at := epoch.messages[|epoch.messages| - 1].ts;
      epoch := epoch.(closed := Some((at, reason)));
      closed := Some(epoch);
      epochs := epochs + [epoch];
      open := None;
      evicted := EvictIfNeeded();
    }

    /** The messages of the recent epochs, oldest first. */
    method ActivePromptFrames(limit: nat) returns (frames: seq<Frame>)
      ensures frames == ActiveFrames(Window(), limit)
    {
      var live := RecentEpochs(Store(maxEpochs, closeRoles, epochs, open, nextEpoch, [], 1), limit);
      frames := [];
      for i := 0 to |live|
        invariant frames == Concat(live[..i])
      {
        frames := frames + live[i].messages;
        assert live[..i + 1][..i] == live[..i];
      }
      assert live[..|live|] == live;
    }
  }

  class SessionLedger {
    var entries: seq<Entry>
    var nextSeq: nat

    constructor ()
      ensures entries == [] && nextSeq == 1
    {
      entries := [];
      nextSeq := 1;
    }

    method AppendEvent(kind: Kind, epoch: Option<nat>, frame: Option<Frame>, about: Option<nat>)
      modifies this
      ensures entries == old(entries) + [Entry(old(nextSeq), kind, epoch, frame, about)]
      ensures nextSeq == old(nextSeq) + 1
    {
      entries := entries + [Entry(nextSeq, kind, epoch, frame, about)];
      nextSeq := nextSeq + 1;
    }
  }

  lemma NothingLogged(s: Store)
    ensures LoggedEvictions(s, []) == s
  {
  }

  class MemoryStore {
    const stm: StmStore
    const mtm: SessionLedger

    ghost function State(): Store
      reads stm, mtm
    {
      stm.Window().(entries := mtm.entries, nextEntry := mtm.nextSeq)
    }

    constructor (maxEpochs: nat, closeRoles: set<string>)
      ensures fresh(stm) && fresh(mtm) && State() == Empty(maxEpochs, closeRoles)
    {
      stm := new StmStore(maxEpochs, closeRoles);
      mtm := new SessionLedger();
    }

    method LogEvictions(evicted: seq<nat>)
      modifies mtm
      ensures State() == LoggedEvictions(old(State()), evicted)
    {
      for i := 0 to |evicted|
        invariant LoggedEvictions(State(), evicted[i..]) == LoggedEvictions(old(State()), evicted)
      {
        mtm.AppendEvent(StmEpochEvicted, None, None, Some(evicted[i]));
        mtm.AppendEvent(EpochEvicted, None, None, Some(evicted[i]));
        assert evicted[i..][1..] == evicted[i + 1..];
      }
    }

    /** A message goes to the window and, with what became of its epoch, to the ledger. */
    method Append(frame: Frame)
      modifies stm, mtm
      ensures State() == SessionMemory.Append(old(State()), frame)
    {
      hide LoggedEvictions, Excess, Numbers;
      var r := stm.AppendFrame(frame);
      mtm.AppendEvent(MessageAppended, Some(r.epoch), Some(frame), Some(r.epoch));
      if r.created {
        mtm.AppendEvent(EpochCreated, Some(r.epoch), None, Some(r.epoch));
      }
      if r.closed {
        mtm.AppendEvent(EpochClosed, Some(r.epoch), None, Some(r.epoch));
      }
      NothingLogged(State());
      LogEvictions(r.evicted);
    }

    method CloseEpoch(reason: string)
      modifies stm, mtm
      ensures State() == SessionMemory.CloseEpoch(old(State()), reason)
    {
      var closed, evicted := stm.ForceClose(reason);
      if closed.Some? {
        mtm.AppendEvent(EpochClosed, Some(closed.value.number), None, Some(closed.value.number));
      }
      LogEvictions(evicted);
    }

    /** The ledger events of a closing session; the archive it writes is not part of this model. */
    method CloseSession()
      modifies stm, mtm
      ensures State() == SessionMemory.CloseSession(old(State()))
    {
      CloseEpoch("session_closed");
      mtm.AppendEvent(OtherEvent("session_closed"), None, None, None);
      mtm.AppendEvent(OtherEvent("compression_started"), None, None, None);
      mtm.AppendEvent(OtherEvent("ltm_artifact_written"), None, None, None);
      mtm.AppendEvent(OtherEvent("compression_completed"), None, None, None);
      mtm.AppendEvent(OtherEvent("ltm_promoted"), None, None, None);
    }
  }
}
