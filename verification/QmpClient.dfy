/**
 The shared state of the QMP client and its lock-protected or atomic actions.

 `pending` maps a request id to the sender of the `execute` call waiting for it; a
 sender is named by its call's number. `channels` holds, by call number, the receiving
 ends of the one-shot channels that are still alive.
 */
module QmpClients {
  import opened Wrappers

  datatype Reply = Return(value: string) | Error(class_: string, desc: string)

  /** A one-shot channel as its receiver sees it. */
  datatype Channel = Open | Sent(reply: Reply) | Dropped

  datatype State = State(
    nextId: nat,
    pending: map<nat, nat>,
    closed: bool,
    closeReason: Option<string>,
    exited: bool,
    channels: map<nat, Channel>)

  const CLOSED_FALLBACK := "QMP connection is closed."

  function DropSender(channels: map<nat, Channel>, tx: nat): map<nat, Channel> {
    if tx in channels && channels[tx] == Open then channels[tx := Dropped] else channels
  }

  /** Clearing the pending map drops every sender it holds. */
  function DropSenders(channels: map<nat, Channel>, senders: set<nat>): map<nat, Channel> {
    map tx | tx in channels :: if tx in senders && channels[tx] == Open then Dropped else channels[tx]
  }

  function Inserted(s: State, id: nat, tx: nat): State {
    s.(pending := s.pending[id := tx], channels := s.channels[tx := Open])
  }

  function Removed(s: State, id: nat): State {
    if id in s.pending
    then s.(pending := s.pending - {id}, channels := DropSender(s.channels, s.pending[id]))
    else s
  }

  /** Taking an entry out moves its sender to the taker, so its channel stays open. */
  function Taken(s: State, id: nat): State {
    s.(pending := s.pending - {id})
  }

  function Delivered(s: State, tx: nat, reply: Reply): State {
    if tx in s.channels then s.(channels := s.channels[tx := Sent(reply)]) else s
  }

  function Drained(s: State): State {
    s.(pending := map[], channels := DropSenders(s.channels, s.pending.Values))
  }

  /** The sender in an entry is dropped with the entry, whether that is removed or drained, and only then:
      a receiver that still waits learns of it, and no other channel is touched. */
  lemma SendersGoWithTheirEntries(s: State, id: nat, k: nat)
    requires k in s.channels
    ensures Removed(s, id).pending == s.pending - {id} && Removed(s, id).channels.Keys == s.channels.Keys
    ensures Removed(s, id).channels[k] ==
      if id in s.pending && s.pending[id] == k && s.channels[k] == Open then Dropped else s.channels[k]
    ensures Drained(s).pending == map[] && Drained(s).channels.Keys == s.channels.Keys
    ensures Drained(s).channels[k] ==
      if (exists i :: i in s.pending && s.pending[i] == k) && s.channels[k] == Open then Dropped else s.channels[k]
    ensures Taken(s, id).channels == s.channels
  {
    assert s.pending - {} == s.pending;
  }

  function ReasonOf(s: State): string {
    match s.closeReason case Some(reason) => reason case None => CLOSED_FALLBACK
  }

  class Shared {
    var nextId: nat
    var pending: map<nat, nat>
    var closed: bool
    var closeReason: Option<string>
    var exited: bool
    var channels: map<nat, Channel>

    function View(): State
      reads this
    {
      State(nextId, pending, closed, closeReason, exited, channels)
    }

    constructor ()
      ensures View() == Fresh()
    {
      nextId, pending, closed, closeReason, exited, channels := 1, map[], false, None, false, map[];
    }

    method AllocateId() returns (id: nat)
      modifies this
      ensures id == old(nextId) && View() == old(View()).(nextId := id + 1)
    {
      id := nextId;
      nextId := nextId + 1;
    }

    method Insert(id: nat, tx: nat)
      modifies this
      ensures View() == Inserted(old(View()), id, tx)
    {
      channels := channels[tx := Open];
      pending := pending[id := tx];
    }

    method Remove(id: nat)
      modifies this
      ensures View() == Removed(old(View()), id)
    {
      if id in pending {
        channels := DropSender(channels, pending[id]);
        pending := pending - {id};
      }
    }

    /** The first half of routing a reply: claim the request it answers, if there is one. */
    method Take(id: nat) returns (tx: Option<nat>)
      modifies this
      ensures tx == if id in old(pending) then Some(old(pending)[id]) else None
      ensures View() == Taken(old(View()), id)
    {
      tx := if id in pending then Some(pending[id]) else None;
      pending := pending - {id};
    }

    /** The second half: a receiver that is gone is ignored. */
    method Deliver(tx: nat, reply: Reply)
      modifies this
      ensures View() == Delivered(old(View()), tx, reply)
    {
      if tx in channels {
        channels := channels[tx := Sent(reply)];
      }
    }

    method SwapClosed() returns (was: bool)
      modifies this
      ensures was == old(closed) && View() == old(View()).(closed := true)
    {
      was := closed;
      closed := true;
    }

    method Drain()
      modifies this
      ensures View() == Drained(old(View()))
    {
      channels := DropSenders(channels, pending.Values);
      pending := map[];
    }

    /** `fail_all` with nothing in between: only the first call has an effect. */
    method FailAll(reason: string)
      modifies this
      ensures View() ==
        if old(closed) then old(View())
        else Drained(old(View())).(closed := true, closeReason := Some(reason), exited := true)
    {
      var was := SwapClosed();
      if was {
        return;
      }
      closeReason := Some(reason);
      Drain();
      exited := true;
    }
  }

  function Fresh(): State {
    State(1, map[], false, None, false, map[])
  }
}
