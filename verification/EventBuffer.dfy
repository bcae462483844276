/**
 The Event Buffer: a bounded ring of QMP events with a monotonic cursor and
 race-safe long-polls.

 `State` is the content of the buffer's mutex together with the receiving ends of
 the one-shot channels. The class updates it in place, one lock-protected action a
 method, against a specification function of the state before.
 */
module EventBuffers {
  import opened Wrappers

  datatype QmpEvent = QmpEvent(event: string, data: Option<string>, timestamp: Option<string>)

  datatype BufferedEvent =
    BufferedEvent(seqNo: nat, event: string, data: Option<string>, timestamp: Option<string>)

  datatype ReadResult = ReadResult(events: seq<BufferedEvent>, cursor: nat)

  datatype WaitOptions =
    WaitOptions(eventName: Option<string>, zeroTimeout: bool, sinceCursor: Option<nat>)

  datatype WaitResult = WaitResult(timedOut: bool, event: Option<BufferedEvent>, cursor: nat)

  /** What a poll of the receiver and then of the timer comes to; a timeout has yet to take the lock. */
  datatype PollOutcome = Pending | Matched(result: WaitResult) | TimingOut

  datatype Waiter = Waiter(id: nat, eventName: Option<string>)

  /** A one-shot channel as its receiver sees it. */
  datatype Channel = Open | Sent(event: BufferedEvent) | Dropped

  datatype State = State(
    capacity: nat,
    events: seq<BufferedEvent>,
    last: nat,
    waiters: seq<Waiter>,
    nextWaiterId: nat,
    channels: map<nat, Channel>)

  predicate EventMatches(filter: Option<string>, e: BufferedEvent) {
    match filter
    case None => true
    case Some(name) => e.event == name
  }

  function Stamp(seqNo: nat, e: QmpEvent): BufferedEvent {
    BufferedEvent(seqNo, e.event, e.data, e.timestamp)
  }

  /** The last `n` elements of `xs`, or all of them. */
  function LastN<T>(xs: seq<T>, n: nat): seq<T> {
    if |xs| <= n then xs else xs[|xs| - n..]
  }

  /** The waiters left registered once `b` has been delivered. */
  function Unmatched(ws: seq<Waiter>, b: BufferedEvent): seq<Waiter> {
    if ws == [] then []
    else (if EventMatches(ws[0].eventName, b) then [] else [ws[0]]) + Unmatched(ws[1..], b)
  }

  function Send(channels: map<nat, Channel>, id: nat, b: BufferedEvent): map<nat, Channel> {
    if id in channels then channels[id := Sent(b)] else channels
  }

  /** The channels once every waiter matching `b` has been sent it. */
  function Delivered(channels: map<nat, Channel>, ws: seq<Waiter>, b: BufferedEvent): map<nat, Channel> {
    if ws == [] then channels
    else Delivered(if EventMatches(ws[0].eventName, b) then Send(channels, ws[0].id, b) else channels, ws[1..], b)
  }

  function WithoutWaiter(ws: seq<Waiter>, id: nat): seq<Waiter> {
    if ws == [] then []
    else (if ws[0].id == id then [] else [ws[0]]) + WithoutWaiter(ws[1..], id)
  }

  /** Dropping a registered waiter's sender is visible to a receiver that is still there. */
  function DropSenders(channels: map<nat, Channel>, ws: seq<Waiter>): map<nat, Channel> {
    map id | id in channels :: if HasWaiter(ws, id) then Dropped else channels[id]
  }

  predicate HasWaiter(ws: seq<Waiter>, id: nat) {
    exists w | w in ws :: w.id == id
  }

  /** The retained events newer than `since`, oldest first. */
  function Newer(events: seq<BufferedEvent>, since: nat): seq<BufferedEvent> {
    if events == [] then []
    else (if events[0].seqNo > since then [events[0]] else []) + Newer(events[1..], since)
  }

  /** The first event of `events` that satisfies `filter`. */
  function FirstMatch(events: seq<BufferedEvent>, filter: Option<string>): Option<BufferedEvent> {
    if events == [] then None
    else if EventMatches(filter, events[0]) then Some(events[0])
    else FirstMatch(events[1..], filter)
  }

  /** `picks` are the places of the events numbered after `since`, all of them and in order, and
      `chosen` are the events there. */
  ghost predicate Selects(picks: seq<nat>, events: seq<BufferedEvent>, since: nat, chosen: seq<BufferedEvent>) {
    && |picks| == |chosen|
    && (forall i, j :: 0 <= i < j < |picks| ==> picks[i] < picks[j])
    && (forall i :: 0 <= i < |picks| ==>
          picks[i] < |events| && events[picks[i]].seqNo > since && chosen[i] == events[picks[i]])
    && (forall k: nat :: k < |events| && events[k].seqNo > since ==> k in picks)
  }

  lemma {:induction false} NewerPush(events: seq<BufferedEvent>, e: BufferedEvent, since: nat)
    ensures Newer(events + [e], since) == Newer(events, since) + if e.seqNo > since then [e] else []
  {
    if events == [] {
      assert [] + [e] == [e] && [e][1..] == [];
    } else {
      assert (events + [e])[1..] == events[1..] + [e];
      NewerPush(events[1..], e, since);
    }
  }

  lemma SelectsPush(picks: seq<nat>, events: seq<BufferedEvent>, since: nat, chosen: seq<BufferedEvent>,
      e: BufferedEvent)
    requires Selects(picks, events, since, chosen)
    ensures e.seqNo > since ==> Selects(picks + [|events|], events + [e], since, chosen + [e])
    ensures e.seqNo <= since ==> Selects(picks, events + [e], since, chosen)
  {
    assert forall k: nat :: k < |events| ==> (events + [e])[k] == events[k];
  }

  lemma NothingSelected(since: nat)
    ensures Selects([], [], since, Newer([], since))
  {
  }

  /** A cursor read is an order-preserving selection. */
  lemma {:induction false} NewerSelects(events: seq<BufferedEvent>, since: nat) returns (picks: seq<nat>)
    ensures Selects(picks, events, since, Newer(events, since))
    decreases |events|
  {
    hide Selects, Newer;
    if events == [] {
      picks := [];
      NothingSelected(since);
    } else {
      var n := |events| - 1;
      picks := NewerSelects(events[..n], since);
      SelectsPush(picks, events[..n], since, Newer(events[..n], since), events[n]);
      NewerPush(events[..n], events[n], since);
      assert events == events[..n] + [events[n]];
      if events[n].seqNo > since {
        picks := picks + [n];
      } else {
        assert Newer(events[..n], since) + [] == Newer(events[..n], since);
      }
    }
  }

  // ---- The specification of each lock-protected action ----

  function Appended(s: State, e: QmpEvent): State {
    var b := Stamp(s.last + 1, e);
    s.(events := LastN(s.events + [b], s.capacity),
       last := s.last + 1,
       waiters := Unmatched(s.waiters, b),
       channels := Delivered(s.channels, s.waiters, b))
  }

  function ReadOf(s: State, since: Option<nat>): ReadResult {
    ReadResult(match since case None => s.events case Some(c) => Newer(s.events, c), s.last)
  }

  /** The retained events a call may be answered with at once. */
  function Candidates(s: State, opts: WaitOptions): seq<BufferedEvent> {
    match opts.sinceCursor case None => [] case Some(c) => Newer(s.events, c)
  }

  /** What a call resolves with at once, if it does not register. */
  function Immediate(s: State, opts: WaitOptions): Option<WaitResult> {
    match FirstMatch(Candidates(s, opts), opts.eventName)
    case Some(hit) => Some(WaitResult(false, Some(hit), hit.seqNo))
    case None => if opts.zeroTimeout then Some(WaitResult(true, None, s.last)) else None
  }

  function Registered(s: State, opts: WaitOptions): State {
    s.(waiters := s.waiters + [Waiter(s.nextWaiterId, opts.eventName)],
       nextWaiterId := s.nextWaiterId + 1,
       channels := s.channels[s.nextWaiterId := Open])
  }

  /** One poll of a registered wait; `elapsed` says whether its timer has fired. */
  function Polled(s: State, id: nat, elapsed: bool): (State, PollOutcome)
    requires id in s.channels
  {
    match s.channels[id]
    case Sent(e) => (s.(channels := s.channels - {id}), Matched(WaitResult(false, Some(e), e.seqNo)))
    case Dropped => (s.(channels := s.channels - {id}), TimingOut)
    case Open => if elapsed then (s.(channels := s.channels - {id}), TimingOut) else (s, Pending)
  }

  /** The arm that a timeout runs under the lock; after a dropped sender there is no waiter to remove. */
  function TimedOut(s: State, id: nat): (State, WaitResult) {
    (s.(waiters := WithoutWaiter(s.waiters, id)), WaitResult(true, None, s.last))
  }

  function WasReset(s: State): State {
    s.(events := [], waiters := [], channels := DropSenders(s.channels, s.waiters))
  }

  // ---- The buffer itself ----

  class EventBuffer {
    const capacity: nat
    var events: seq<BufferedEvent>
    var last: nat
    var waiters: seq<Waiter>
    var nextWaiterId: nat
    var channels: map<nat, Channel>

    function View(): State
      reads this
    {
      State(capacity, events, last, waiters, nextWaiterId, channels)
    }

    constructor (capacity: nat)
      requires capacity >= 1
      ensures View() == Empty(capacity)
    {
      this.capacity := capacity;
      events, last, waiters, nextWaiterId, channels := [], 0, [], 1, map[];
    }

    method Append(e: QmpEvent) returns (b: BufferedEvent)
      modifies this
      ensures View() == Appended(old(View()), e)
      ensures b == Stamp(old(last) + 1, e)
    {
      last := last + 1;
      b := Stamp(last, e);
      events := events + [b];
      Evict();
      Wake(b);
    }

    /** The eviction loop of `append`: drop the oldest events beyond capacity. */
    method Evict()
      modifies this`events
      ensures events == LastN(old(events), capacity)
    {
      while |events| > capacity
        invariant LastN(events, capacity) == LastN(old(events), capacity)
      {
        events := events[1..];
      }
    }

    /** The waking loop of `append`: remove each matching waiter as it is sent `b`. */
    method Wake(b: BufferedEvent)
      modifies this`waiters, this`channels
      ensures waiters == Unmatched(old(waiters), b)
      ensures channels == Delivered(old(channels), old(waiters), b)
    {
      var i := 0;
      while i < |waiters|
        invariant 0 <= i <= |waiters|
        invariant waiters[..i] + Unmatched(waiters[i..], b) == Unmatched(old(waiters), b)
        invariant Delivered(channels, waiters[i..], b) == Delivered(old(channels), old(waiters), b)
        decreases |waiters| - i
      {
        var w := waiters[i];
        assert waiters[i..][1..] == waiters[i + 1..];
        if EventMatches(w.eventName, b) {
          ghost var before := waiters;
          waiters := waiters[..i] + waiters[i + 1..];
          assert waiters[..i] == before[..i] && waiters[i..] == before[i + 1..];
          if w.id in channels {
            channels := channels[w.id := Sent(b)];
          }
        } else {
          assert waiters[..i + 1] == waiters[..i] + [w];
          i := i + 1;
        }
      }
      assert waiters[i..] == [] && waiters[..i] == waiters;
    }

    /** With a cursor, exactly the events after it and in order; without one, all of them. */
    method Read(since: Option<nat>) returns (r: ReadResult)
      ensures r == ReadOf(View(), since)
      ensures r.cursor == last
      ensures since.None? ==> r.events == events
      ensures since.Some? ==> exists picks :: Selects(picks, events, since.value, r.events)
    {
      if since.Some? {
        ghost var picks := NewerSelects(events, since.value);
      }
      r := ReadResult(match since case None => events case Some(c) => Newer(events, c), last);
    }

    /** Answers at once, or registers a waiter and returns its id. */
    method WaitFor(opts: WaitOptions) returns (now: Option<WaitResult>, id: nat)
      modifies this
      ensures now == Immediate(old(View()), opts)
      ensures View() == if now.Some? then old(View()) else Registered(old(View()), opts)
      ensures now.None? ==> id == old(nextWaiterId)
    {
      id := nextWaiterId;
      if opts.sinceCursor.Some? {
        var hit := FirstMatch(Newer(events, opts.sinceCursor.value), opts.eventName);
        if hit.Some? {
          return Some(WaitResult(false, hit, hit.value.seqNo)), id;
        }
      }
      if opts.zeroTimeout {
        return Some(WaitResult(true, None, last)), id;
      }
      nextWaiterId := nextWaiterId + 1;
      waiters := waiters + [Waiter(id, opts.eventName)];
      channels := channels[id := Open];
      now := None;
    }

    /** The receiver is polled first, so a match wins over the timer; once either is decided the receiver
        is gone. */
    method Poll(id: nat, elapsed: bool) returns (r: PollOutcome)
      requires id in channels
      modifies this
      ensures (View(), r) == Polled(old(View()), id, elapsed)
    {
      match channels[id]
      case Sent(e) =>
        channels := channels - {id};
        r := Matched(WaitResult(false, Some(e), e.seqNo));
      case Dropped =>
        channels := channels - {id};
        r := TimingOut;
      case Open =>
        if elapsed {
          channels := channels - {id};
          r := TimingOut;
        } else {
          r := Pending;
        }
    }

    method TimeOut(id: nat) returns (r: WaitResult)
      modifies this
      ensures (View(), r) == TimedOut(old(View()), id)
    {
      waiters := WithoutWaiter(waiters, id);
      r := WaitResult(true, None, last);
    }

    method Reset()
      modifies this
      ensures View() == WasReset(old(View()))
    {
      channels := DropSenders(channels, waiters);
      events, waiters := [], [];
    }
  }

  function Empty(capacity: nat): State {
    State(capacity, [], 0, [], 1, map[])
  }
}
