/**
 The Event Buffer against an unbounded log.

 `World` adds to the buffer everything ever appended and the history of every
 long-poll; `Next` lets appends, waits, polls, dropped waits and resets interleave in
 any order. A wait's poll of its receiver and timer is one step, and the arm that a
 timeout then runs under the lock another.
 */
module EventLogs {
  import opened Wrappers
  import opened EventBuffers

  datatype Status = Waiting | Expiring | Abandoned | Settled(result: WaitResult)

  /** One long-poll: what was retained for it when it was made, the log length then, the log length
      when it was reset or settled, the log length when its receiver was last polled before it timed
      out, and its waiter id if it registered. */
  datatype Call = Call(
    opts: WaitOptions,
    candidates: seq<BufferedEvent>,
    start: nat,
    end: Option<nat>,
    polled: Option<nat>,
    id: Option<nat>,
    status: Status)

  /** `base` is the log length at the last reset. */
  datatype World = World(buf: State, log: seq<BufferedEvent>, base: nat, calls: seq<Call>)

  datatype Step =
    | Append(e: QmpEvent)
    | WaitFor(opts: WaitOptions)
    | Poll(call: nat, elapsed: bool)
    | TimeOut(call: nat)
    | Abandon(call: nat)
    | Reset

  /** The caller may only poll or drop a wait it still holds. */
  predicate Enabled(w: World, step: Step) {
    match step
    case Poll(k, _) =>
      k < |w.calls| && w.calls[k].status == Waiting && w.calls[k].id.Some? && w.calls[k].id.value in w.buf.channels
    case TimeOut(k) => k < |w.calls| && w.calls[k].status == Expiring && w.calls[k].id.Some?
    case Abandon(k) => k < |w.calls| && w.calls[k].status == Waiting && w.calls[k].id.Some?
    case _ => true
  }

  function EndAt(c: Call, n: nat): Call {
    if c.end.None? then c.(end := Some(n)) else c
  }

  /** A step that is not enabled leaves the world as it is. */
  function Next(w: World, step: Step): World {
    if !Enabled(w, step) then w else
    match step
    case Append(e) => w.(buf := Appended(w.buf, e), log := w.log + [Stamp(|w.log| + 1, e)])
    case WaitFor(opts) =>
      var now := Immediate(w.buf, opts);
      var seen := Candidates(w.buf, opts);
      var n := |w.log|;
      if now.Some?
      then w.(calls := w.calls + [Call(opts, seen, n, Some(n), None, None, Settled(now.value))])
      else w.(buf := Registered(w.buf, opts),
              calls := w.calls + [Call(opts, seen, n, None, None, Some(w.buf.nextWaiterId), Waiting)])
    case Poll(k, elapsed) =>
      var (buf, outcome) := Polled(w.buf, w.calls[k].id.value, elapsed);
      var c := w.calls[k];
      w.(buf := buf, calls := w.calls[k :=
        match outcome
        case Pending => c
        case Matched(r) => EndAt(c, |w.log|).(status := Settled(r))
        case TimingOut => c.(polled := Some(|w.log|), status := Expiring)])
    case TimeOut(k) =>
      var (buf, r) := TimedOut(w.buf, w.calls[k].id.value);
      w.(buf := buf, calls := w.calls[k := EndAt(w.calls[k], |w.log|).(status := Settled(r))])
    case Abandon(k) =>
      w.(buf := w.buf.(channels := w.buf.channels - {w.calls[k].id.value}),
         calls := w.calls[k := w.calls[k].(status := Abandoned)])
    case Reset =>
      w.(buf := WasReset(w.buf), base := |w.log|,
         calls := seq(|w.calls|, i requires 0 <= i < |w.calls| => EndAt(w.calls[i], |w.log|)))
  }

  function Run(w: World, steps: seq<Step>): World
    decreases |steps|
  {
    if steps == [] then w else Run(Next(w, steps[0]), steps[1..])
  }

  function Initial(capacity: nat): World {
    World(Empty(capacity), [], 0, [])
  }

  /** The events appended while a call was open. */
  function Window(w: World, c: Call): seq<BufferedEvent>
    requires c.start <= (if c.end.Some? then c.end.value else |w.log|) <= |w.log|
  {
    w.log[c.start..if c.end.Some? then c.end.value else |w.log|]
  }

  /** Where the log ended for a call's receiver: at its last poll, unless the call was over before. */
  function SeenEnd(w: World, c: Call): nat {
    var end := if c.end.Some? then c.end.value else |w.log|;
    if c.polled.Some? && c.polled.value <= end then c.polled.value else end
  }

  // ---- Invariants ----

  /** The ring is the last `capacity` events of the log since the last reset. */
  ghost predicate LogInv(w: World) {
    && w.buf.last == |w.log|
    && w.base <= |w.log|
    && (forall i :: 0 <= i < |w.log| ==> w.log[i].seqNo == i + 1)
    && w.buf.events == LastN(w.log[w.base..], w.buf.capacity)
  }

  ghost predicate OwnsWaiter(calls: seq<Call>, k: int, wt: Waiter) {
    0 <= k < |calls| && calls[k].id == Some(wt.id) && calls[k].opts.eventName == wt.eventName
  }

  ghost predicate WaiterInv(w: World) {
    && (forall id :: id in w.buf.channels ==> id < w.buf.nextWaiterId)
    && (forall wt :: wt in w.buf.waiters ==> wt.id < w.buf.nextWaiterId && exists k :: OwnsWaiter(w.calls, k, wt))
  }

  ghost predicate InLog(w: World, c: Call) {
    && c.start <= (if c.end.Some? then c.end.value else |w.log|) <= |w.log|
    && (c.polled.Some? ==> c.start <= c.polled.value <= |w.log|)
    && |c.candidates| <= c.start
    && c.candidates == w.log[c.start - |c.candidates|..c.start]
  }

  /** The state a call's channel must be in: sent the first match offered, else closed or open. */
  ghost function Expected(w: World, c: Call): Channel
    requires InLog(w, c)
  {
    match FirstMatch(Window(w, c), c.opts.eventName)
    case Some(e) => Sent(e)
    case None => if c.end.Some? then Dropped else Open
  }

  /** The events appended while a call was open and until its receiver was last polled. */
  ghost function Seen(w: World, c: Call): seq<BufferedEvent>
    requires InLog(w, c)
  {
    w.log[c.start..SeenEnd(w, c)]
  }

  /** The promise of a long-poll: the first match it was ever offered, or a timeout if its receiver saw
      none, with a cursor past all it was offered. */
  ghost predicate Answers(w: World, c: Call, r: WaitResult)
    requires InLog(w, c) && c.end.Some?
  {
    match r.event
    case Some(e) =>
      r == WaitResult(false, Some(e), e.seqNo) && FirstMatch(c.candidates + Window(w, c), c.opts.eventName) == Some(e)
    case None =>
      && r.timedOut && c.end.value <= r.cursor <= |w.log|
      && FirstMatch(c.candidates + Seen(w, c), c.opts.eventName) == None
  }

  ghost predicate Listening(w: World, c: Call)
    requires c.id.Some?
  {
    Waiter(c.id.value, c.opts.eventName) in w.buf.waiters
  }

  ghost predicate CallInv(w: World, c: Call) {
    && InLog(w, c)
    && (c.id.None? ==> c.status.Settled?)
    && (c.id.Some? ==>
          && c.id.value < w.buf.nextWaiterId
          && FirstMatch(c.candidates, c.opts.eventName) == None
          && (c.id.value in w.buf.channels <==> c.status == Waiting)
          && (forall wt :: wt in w.buf.waiters && wt.id == c.id.value ==> wt.eventName == c.opts.eventName))
    && match c.status
       case Waiting =>
         && w.buf.channels[c.id.value] == Expected(w, c)
         && (Listening(w, c) <==> Expected(w, c) == Open)
       case Expiring =>
         && c.polled.Some?
         && (Listening(w, c) <==> Expected(w, c) == Open)
         && FirstMatch(Seen(w, c), c.opts.eventName) == None
       case Abandoned => Listening(w, c) <==> Expected(w, c) == Open
       case Settled(r) =>
         && c.end.Some?
         && (c.id.Some? ==> !Listening(w, c))
         && Answers(w, c, r)
  }

  ghost predicate CallsInv(w: World) {
    && (forall k :: 0 <= k < |w.calls| ==> CallInv(w, w.calls[k]))
    && (forall j, k :: 0 <= j < k < |w.calls| && w.calls[j].id.Some? ==> w.calls[j].id != w.calls[k].id)
  }

  ghost predicate Inv(w: World) {
    LogInv(w) && WaiterInv(w) && CallsInv(w)
  }

  // ---- Facts about the specification functions ----

  lemma {:induction false} FirstMatchConcat(xs: seq<BufferedEvent>, ys: seq<BufferedEvent>, f: Option<string>)
    ensures FirstMatch(xs + ys, f) == if FirstMatch(xs, f).Some? then FirstMatch(xs, f) else FirstMatch(ys, f)
  {
    if xs == [] {
      assert xs + ys == ys;
    } else {
      assert (xs + ys)[1..] == xs[1..] + ys;
      FirstMatchConcat(xs[1..], ys, f);
    }
  }

  lemma {:induction false} UnmatchedMembers(ws: seq<Waiter>, b: BufferedEvent)
    ensures forall wt :: wt in Unmatched(ws, b) <==> wt in ws && !EventMatches(wt.eventName, b)
  {
    if ws != [] {
      UnmatchedMembers(ws[1..], b);
      assert ws == [ws[0]] + ws[1..];
    }
  }

  lemma {:induction false} WithoutWaiterMembers(ws: seq<Waiter>, id: nat)
    ensures forall wt :: wt in WithoutWaiter(ws, id) <==> wt in ws && wt.id != id
  {
    if ws != [] {
      WithoutWaiterMembers(ws[1..], id);
      assert ws == [ws[0]] + ws[1..];
    }
  }

  ghost predicate Wakes(ws: seq<Waiter>, id: nat, b: BufferedEvent) {
    exists wt | wt in ws :: wt.id == id && EventMatches(wt.eventName, b)
  }

  lemma {:induction false} DeliveredChannels(channels: map<nat, Channel>, ws: seq<Waiter>, b: BufferedEvent)
    ensures Delivered(channels, ws, b).Keys == channels.Keys
    ensures forall id :: id in channels ==>
      Delivered(channels, ws, b)[id] == if Wakes(ws, id, b) then Sent(b) else channels[id]
  {
    if ws != [] {
      var sent := if EventMatches(ws[0].eventName, b) then Send(channels, ws[0].id, b) else channels;
      DeliveredChannels(sent, ws[1..], b);
      assert ws == [ws[0]] + ws[1..];
      forall id | id in channels
        ensures Delivered(channels, ws, b)[id] == if Wakes(ws, id, b) then Sent(b) else channels[id]
      {
        assert Wakes(ws, id, b) <==> (ws[0].id == id && EventMatches(ws[0].eventName, b)) || Wakes(ws[1..], id, b);
      }
    }
  }

  /** On consecutively numbered events, the newer ones are a suffix. */
  lemma {:induction false} NewerIsSuffix(events: seq<BufferedEvent>, first: nat, since: nat)
    requires forall i :: 0 <= i < |events| ==> events[i].seqNo == first + i
    ensures Newer(events, since) ==
      if since < first then events else if since < first + |events| then events[since - first + 1..] else []
  {
    if events != [] {
      NewerIsSuffix(events[1..], first + 1, since);
      assert events == [events[0]] + events[1..];
    }
  }

  /** What a cursor read returns: the part of the log after `since` that is still retained. */
  lemma ReadIsLogSuffix(w: World, since: nat)
    requires LogInv(w)
    ensures Newer(w.buf.events, since) ==
      var oldest := |w.log| - |w.buf.events|;
      w.log[if since <= oldest then oldest else if since <= |w.log| then since else |w.log|..]
  {
    var oldest := |w.log| - |w.buf.events|;
    assert w.buf.events == w.log[oldest..];
    NewerIsSuffix(w.buf.events, oldest + 1, since);
  }

  lemma CandidatesAreLogSuffix(w: World, opts: WaitOptions)
    requires LogInv(w)
    ensures var seen := Candidates(w.buf, opts);
      |seen| <= |w.log| && seen == w.log[|w.log| - |seen|..]
  {
    if opts.sinceCursor.Some? {
      ReadIsLogSuffix(w, opts.sinceCursor.value);
    }
  }

  lemma LastNPush<T>(xs: seq<T>, x: T, n: nat)
    ensures LastN(LastN(xs, n) + [x], n) == LastN(xs + [x], n)
  {
  }

  // ---- Each action keeps the invariant ----

  /** What an append does to the receiving end and the registration of a call. */
  lemma AppendDelivers(w: World, e: QmpEvent, c: Call)
    requires w.buf.last == |w.log| && CallInv(w, c) && c.id.Some?
    ensures var b := Stamp(|w.log| + 1, e);
      var w' := Next(w, Append(e));
      var woken := Listening(w, c) && EventMatches(c.opts.eventName, b);
      && (Listening(w', c) <==> Listening(w, c) && !EventMatches(c.opts.eventName, b))
      && (c.id.value in w'.buf.channels <==> c.id.value in w.buf.channels)
      && (c.id.value in w.buf.channels ==>
            w'.buf.channels[c.id.value] == if woken then Sent(b) else w.buf.channels[c.id.value])
      && (forall wt :: wt in w'.buf.waiters ==> wt in w.buf.waiters)
  {
    hide LastN, Unmatched, Delivered, FirstMatch, EventMatches;
    var b := Stamp(|w.log| + 1, e);
    UnmatchedMembers(w.buf.waiters, b);
    DeliveredChannels(w.buf.channels, w.buf.waiters, b);
    assert Wakes(w.buf.waiters, c.id.value, b) <==> Listening(w, c) && EventMatches(c.opts.eventName, b);
  }

  lemma AppendGrows(w: World, e: QmpEvent, c: Call)
    requires InLog(w, c)
    ensures var b := Stamp(|w.log| + 1, e);
      var w' := Next(w, Append(e));
      && InLog(w', c)
      && Window(w', c) == Window(w, c) + (if c.end.None? then [b] else [])
      && (c.polled.Some? || c.end.Some? ==> Seen(w', c) == Seen(w, c))
  {
    hide LastN, Unmatched, Delivered;
    assert Next(w, Append(e)).log[..c.start] == w.log[..c.start];
  }

  lemma FirstMatchOne(b: BufferedEvent, f: Option<string>)
    ensures FirstMatch([b], f) == if EventMatches(f, b) then Some(b) else None
  {
  }

  lemma AppendKeepsCall(w: World, e: QmpEvent, c: Call)
    requires w.buf.last == |w.log| && CallInv(w, c)
    ensures CallInv(Next(w, Append(e)), c)
  {
    hide LastN, Unmatched, Delivered, FirstMatch, EventMatches;
    var b := Stamp(|w.log| + 1, e);
    AppendGrows(w, e, c);
    FirstMatchConcat(Window(w, c), [b], c.opts.eventName);
    FirstMatchOne(b, c.opts.eventName);
    assert Window(w, c) + [] == Window(w, c);
    if c.id.Some? {
      AppendDelivers(w, e, c);
    }
  }

  lemma AppendKeeps(w: World, e: QmpEvent)
    requires Inv(w)
    ensures Inv(Next(w, Append(e)))
  {
    var b := Stamp(|w.log| + 1, e);
    var w' := Next(w, Append(e));
    assert w'.log[w.base..] == w.log[w.base..] + [b];
    LastNPush(w.log[w.base..], b, w.buf.capacity);
    UnmatchedMembers(w.buf.waiters, b);
    DeliveredChannels(w.buf.channels, w.buf.waiters, b);
    forall k | 0 <= k < |w.calls|
      ensures CallInv(w', w'.calls[k])
    {
      AppendKeepsCall(w, e, w.calls[k]);
    }
  }

  lemma WaitForKeepsCall(w: World, opts: WaitOptions, c: Call)
    requires WaiterInv(w) && CallInv(w, c)
    ensures CallInv(Next(w, WaitFor(opts)), c)
  {
    assert Window(Next(w, WaitFor(opts)), c) == Window(w, c);
  }

  lemma WaitForStartsCall(w: World, opts: WaitOptions)
    requires LogInv(w) && WaiterInv(w)
    ensures CallInv(Next(w, WaitFor(opts)), Next(w, WaitFor(opts)).calls[|w.calls|])
  {
    hide LastN, Newer, EventMatches, Candidates;
    var w' := Next(w, WaitFor(opts));
    var c := w'.calls[|w.calls|];
    CandidatesAreLogSuffix(w, opts);
    assert Window(w', c) == [] && Seen(w', c) == [];
    assert c.candidates + [] == c.candidates;
    if FirstMatch(c.candidates, opts.eventName).None? && !opts.zeroTimeout {
      assert w'.buf.waiters[|w.buf.waiters|] == Waiter(w.buf.nextWaiterId, opts.eventName);
    }
  }

  lemma WaitForKeeps(w: World, opts: WaitOptions)
    requires Inv(w)
    ensures Inv(Next(w, WaitFor(opts)))
  {
    hide LastN, FirstMatch, EventMatches, Newer;
    var w' := Next(w, WaitFor(opts));
    WaitForStartsCall(w, opts);
    forall k | 0 <= k < |w.calls|
      ensures CallInv(w', w'.calls[k])
    {
      WaitForKeepsCall(w, opts, w.calls[k]);
    }
    forall wt | wt in w'.buf.waiters
      ensures exists k :: OwnsWaiter(w'.calls, k, wt)
    {
      if wt in w.buf.waiters {
        var k :| OwnsWaiter(w.calls, k, wt);
        assert OwnsWaiter(w'.calls, k, wt);
      } else {
        assert OwnsWaiter(w'.calls, |w.calls|, wt);
      }
    }
  }

  lemma PollKeepsCall(w: World, k: nat, elapsed: bool)
    requires LogInv(w) && Enabled(w, Poll(k, elapsed)) && CallInv(w, w.calls[k])
    ensures CallInv(Next(w, Poll(k, elapsed)), Next(w, Poll(k, elapsed)).calls[k])
  {
    hide LastN, FirstMatch, WithoutWaiter, EventMatches;
    var w' := Next(w, Poll(k, elapsed));
    var c := w.calls[k];
    assert Window(w', w'.calls[k]) == Window(w, c);
    WithoutWaiterMembers(w.buf.waiters, c.id.value);
    FirstMatchConcat(c.candidates, Window(w, c), c.opts.eventName);
  }

  lemma TimeOutKeepsCall(w: World, k: nat)
    requires LogInv(w) && Enabled(w, TimeOut(k)) && CallInv(w, w.calls[k])
    ensures CallInv(Next(w, TimeOut(k)), Next(w, TimeOut(k)).calls[k])
  {
    hide LastN, FirstMatch, WithoutWaiter, EventMatches;
    var w' := Next(w, TimeOut(k));
    var c := w.calls[k];
    assert Window(w', w'.calls[k]) == Window(w, c) && Seen(w', w'.calls[k]) == Seen(w, c);
    WithoutWaiterMembers(w.buf.waiters, c.id.value);
    FirstMatchConcat(c.candidates, Seen(w, c), c.opts.eventName);
  }

  lemma TimeOutKeepsOther(w: World, k: nat, c: Call)
    requires Enabled(w, TimeOut(k)) && CallInv(w, c)
    requires c.id.Some? ==> c.id != w.calls[k].id
    ensures CallInv(Next(w, TimeOut(k)), c)
  {
    hide FirstMatch, EventMatches, WithoutWaiter;
    assert Window(Next(w, TimeOut(k)), c) == Window(w, c) && Seen(Next(w, TimeOut(k)), c) == Seen(w, c);
    WithoutWaiterMembers(w.buf.waiters, w.calls[k].id.value);
  }

  lemma TimeOutKeeps(w: World, k: nat)
    requires Inv(w) && Enabled(w, TimeOut(k))
    ensures Inv(Next(w, TimeOut(k)))
  {
    hide FirstMatch, EventMatches, WithoutWaiter, LastN, CallInv;
    var w' := Next(w, TimeOut(k));
    TimeOutKeepsCall(w, k);
    forall j | 0 <= j < |w.calls| && j != k
      ensures CallInv(w', w'.calls[j])
    {
      assert w.calls[j].id.Some? ==> w.calls[j].id != w.calls[k].id;
      TimeOutKeepsOther(w, k, w.calls[j]);
    }
    WithoutWaiterMembers(w.buf.waiters, w.calls[k].id.value);
    KeepsOwners(w, w');
  }

  lemma {:induction false} FirstMatchIsMember(xs: seq<BufferedEvent>, f: Option<string>)
    ensures FirstMatch(xs, f) == None <==> forall e :: e in xs ==> !EventMatches(f, e)
    ensures FirstMatch(xs, f).Some? ==>
      exists i :: 0 <= i < |xs| && FirstMatch(xs, f) == Some(xs[i]) && EventMatches(f, xs[i])
        && forall j :: 0 <= j < i ==> !EventMatches(f, xs[j])
  {
    if xs != [] && !EventMatches(f, xs[0]) {
      FirstMatchIsMember(xs[1..], f);
      assert xs == [xs[0]] + xs[1..];
      if FirstMatch(xs[1..], f).Some? {
        var i :| 0 <= i < |xs[1..]| && FirstMatch(xs[1..], f) == Some(xs[1..][i]) && EventMatches(f, xs[1..][i])
          && forall j :: 0 <= j < i ==> !EventMatches(f, xs[1..][j]);
        assert xs[i + 1] == xs[1..][i];
        assert forall j :: 1 <= j < i + 1 ==> xs[j] == xs[1..][j - 1];
      }
    }
  }

  lemma PollKeepsOther(w: World, k: nat, elapsed: bool, c: Call)
    requires Enabled(w, Poll(k, elapsed)) && CallInv(w, c) && CallInv(w, w.calls[k])
    requires c.id.Some? ==> c.id != w.calls[k].id
    ensures CallInv(Next(w, Poll(k, elapsed)), c)
  {
    assert Window(Next(w, Poll(k, elapsed)), c) == Window(w, c);
    WithoutWaiterMembers(w.buf.waiters, w.calls[k].id.value);
  }

  lemma PollKeeps(w: World, k: nat, elapsed: bool)
    requires Inv(w) && Enabled(w, Poll(k, elapsed))
    ensures Inv(Next(w, Poll(k, elapsed)))
  {
    var w' := Next(w, Poll(k, elapsed));
    PollKeepsCall(w, k, elapsed);
    forall j | 0 <= j < |w.calls| && j != k
      ensures CallInv(w', w'.calls[j])
    {
      assert w.calls[j].id.Some? ==> w.calls[j].id != w.calls[k].id;
      PollKeepsOther(w, k, elapsed, w.calls[j]);
    }
    WithoutWaiterMembers(w.buf.waiters, w.calls[k].id.value);
    KeepsOwners(w, w');
  }

  /** Waiters stay owned when none is added and no call changes its id or its filter. */
  lemma KeepsOwners(w: World, w': World)
    requires WaiterInv(w)
    requires |w'.calls| == |w.calls|
    requires forall j :: 0 <= j < |w.calls| ==> w'.calls[j].id == w.calls[j].id && w'.calls[j].opts == w.calls[j].opts
    requires forall wt :: wt in w'.buf.waiters ==> wt in w.buf.waiters
    ensures forall wt :: wt in w'.buf.waiters ==> exists j :: OwnsWaiter(w'.calls, j, wt)
  {
    forall wt | wt in w'.buf.waiters
      ensures exists j :: OwnsWaiter(w'.calls, j, wt)
    {
      var j :| OwnsWaiter(w.calls, j, wt);
      assert OwnsWaiter(w'.calls, j, wt);
    }
  }

  lemma AbandonKeepsCall(w: World, k: nat, j: nat)
    requires Enabled(w, Abandon(k)) && j < |w.calls| && CallInv(w, w.calls[j]) && w.calls[k].id.Some?
    requires j != k && w.calls[j].id.Some? ==> w.calls[j].id != w.calls[k].id
    ensures CallInv(Next(w, Abandon(k)), Next(w, Abandon(k)).calls[j])
  {
    hide FirstMatch, LastN, EventMatches;
    var w' := Next(w, Abandon(k));
    assert Window(w', w'.calls[j]) == Window(w, w.calls[j]) && Seen(w', w'.calls[j]) == Seen(w, w.calls[j]);
  }

  lemma AbandonKeeps(w: World, k: nat)
    requires Inv(w) && Enabled(w, Abandon(k))
    ensures Inv(Next(w, Abandon(k)))
  {
    hide FirstMatch, LastN, EventMatches, CallInv;
    var w' := Next(w, Abandon(k));
    forall j | 0 <= j < |w.calls|
      ensures CallInv(w', w'.calls[j])
    {
      AbandonKeepsCall(w, k, j);
    }
    AbandonKeepsIds(w, k);
    KeepsOwners(w, w');
  }

  lemma AbandonKeepsIds(w: World, k: nat)
    requires Enabled(w, Abandon(k)) && WaiterInv(w)
    ensures var w' := Next(w, Abandon(k));
      && w'.buf.waiters == w.buf.waiters && w'.buf.channels.Keys <= w.buf.channels.Keys
      && |w'.calls| == |w.calls|
      && forall j :: 0 <= j < |w.calls| ==> w'.calls[j].id == w.calls[j].id && w'.calls[j].opts == w.calls[j].opts
  {
  }

  lemma ResetKeeps(w: World)
    requires Inv(w)
    ensures Inv(Next(w, Reset))
  {
    var w' := Next(w, Reset);
    forall j | 0 <= j < |w.calls|
      ensures CallInv(w', w'.calls[j])
    {
      var c := w.calls[j];
      assert CallInv(w, c) && Window(w', w'.calls[j]) == Window(w, c);
      assert c.id.Some? ==> (HasWaiter(w.buf.waiters, c.id.value) <==> Listening(w, c));
    }
  }

  lemma StepKeeps(w: World, step: Step)
    requires Inv(w)
    ensures Inv(Next(w, step))
  {
    if Enabled(w, step) {
      match step
      case Append(e) => AppendKeeps(w, e);
      case WaitFor(opts) => WaitForKeeps(w, opts);
      case Poll(k, elapsed) => PollKeeps(w, k, elapsed);
      case TimeOut(k) => TimeOutKeeps(w, k);
      case Abandon(k) => AbandonKeeps(w, k);
      case Reset => ResetKeeps(w);
    }
  }

  lemma {:induction false} RunKeeps(w: World, steps: seq<Step>)
    requires Inv(w)
    ensures Inv(Run(w, steps))
    decreases |steps|
  {
    if steps != [] {
      StepKeeps(w, steps[0]);
      RunKeeps(Next(w, steps[0]), steps[1..]);
    }
  }

  lemma InitialInv(capacity: nat)
    ensures Inv(Initial(capacity))
  {
  }

  // ---- What holds in every run ----

  /** The ring refines the log: it is always the log's last min(capacity, appended since reset)
      events, consecutively numbered up to the cursor. */
  lemma RingRefinesLog(capacity: nat, steps: seq<Step>)
    ensures var w := Run(Initial(capacity), steps);
      && w.buf.capacity == capacity
      && w.buf.last == |w.log|
      && |w.buf.events| == (if |w.log| - w.base <= capacity then |w.log| - w.base else capacity)
      && w.buf.events == w.log[|w.log| - |w.buf.events|..]
      && forall i :: 0 <= i < |w.buf.events| ==> w.buf.events[i].seqNo == w.buf.last - |w.buf.events| + 1 + i
  {
    InitialInv(capacity);
    RunKeeps(Initial(capacity), steps);
    RunKeepsCapacity(Initial(capacity), steps);
  }

  lemma {:induction false} RunKeepsCapacity(w: World, steps: seq<Step>)
    ensures Run(w, steps).buf.capacity == w.buf.capacity
    decreases |steps|
  {
    if steps != [] {
      RunKeepsCapacity(Next(w, steps[0]), steps[1..]);
    }
  }

  /** The log only grows, calls are never forgotten, and a settled call never settles again. */
  lemma {:induction false} RunExtends(w: World, steps: seq<Step>)
    ensures var w' := Run(w, steps);
      && w.log <= w'.log
      && |w.calls| <= |w'.calls|
      && forall k :: 0 <= k < |w.calls| && w.calls[k].status.Settled? ==>
           w'.calls[k].status == w.calls[k].status
    decreases |steps|
  {
    if steps != [] {
      RunExtends(Next(w, steps[0]), steps[1..]);
    }
  }

  /** Everything a long-poll was offered: a contiguous stretch of the log, from the first retained
      event after its cursor to the moment it was settled or reset. */
  ghost function Offered(w: World, c: Call): seq<BufferedEvent>
    requires InLog(w, c)
  {
    c.candidates + Window(w, c)
  }

  ghost predicate Smallest(xs: seq<BufferedEvent>, f: Option<string>, b: BufferedEvent) {
    b in xs && EventMatches(f, b) && forall e :: e in xs && EventMatches(f, e) ==> b.seqNo <= e.seqNo
  }

  /** In a stretch of the log the first match has the smallest number. */
  lemma {:induction false} FirstMatchIsSmallest(xs: seq<BufferedEvent>, f: Option<string>, n: nat)
    requires forall i :: 0 <= i < |xs| ==> xs[i].seqNo == n + i
    ensures match FirstMatch(xs, f)
      case Some(b) => Smallest(xs, f, b)
      case None => forall e :: e in xs ==> !EventMatches(f, e)
  {
    if xs != [] {
      assert xs == [xs[0]] + xs[1..];
      if EventMatches(f, xs[0]) {
        assert forall e :: e in xs ==> exists i :: 0 <= i < |xs| && e == xs[i];
      } else {
        FirstMatchIsSmallest(xs[1..], f, n + 1);
      }
    }
  }

  /** What was appended after its receiver was last polled, while its waiter was still registered. */
  ghost function Missed(w: World, c: Call): seq<BufferedEvent>
    requires InLog(w, c)
  {
    w.log[SeenEnd(w, c)..if c.end.Some? then c.end.value else |w.log|]
  }

  lemma OfferedIsLogSlice(w: World, c: Call)
    requires LogInv(w) && InLog(w, c)
    ensures forall i :: 0 <= i < |Offered(w, c)| ==> Offered(w, c)[i].seqNo == c.start - |c.candidates| + 1 + i
    ensures Offered(w, c) == c.candidates + Seen(w, c) + Missed(w, c)
    ensures c.end.Some? ==> forall e :: e in Offered(w, c) ==> e.seqNo <= c.end.value
  {
    hide LastN;
    var end := if c.end.Some? then c.end.value else |w.log|;
    assert Offered(w, c) == w.log[c.start - |c.candidates|..end];
    assert Window(w, c) == Seen(w, c) + Missed(w, c);
  }

  lemma NoMatch(xs: seq<BufferedEvent>, f: Option<string>)
    requires FirstMatch(xs, f) == None
    ensures forall e :: e in xs ==> !EventMatches(f, e)
  {
    FirstMatchIsMember(xs, f);
  }

  /** A settled long-poll holds the smallest-numbered matching event it was offered, or it timed out.
      One that timed out was offered no match, except exactly for one appended between the last poll
      of its receiver and its timeout; its cursor is past all it was offered. */
  lemma LongPollSettlesWithFirstMatch(capacity: nat, steps: seq<Step>, k: nat)
    requires k < |Run(Initial(capacity), steps).calls|
    requires Run(Initial(capacity), steps).calls[k].status.Settled?
    ensures var w := Run(Initial(capacity), steps);
      var c := w.calls[k];
      var r := c.status.result;
      && InLog(w, c)
      && Offered(w, c) == c.candidates + Seen(w, c) + Missed(w, c)
      && (r.timedOut <==> r.event.None?)
      && (r.timedOut ==>
            && (forall e :: e in Offered(w, c) && EventMatches(c.opts.eventName, e) ==> e in Missed(w, c))
            && (forall e :: e in c.candidates + Seen(w, c) ==> !EventMatches(c.opts.eventName, e))
            && (forall e :: e in Offered(w, c) ==> e.seqNo <= r.cursor))
      && (r.event.Some? ==>
            && r.cursor == r.event.value.seqNo
            && Smallest(Offered(w, c), c.opts.eventName, r.event.value))
  {
    hide Run, FirstMatch, LastN, EventMatches;
    InitialInv(capacity);
    RunKeeps(Initial(capacity), steps);
    var w := Run(Initial(capacity), steps);
    var c := w.calls[k];
    assert CallInv(w, c);
    OfferedIsLogSlice(w, c);
    if c.status.result.timedOut {
      NoMatch(c.candidates + Seen(w, c), c.opts.eventName);
    } else {
      FirstMatchIsSmallest(Offered(w, c), c.opts.eventName, c.start - |c.candidates| + 1);
    }
  }

  /** A wait for a name is answered by the first event of that name it was offered, and by no other; one
      that timed out had been shown none of that name. */
  lemma NamedWaitGetsItsName(capacity: nat, steps: seq<Step>, k: nat, name: string)
    requires k < |Run(Initial(capacity), steps).calls|
    requires Run(Initial(capacity), steps).calls[k].status.Settled?
    requires Run(Initial(capacity), steps).calls[k].opts.eventName == Some(name)
    ensures var w := Run(Initial(capacity), steps);
      var c := w.calls[k];
      var r := c.status.result;
      && InLog(w, c)
      && (r.event.Some? ==>
            && r.event.value in Offered(w, c) && r.event.value.event == name
            && forall e :: e in Offered(w, c) && e.event == name ==> r.event.value.seqNo <= e.seqNo)
      && (r.timedOut ==> forall e :: e in c.candidates + Seen(w, c) ==> e.event != name)
      && (r.timedOut <==> r.event.None?)
  {
    hide Run, FirstMatch, LastN;
    LongPollSettlesWithFirstMatch(capacity, steps, k);
    var c := Run(Initial(capacity), steps).calls[k];
    assert forall e: BufferedEvent :: EventMatches(c.opts.eventName, e) <==> e.event == name;
  }

  /** A wait for any event is answered by the very first one it was offered; one that timed out had been
      shown none at all. */
  lemma UnnamedWaitGetsTheFirst(capacity: nat, steps: seq<Step>, k: nat)
    requires k < |Run(Initial(capacity), steps).calls|
    requires Run(Initial(capacity), steps).calls[k].status.Settled?
    requires Run(Initial(capacity), steps).calls[k].opts.eventName == None
    ensures var w := Run(Initial(capacity), steps);
      var c := w.calls[k];
      var r := c.status.result;
      && InLog(w, c)
      && (r.event.Some? ==> Offered(w, c) != [] && r.event.value == Offered(w, c)[0])
      && (r.timedOut ==> c.candidates + Seen(w, c) == [])
      && (r.timedOut <==> r.event.None?)
  {
    hide Run, FirstMatch, LastN;
    LongPollSettlesWithFirstMatch(capacity, steps, k);
    InitialInv(capacity);
    RunKeeps(Initial(capacity), steps);
    var w := Run(Initial(capacity), steps);
    var c := w.calls[k];
    OfferedIsLogSlice(w, c);
    var shown := c.candidates + Seen(w, c);
    assert forall e: BufferedEvent :: EventMatches(None, e);
    assert shown == [] || shown[0] in shown;
  }

  predicate Asked(opts: WaitOptions, e: BufferedEvent) {
    opts.eventName.Some? ==> opts.eventName.value == e.event
  }

  /** What a wait does at once: it is offered exactly the retained events past its cursor, or none without
      a cursor; it settles on the spot exactly if one of them was asked for or its timeout is zero, and
      waits otherwise. */
  lemma WaitForOutcome(capacity: nat, steps: seq<Step>, opts: WaitOptions)
    ensures var w := Run(Initial(capacity), steps);
      var w' := Next(w, WaitFor(opts));
      && |w'.calls| == |w.calls| + 1
      && var c := w'.calls[|w.calls|];
      && c.opts == opts
      && (forall e :: e in c.candidates <==>
            opts.sinceCursor.Some? && e in w.buf.events && e.seqNo > opts.sinceCursor.value)
      && var hit := exists e :: e in c.candidates && Asked(opts, e);
      && c.status.Settled? == (hit || opts.zeroTimeout)
      && (c.status.Settled? && !hit ==> c.status.result == WaitResult(true, None, |w.log|))
      && (!c.status.Settled? ==> c.status == Waiting && Waiter(c.id.value, opts.eventName) in w'.buf.waiters)
      && w'.log == w.log && w'.buf.events == w.buf.events
  {
    hide Run, LastN;
    InitialInv(capacity);
    RunKeeps(Initial(capacity), steps);
    var w := Run(Initial(capacity), steps);
    var candidates := Candidates(w.buf, opts);
    FirstMatchIsMember(candidates, opts.eventName);
    assert forall e: BufferedEvent :: EventMatches(opts.eventName, e) <==> Asked(opts, e);
    if opts.sinceCursor.Some? {
      CandidatesAreNewer(w, opts.sinceCursor.value);
    }
  }

  lemma CandidatesAreNewer(w: World, since: nat)
    requires LogInv(w)
    ensures forall e :: e in Newer(w.buf.events, since) <==> e in w.buf.events && e.seqNo > since
  {
    var picks := NewerSelects(w.buf.events, since);
    var chosen := Newer(w.buf.events, since);
    forall e | e in w.buf.events && e.seqNo > since
      ensures e in chosen
    {
      var k: nat :| k < |w.buf.events| && w.buf.events[k] == e;
      var i :| 0 <= i < |picks| && picks[i] == k;
      assert chosen[i] == e;
    }
  }

  /** The events appended by a run, in order. */
  function Appends(steps: seq<Step>): seq<QmpEvent>
    decreases |steps|
  {
    if steps == [] then [] else (if steps[0].Append? then [steps[0].e] else []) + Appends(steps[1..])
  }

  /** From position `from` on the log has the events `es`, each with its own number, name, data and
      timestamp, and nothing else. */
  ghost predicate Records(log: seq<BufferedEvent>, from: nat, es: seq<QmpEvent>) {
    && |log| == from + |es|
    && forall i :: 0 <= i < |es| ==>
         log[from + i] == BufferedEvent(from + i + 1, es[i].event, es[i].data, es[i].timestamp)
  }

  /** A run adds to the log exactly what was appended, in order. */
  lemma {:induction false} LogIsWhatWasAppended(w: World, steps: seq<Step>)
    ensures w.log <= Run(w, steps).log && Records(Run(w, steps).log, |w.log|, Appends(steps))
    decreases |steps|
  {
    hide Appended, Immediate, Candidates, Registered, Polled, TimedOut, WasReset;
    if steps != [] {
      var w1 := Next(w, steps[0]);
      var log := Run(w, steps).log;
      LogIsWhatWasAppended(w1, steps[1..]);
      if steps[0].Append? {
        RecordsOneMore(log, |w.log|, steps[0].e, Appends(steps[1..]));
      } else {
        assert Appends(steps) == Appends(steps[1..]) && w1.log == w.log;
      }
    }
  }

  lemma RecordsOneMore(log: seq<BufferedEvent>, from: nat, e: QmpEvent, es: seq<QmpEvent>)
    requires Records(log, from + 1, es) && log[from] == BufferedEvent(from + 1, e.event, e.data, e.timestamp)
    ensures Records(log, from, [e] + es)
  {
    forall i | 0 <= i < |es| + 1
      ensures var x := ([e] + es)[i]; log[from + i] == BufferedEvent(from + i + 1, x.event, x.data, x.timestamp)
    {
      if i > 0 {
        assert ([e] + es)[i] == es[i - 1] && log[from + i] == log[from + 1 + (i - 1)];
      }
    }
  }

  /** A match can be missed so: the wait times out with a cursor that pages past the event. */
  lemma MissedMatchExample(e: QmpEvent)
    ensures var w := Run(Initial(1), [WaitFor(WaitOptions(None, false, None)), Poll(0, true), Append(e), TimeOut(0)]);
      && |w.calls| == 1 && w.calls[0].status == Settled(WaitResult(true, None, 1))
      && w.log == w.buf.events == [Stamp(1, e)] && ReadOf(w.buf, Some(1)).events == []
  {
    var w0 := Initial(1);
    var opts := WaitOptions(None, false, None);
    var w1 := Next(w0, WaitFor(opts));
    assert w1.calls == [Call(opts, [], 0, None, None, Some(1), Waiting)] && w1.buf.waiters == [Waiter(1, None)];
    var w2 := Next(w1, Poll(0, true));
    assert w2.calls[0].status == Expiring && w2.buf.channels == map[];
    var w3 := Next(w2, Append(e));
    assert [Waiter(1, None)][1..] == [] && Unmatched([], Stamp(1, e)) == [];
    assert [] + [Stamp(1, e)] == [Stamp(1, e)];
    assert w3.buf.waiters == [] && w3.log == [Stamp(1, e)] && w3.buf.events == [Stamp(1, e)] && w3.buf.last == 1;
    var w4 := Next(w3, TimeOut(0));
    RunFour(w0, WaitFor(opts), Poll(0, true), Append(e), TimeOut(0));
    assert Newer([], 1) == [] && [Stamp(1, e)][1..] == [];
  }

  lemma RunFour(w: World, a: Step, b: Step, c: Step, d: Step)
    ensures Run(w, [a, b, c, d]) == Next(Next(Next(Next(w, a), b), c), d)
  {
    assert [a, b, c, d][1..] == [b, c, d] && [b, c, d][1..] == [c, d] && [c, d][1..] == [d] && [d][1..] == [];
    assert Run(Next(Next(Next(Next(w, a), b), c), d), []) == Next(Next(Next(Next(w, a), b), c), d);
    assert Run(Next(Next(Next(w, a), b), c), [d]) == Next(Next(Next(Next(w, a), b), c), d);
    assert Run(Next(Next(w, a), b), [c, d]) == Next(Next(Next(Next(w, a), b), c), d);
  }

  /** A registered waiter never coexists with a matching event appended since it registered. */
  lemma NoWaiterOutlivesAMatch(capacity: nat, steps: seq<Step>, wt: Waiter)
    requires wt in Run(Initial(capacity), steps).buf.waiters
    ensures var w := Run(Initial(capacity), steps);
      exists k :: OwnsWaiter(w.calls, k, wt)
        && w.calls[k].end.None? && w.calls[k].start <= |w.log|
        && forall e :: e in w.log[w.calls[k].start..] ==> !EventMatches(wt.eventName, e)
  {
    InitialInv(capacity);
    RunKeeps(Initial(capacity), steps);
    var w := Run(Initial(capacity), steps);
    var k :| OwnsWaiter(w.calls, k, wt);
    var c := w.calls[k];
    assert CallInv(w, c) && Listening(w, c);
    assert Window(w, c) == w.log[c.start..];
    FirstMatchIsMember(Window(w, c), c.opts.eventName);
  }

  /** A poll of a wait settles it exactly if a match was appended, and sends it to its timeout exactly
      if none was and its timer fired or a reset dropped it. */
  lemma PollSettles(capacity: nat, steps: seq<Step>, k: nat, elapsed: bool)
    requires k < |Run(Initial(capacity), steps).calls|
    requires Run(Initial(capacity), steps).calls[k].status == Waiting
    ensures var w := Run(Initial(capacity), steps);
      var c := w.calls[k];
      var status := Next(w, Poll(k, elapsed)).calls[k].status;
      && Enabled(w, Poll(k, elapsed))
      && InLog(w, c)
      && var matched := exists e :: e in Window(w, c) && EventMatches(c.opts.eventName, e);
      && (status.Settled? <==> matched)
      && (status == Expiring <==> !matched && (elapsed || c.end.Some?))
  {
    InitialInv(capacity);
    RunKeeps(Initial(capacity), steps);
    var w := Run(Initial(capacity), steps);
    var c := w.calls[k];
    assert CallInv(w, c);
    FirstMatchIsMember(Window(w, c), c.opts.eventName);
  }

  /** Paging: a read from an earlier cursor returns a suffix of what was appended since, repeats
      nothing, accounts for every event it skips, and misses nothing exactly when at most `capacity`
      events were appended and no reset dropped any of them. */
  lemma ChainedReads(capacity: nat, before: seq<Step>, between: seq<Step>, since: Option<nat>)
    ensures var w := Run(Initial(capacity), before);
      var w' := Run(w, between);
      Pages(w, w', ReadOf(w.buf, since), ReadOf(w'.buf, Some(w.buf.last)))
  {
    InitialInv(capacity);
    var w := Run(Initial(capacity), before);
    RunKeeps(Initial(capacity), before);
    RunKeeps(w, between);
    RunKeepsCapacity(w, between);
    RunExtends(w, between);
    ReadPages(w, Run(w, between), since);
  }

  ghost predicate Pages(w: World, w': World, r: ReadResult, r': ReadResult) {
    && w.log <= w'.log
    && r.cursor == |w.log| && r'.cursor == |w'.log|
    && var recent := w'.log[|w.log|..];
       var missed := |recent| - |r'.events|;
    && 0 <= missed
    && r'.events == recent[missed..]
    && (forall e :: e in recent[..missed] ==> e !in w'.buf.events)
    && (forall e :: e in r.events ==> e !in r'.events)
    && (missed == 0 <==> |recent| <= w.buf.capacity && w'.base <= r.cursor)
  }

  lemma ReadPages(w: World, w': World, since: Option<nat>)
    requires LogInv(w) && LogInv(w') && w.log <= w'.log && w.buf.capacity == w'.buf.capacity
    ensures Pages(w, w', ReadOf(w.buf, since), ReadOf(w'.buf, Some(|w.log|)))
  {
    hide Newer, LastN;
    var from := ReadFrom(w', |w.log|);
    ReadIsOld(w, since);
    Retained(w');
    assert forall e :: e in w'.log[|w.log|..from] ==> e !in w'.buf.events by {
      SliceNumbers(w'.log, |w.log|, from);
      SliceNumbers(w'.log, |w'.log| - |w'.buf.events|, |w'.log|);
    }
    assert forall e :: e in ReadOf(w.buf, since).events ==> e !in w'.log[from..|w'.log|] by {
      SliceNumbers(w'.log, from, |w'.log|);
    }
    assert from == |w.log| <==> |w'.log| - |w.log| <= w.buf.capacity && w'.base <= |w.log|;
  }

  /** How many events the ring retains, and which. */
  lemma Retained(w: World)
    requires LogInv(w)
    ensures var n := |w.log| - w.base;
      |w.buf.events| == if n <= w.buf.capacity then n else w.buf.capacity
    ensures w.buf.events == w.log[|w.log| - |w.buf.events|..|w.log|]
  {
  }

  lemma Tails<T>(xs: seq<T>, n: nat, from: nat)
    requires n <= from <= |xs|
    ensures xs[from..] == xs[from..|xs|]
    ensures xs[n..][..from - n] == xs[n..from]
    ensures xs[n..][from - n..] == xs[from..|xs|]
  {
  }

  /** A read from cursor `n` starts at log position `from`: at `n`, or at the oldest retained event. */
  lemma ReadFrom(w: World, n: nat) returns (from: nat)
    requires LogInv(w) && n <= |w.log|
    ensures var oldest := |w.log| - |w.buf.events|;
      && from == (if oldest <= n then n else oldest) <= |w.log|
      && w.buf.events == w.log[oldest..|w.log|]
      && w.log[n..][..from - n] == w.log[n..from]
      && w.log[n..][from - n..] == w.log[from..|w.log|]
      && ReadOf(w.buf, Some(n)).events == w.log[from..|w.log|]
  {
    hide Newer, LastN;
    ReadIsLogSuffix(w, n);
    Retained(w);
    var oldest := |w.log| - |w.buf.events|;
    from := if oldest <= n then n else oldest;
    Tails(w.log, n, from);
  }

  lemma SliceNumbers(log: seq<BufferedEvent>, lo: nat, hi: nat)
    requires lo <= hi <= |log|
    requires forall i :: 0 <= i < |log| ==> log[i].seqNo == i + 1
    ensures forall e :: e in log[lo..hi] ==> lo < e.seqNo <= hi
  {
  }

  lemma ReadIsOld(w: World, since: Option<nat>)
    requires LogInv(w)
    ensures forall e :: e in ReadOf(w.buf, since).events ==> e.seqNo <= |w.log|
  {
    if since.Some? {
      ReadIsLogSuffix(w, since.value);
    }
  }
}
