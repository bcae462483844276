/**
 The QMP request/reply protocol over every interleaving of its atomic actions.

 Any number of `execute` calls run concurrently with the reader, with timers, with
 write failures, with callers that drop their call, and with competing closes. The
 check of `closed`, the allocation of the id, the insertion into `pending`, the taking
 of the write lock and the write are separate steps, as are the four actions of
 `fail_all`. A `close` takes the write lock too, before its `fail_all`.
 */
module QmpProtocols {
  import opened Wrappers
  import opened QmpClients

  datatype Outcome = Replied(reply: Reply) | WriteFailed | TimedOut | Closed(reason: string)

  datatype Pc =
    | Checking
    | ReadingReason
    | Allocating
    | Inserting
    | Queued         // waiting for the write lock
    | Writing        // holding it
    | Unwinding      // the write failed; the entry is about to be removed, under the lock
    | Awaiting
    | Expiring       // the timer fired; the entry is about to be removed
    | Finished(outcome: Outcome)
    | Gone           // the caller dropped the call while it was in flight

  /** An `execute` call; `start` is the length of the wire when it entered `pending`. */
  datatype Call = Call(pc: Pc, id: Option<nat>, start: nat)

  /** The progress of the one `fail_all` that won the swap. */
  datatype Closer = Idle | Swapped(reason: string) | Recorded | Cleared | Latched

  datatype WriteLock = Free | HeldByCall(k: nat) | HeldByClose(j: nat)

  /** A call of `close`: it waits for the write lock, shuts the write half down, and fails all. */
  datatype Close = Requested | Shutting | Failing | Over

  /** Who fails all: the reader, once its loop has ended, or a `close`. */
  datatype Closing = ByReader | ByClose(j: nat)

  datatype Reader = Reading | Sending(tx: nat, reply: Reply) | Stopped

  datatype Message = Message(id: nat, reply: Reply)

  /** `wire` is every correlated reply the reader routed, `consumed` the ids it claimed, `reason`
      the reason given by the close that won. */
  datatype World = World(
    shared: State,
    calls: seq<Call>,
    closer: Closer,
    reader: Reader,
    wire: seq<Message>,
    consumed: seq<nat>,
    reason: Option<string>,
    lock: WriteLock,
    closes: seq<Close>)

  datatype Step =
    | Begin
    | CheckClosed(k: nat)
    | ReadReason(k: nat)
    | Allocate(k: nat)
    | Insert(k: nat)
    | LockWrite(k: nat)
    | Write(k: nat, ok: bool)
    | RemoveUnwritten(k: nat)
    | Poll(k: nat, elapsed: bool)
    | RemoveExpired(k: nat)
    | DropCall(k: nat)
    | Receive(m: Message)
    | Deliver
    | StopReader
    | RequestClose
    | LockClose(j: nat)
    | Shutdown(j: nat)
    | SwapClosed(source: Closing, why: string)
    | RecordReason
    | Drain
    | LatchExit

  predicate At(w: World, k: nat, pc: Pc) {
    k < |w.calls| && w.calls[k].pc == pc
  }

  predicate CloseAt(w: World, j: nat, close: Close) {
    j < |w.closes| && w.closes[j] == close
  }

  predicate HasId(w: World, k: nat) {
    k < |w.calls| && w.calls[k].id.Some?
  }

  predicate Enabled(w: World, step: Step) {
    match step
    case Begin => true
    case CheckClosed(k) => At(w, k, Checking)
    case ReadReason(k) => At(w, k, ReadingReason)
    case Allocate(k) => At(w, k, Allocating)
    case Insert(k) => At(w, k, Inserting) && HasId(w, k)
    case LockWrite(k) => At(w, k, Queued) && w.lock == Free
    case Write(k, _) => At(w, k, Writing)
    case RemoveUnwritten(k) => At(w, k, Unwinding) && HasId(w, k)
    case Poll(k, _) => At(w, k, Awaiting) && k in w.shared.channels
    case RemoveExpired(k) => At(w, k, Expiring) && HasId(w, k)
    case DropCall(k) => At(w, k, Queued) || At(w, k, Writing) || At(w, k, Awaiting)
    case Receive(_) => w.reader == Reading
    case Deliver => w.reader.Sending?
    case StopReader => w.reader == Reading
    case RequestClose => true
    case LockClose(j) => CloseAt(w, j, Requested) && w.lock == Free
    case Shutdown(j) => CloseAt(w, j, Shutting)
    case SwapClosed(ByReader, _) => w.reader == Stopped
    case SwapClosed(ByClose(j), _) => CloseAt(w, j, Failing)
    case RecordReason => w.closer.Swapped?
    case Drain => w.closer == Recorded
    case LatchExit => w.closer == Cleared
  }

  function Goto(w: World, k: nat, pc: Pc): World
    requires k < |w.calls|
  {
    w.(calls := w.calls[k := w.calls[k].(pc := pc)])
  }

  /** A finished or dropped call's receiver is gone. */
  function Forget(w: World, k: nat): World {
    w.(shared := w.shared.(channels := w.shared.channels - {k}))
  }

  /** A step that is not enabled leaves the world as it is. */
  function Next(w: World, step: Step): World {
    if !Enabled(w, step) then w else
    match step
    case Begin => w.(calls := w.calls + [Call(Checking, None, 0)])
    case CheckClosed(k) => Goto(w, k, if w.shared.closed then ReadingReason else Allocating)
    case ReadReason(k) => Goto(w, k, Finished(Closed(ReasonOf(w.shared))))
    case Allocate(k) =>
      w.(shared := w.shared.(nextId := w.shared.nextId + 1),
         calls := w.calls[k := Call(Inserting, Some(w.shared.nextId), 0)])
    case Insert(k) =>
      w.(shared := Inserted(w.shared, w.calls[k].id.value, k),
         calls := w.calls[k := w.calls[k].(pc := Queued, start := |w.wire|)])
    case LockWrite(k) => Goto(w, k, Writing).(lock := HeldByCall(k))
    case Write(k, ok) => if ok then Goto(w, k, Awaiting).(lock := Free) else Goto(w, k, Unwinding)
    case RemoveUnwritten(k) =>
      Forget(Goto(w.(shared := Removed(w.shared, w.calls[k].id.value), lock := Free), k, Finished(WriteFailed)), k)
    case Poll(k, elapsed) => Polled(w, k, elapsed)
    case RemoveExpired(k) => Goto(w.(shared := Removed(w.shared, w.calls[k].id.value)), k, Finished(TimedOut))
    case DropCall(k) => Forget(Goto(w, k, Gone).(lock := if At(w, k, Writing) then Free else w.lock), k)
    case Receive(m) =>
      var claimed := m.id in w.shared.pending;
      w.(shared := Taken(w.shared, m.id),
         wire := w.wire + [m],
         consumed := if claimed then w.consumed + [m.id] else w.consumed,
         reader := if claimed then Sending(w.shared.pending[m.id], m.reply) else Reading)
    case Deliver => w.(shared := Delivered(w.shared, w.reader.tx, w.reader.reply), reader := Reading)
    case StopReader => w.(reader := Stopped)
    case RequestClose => w.(closes := w.closes + [Requested])
    case LockClose(j) => w.(lock := HeldByClose(j), closes := w.closes[j := Shutting])
    case Shutdown(j) => w.(lock := Free, closes := w.closes[j := Failing])
    case SwapClosed(source, why) =>
      var w1 := if source.ByClose? then w.(closes := w.closes[source.j := Over]) else w;
      if w.shared.closed then w1
      else w1.(shared := w.shared.(closed := true), closer := Swapped(why), reason := Some(why))
    case RecordReason => w.(shared := w.shared.(closeReason := Some(w.closer.reason)), closer := Recorded)
    case Drain => w.(shared := Drained(w.shared), closer := Cleared)
    case LatchExit => w.(shared := w.shared.(exited := true), closer := Latched)
  }

  /** One poll of the timed receive: a reply or a dropped sender wins over the timer. */
  function Polled(w: World, k: nat, elapsed: bool): World
    requires k < |w.calls| && k in w.shared.channels
  {
    match w.shared.channels[k]
    case Sent(reply) => Forget(Goto(w, k, Finished(Replied(reply))), k)
    case Dropped => Forget(Goto(w, k, ReadingReason), k)
    case Open => if elapsed then Forget(Goto(w, k, Expiring), k) else w
  }

  function Run(w: World, steps: seq<Step>): World
    decreases |steps|
  {
    if steps == [] then w else Run(Next(w, steps[0]), steps[1..])
  }

  function Initial(): World {
    World(Fresh(), [], Idle, Reading, [], [], None, Free, [])
  }

  /** The first reply on the wire that carries `id`. */
  function FirstReply(wire: seq<Message>, id: nat): Option<Reply> {
    if wire == [] then None
    else if wire[0].id == id then Some(wire[0].reply)
    else FirstReply(wire[1..], id)
  }

  // ---- Invariants ----

  /** A call whose entry may still be in `pending`. */
  predicate InFlight(c: Call) {
    c.pc in {Queued, Writing, Unwinding, Awaiting, Expiring, Gone}
  }

  ghost predicate CloserInv(w: World) {
    && (w.shared.closed <==> w.closer != Idle)
    && (w.reason.Some? <==> w.closer != Idle)
    && (w.closer.Swapped? ==> w.reason == Some(w.closer.reason))
    && w.shared.closeReason == (if w.closer == Idle || w.closer.Swapped? then None else w.reason)
    && (w.shared.exited <==> w.closer == Latched)
  }

  ghost predicate IdInv(w: World) {
    && (forall j, k :: 0 <= j < k < |w.calls| && w.calls[j].id.Some? ==> w.calls[j].id != w.calls[k].id)
    && (forall k :: 0 <= k < |w.calls| && w.calls[k].id.Some? ==> w.calls[k].id.value < w.shared.nextId)
  }

  /** Each pending entry is the sender of the in-flight call that carries its id. */
  ghost predicate EntryInv(w: World) {
    forall id :: id in w.shared.pending ==>
      var k := w.shared.pending[id];
      k < |w.calls| && InFlight(w.calls[k]) && w.calls[k].id == Some(id) && id !in w.consumed
  }

  /** The sender in the reader's hands belongs to a call whose entry it took. */
  ghost predicate ReaderInv(w: World) {
    w.reader.Sending? ==>
      var k := w.reader.tx;
      && k < |w.calls| && w.calls[k].id.Some?
      && w.calls[k].id.value !in w.shared.pending
      && !(w.calls[k].pc in {Checking, Allocating, Inserting})
  }

  ghost predicate ReceiverInv(w: World) {
    forall k :: k in w.shared.channels ==> k < |w.calls| && w.calls[k].pc in {Queued, Writing, Unwinding, Awaiting}
  }

  ghost predicate PendingInv(w: World) {
    EntryInv(w) && ReaderInv(w) && ReceiverInv(w)
  }

  /** Every id that was consumed was consumed once, and belongs to a call that had been inserted. */
  ghost predicate ConsumedInv(w: World) {
    && (forall i, j :: 0 <= i < j < |w.consumed| ==> w.consumed[i] != w.consumed[j])
    && (forall id :: id in w.consumed ==> id < w.shared.nextId)
    && (forall k :: 0 <= k < |w.calls| && w.calls[k].pc == Inserting && w.calls[k].id.Some? ==>
          w.calls[k].id.value !in w.consumed)
  }

  ghost predicate CallInv(w: World, k: nat, c: Call) {
    && c.start <= |w.wire|
    && (c.pc in {Inserting, Queued, Writing, Unwinding, Awaiting, Expiring, Gone} ==> c.id.Some?)
    && (c.pc in {Checking, Allocating} ==> c.id.None?)
    && (c.pc in {Queued, Writing, Unwinding, Awaiting} ==> ChannelInv(w, k, c))
    && (c.pc.Finished? && c.pc.outcome.Replied? ==>
          c.id.Some? && FirstReply(w.wire[c.start..], c.id.value) == Some(c.pc.outcome.reply))
    && (c.pc.Finished? && c.pc.outcome.Closed? ==>
          && w.shared.closed
          && (w.reason == Some(c.pc.outcome.reason) || (c.id.None? && c.pc.outcome.reason == CLOSED_FALLBACK)))
    && (c.pc.Finished? && !c.pc.outcome.Closed? ==> c.id.Some?)
    && (c.pc == ReadingReason ==> w.shared.closed && (c.id.Some? ==> w.shared.closeReason.Some?))
  }

  /** An open channel's sender is in `pending`, or in the reader's hands with the first reply;
      a channel holds nothing but that first reply; only the drain leaves it dropped. */
  ghost predicate ChannelInv(w: World, k: nat, c: Call)
    requires c.start <= |w.wire| && c.id.Some?
  {
    && k in w.shared.channels
    && var first := FirstReply(w.wire[c.start..], c.id.value);
    match w.shared.channels[k]
    case Open =>
      if c.id.value in w.shared.pending then w.shared.pending[c.id.value] == k && first == None
      else w.reader.Sending? && w.reader.tx == k && first == Some(w.reader.reply)
    case Sent(reply) =>
      c.id.value !in w.shared.pending && first == Some(reply) && !(w.reader.Sending? && w.reader.tx == k)
    case Dropped =>
      c.id.value !in w.shared.pending && w.closer in {Cleared, Latched} && !(w.reader.Sending? && w.reader.tx == k)
  }

  ghost predicate Inv(w: World) {
    && CloserInv(w) && IdInv(w) && PendingInv(w) && ConsumedInv(w)
    && forall k :: 0 <= k < |w.calls| ==> CallInv(w, k, w.calls[k])
  }

  lemma {:induction false} FirstReplyConcat(xs: seq<Message>, ys: seq<Message>, id: nat)
    ensures FirstReply(xs + ys, id) == if FirstReply(xs, id).Some? then FirstReply(xs, id) else FirstReply(ys, id)
  {
    if xs == [] {
      assert xs + ys == ys;
    } else {
      assert (xs + ys)[1..] == xs[1..] + ys;
      FirstReplyConcat(xs[1..], ys, id);
    }
  }

  lemma InitialInv()
    ensures Inv(Initial())
  {
  }

  /** A call is unaffected by a step that leaves its channel, its entry, the wire and the reader alone. */
  lemma CallFrame(w: World, w': World, k: nat)
    requires k < |w.calls| && k < |w'.calls| && w'.calls[k] == w.calls[k] && CallInv(w, k, w.calls[k])
    requires w'.wire == w.wire && (w'.reader == w.reader || !(w.reader.Sending? || w'.reader.Sending?))
    requires k in w.shared.channels ==> k in w'.shared.channels && w'.shared.channels[k] == w.shared.channels[k]
    requires var id := w.calls[k].id;
      id.Some? ==>
        (if id.value in w.shared.pending
         then id.value in w'.shared.pending && w'.shared.pending[id.value] == w.shared.pending[id.value]
         else id.value !in w'.shared.pending)
    requires w.shared.closed ==> w'.shared.closed && w'.reason == w.reason
    requires w.shared.closeReason.Some? ==> w'.shared.closeReason == w.shared.closeReason
    requires w.closer in {Cleared, Latched} ==> w'.closer in {Cleared, Latched}
    ensures CallInv(w', k, w'.calls[k])
  {
  }

  /** Steps of call `k` that touch nothing of any other call. */
  predicate Own(step: Step, k: nat) {
    match step
    case CheckClosed(j) => j == k
    case ReadReason(j) => j == k
    case Allocate(j) => j == k
    case Insert(j) => j == k
    case LockWrite(j) => j == k
    case Write(j, _) => j == k
    case RemoveUnwritten(j) => j == k
    case Poll(j, _) => j == k
    case RemoveExpired(j) => j == k
    case DropCall(j) => j == k
    case _ => false
  }

  /** All but call `k`, its entry and its channel is as it was. */
  ghost predicate OwnFrame(w: World, w': World, k: nat)
    requires k < |w.calls|
  {
    && |w'.calls| == |w.calls| && (forall j :: 0 <= j < |w.calls| && j != k ==> w'.calls[j] == w.calls[j])
    && w'.wire == w.wire && w'.reader == w.reader && w'.consumed == w.consumed
    && w'.closer == w.closer && w'.reason == w.reason && w'.shared.closed == w.shared.closed
    && w'.shared.closeReason == w.shared.closeReason && w'.shared.exited == w.shared.exited
    && (forall id :: w.calls[k].id != Some(id) ==>
          if id in w.shared.pending then id in w'.shared.pending && w'.shared.pending[id] == w.shared.pending[id]
          else id !in w'.shared.pending)
    && (forall j :: j != k ==>
          if j in w.shared.channels then j in w'.shared.channels && w'.shared.channels[j] == w.shared.channels[j]
          else j !in w'.shared.channels)
  }

  /** What becomes of call `k`, */
  ghost predicate OwnCall(w: World, w': World, k: nat)
    requires k < |w.calls| == |w'.calls|
  {
    var c, c' := w.calls[k], w'.calls[k];
    && (if c.pc == Allocating then c'.id == Some(w.shared.nextId) && w'.shared.nextId == w.shared.nextId + 1
        else c'.id == c.id && w'.shared.nextId == w.shared.nextId)
    && (c'.pc == Inserting <==> c.pc == Allocating)
    && c'.pc != Checking && (c'.pc == Allocating ==> c.pc == Checking)
  }

  /** its entry, */
  ghost predicate OwnEntry(w: World, w': World, k: nat)
    requires k < |w.calls| == |w'.calls|
  {
    var c, c' := w.calls[k], w'.calls[k];
    c.id.Some? && c.id.value in w'.shared.pending ==>
      && w'.shared.pending[c.id.value] == k && InFlight(c')
      && (c.pc == Inserting || c.id.value in w.shared.pending)
  }

  /** and its channel. */
  ghost predicate OwnChannel(w: World, w': World, k: nat)
    requires k < |w'.calls|
  {
    k in w'.shared.channels ==> w'.calls[k].pc in {Queued, Writing, Unwinding, Awaiting}
  }

  lemma OwnStepCall(w: World, step: Step, k: nat)
    requires Enabled(w, step) && Own(step, k)
    ensures OwnCall(w, Next(w, step), k)
  {
  }

  lemma OwnStepEntry(w: World, step: Step, k: nat)
    requires IdInv(w) && EntryInv(w) && Enabled(w, step) && Own(step, k)
    requires k < |w.calls| && CallInv(w, k, w.calls[k])
    ensures OwnEntry(w, Next(w, step), k)
  {
    hide FirstReply;
  }

  lemma OwnStepChannel(w: World, step: Step, k: nat)
    requires ReceiverInv(w) && Enabled(w, step) && Own(step, k)
    ensures OwnChannel(w, Next(w, step), k)
  {
  }

  lemma OwnStepFrame(w: World, step: Step, k: nat)
    requires Inv(w) && Enabled(w, step) && Own(step, k)
    ensures OwnFrame(w, Next(w, step), k)
  {
    hide CallInv, ReaderInv, ReceiverInv, ConsumedInv, CloserInv;
  }

  lemma OwnStepKeepsOthers(w: World, w': World, k: nat, j: nat)
    requires Inv(w) && k < |w.calls| && OwnFrame(w, w', k) && j < |w.calls| && j != k
    ensures CallInv(w', j, w'.calls[j])
  {
    hide CallInv, FirstReply, ConsumedInv, CloserInv, EntryInv, ReaderInv, ReceiverInv;
    assert w.calls[j].id.Some? ==> w.calls[j].id != w.calls[k].id;
    CallFrame(w, w', j);
  }

  lemma PollKeepsSelf(w: World, k: nat, elapsed: bool)
    requires Inv(w) && Enabled(w, Poll(k, elapsed))
    ensures CallInv(Next(w, Poll(k, elapsed)), k, Next(w, Poll(k, elapsed)).calls[k])
  {
    assert CallInv(w, k, w.calls[k]);
  }

  lemma InsertKeepsSelf(w: World, k: nat)
    requires Inv(w) && Enabled(w, Insert(k))
    ensures CallInv(Next(w, Insert(k)), k, Next(w, Insert(k)).calls[k])
  {
    assert CallInv(w, k, w.calls[k]);
  }

  lemma OwnStepKeepsSelf(w: World, step: Step, k: nat)
    requires Inv(w) && Enabled(w, step) && Own(step, k)
    ensures CallInv(Next(w, step), k, Next(w, step).calls[k])
  {
    if step.Poll? {
      PollKeepsSelf(w, k, step.elapsed);
    } else if step.Insert? {
      InsertKeepsSelf(w, k);
    } else if Outside(step) {
      OutsideStepKeepsSelf(w, step, k);
    } else {
      PlainStepKeepsSelf(w, step, k);
    }
  }

  /** The steps of a call that has not inserted its entry, or has let go of it. */
  predicate Outside(step: Step) {
    step.CheckClosed? || step.ReadReason? || step.Allocate? || step.RemoveExpired? || step.RemoveUnwritten?
  }

  lemma OutsideStepKeepsSelf(w: World, step: Step, k: nat)
    requires Inv(w) && Enabled(w, step) && Own(step, k) && Outside(step)
    ensures CallInv(Next(w, step), k, Next(w, step).calls[k])
  {
    hide FirstReply, Polled, Inserted;
    assert CallInv(w, k, w.calls[k]);
  }

  lemma PlainStepKeepsSelf(w: World, step: Step, k: nat)
    requires Inv(w) && Enabled(w, step) && Own(step, k) && !step.Poll? && !step.Insert? && !Outside(step)
    ensures CallInv(Next(w, step), k, Next(w, step).calls[k])
  {
    hide FirstReply, Polled, Inserted;
    assert CallInv(w, k, w.calls[k]);
  }

  lemma OwnStepKeepsIds(w: World, w': World, k: nat)
    requires Inv(w) && k < |w.calls| && OwnFrame(w, w', k)
    requires OwnCall(w, w', k) && OwnEntry(w, w', k) && OwnChannel(w, w', k)
    ensures CloserInv(w') && IdInv(w')
  {
    hide CallInv, EntryInv, ReaderInv, ReceiverInv, ConsumedInv;
  }

  lemma OwnStepKeepsEntries(w: World, w': World, k: nat)
    requires Inv(w) && k < |w.calls| && OwnFrame(w, w', k)
    requires OwnCall(w, w', k) && OwnEntry(w, w', k) && OwnChannel(w, w', k)
    ensures EntryInv(w')
  {
    hide CallInv, CloserInv, ReaderInv, ReceiverInv;
    OwnId(w, k);
    forall id | id in w'.shared.pending
      ensures var j := w'.shared.pending[id];
        j < |w'.calls| && InFlight(w'.calls[j]) && w'.calls[j].id == Some(id) && id !in w'.consumed
    {
      if w.calls[k].id != Some(id) {
        assert id in w.shared.pending;
      }
    }
  }

  lemma OwnStepKeepsRest(w: World, w': World, k: nat)
    requires Inv(w) && k < |w.calls| && OwnFrame(w, w', k)
    requires OwnCall(w, w', k) && OwnEntry(w, w', k) && OwnChannel(w, w', k)
    ensures ReaderInv(w') && ReceiverInv(w') && ConsumedInv(w')
  {
    hide CallInv, CloserInv, EntryInv;
    OwnId(w, k);
  }

  ghost predicate CallId(w: World, k: nat)
    requires k < |w.calls|
  {
    w.calls[k].pc in {Checking, Allocating} ==> w.calls[k].id.None?
  }

  lemma OwnId(w: World, k: nat)
    requires Inv(w) && k < |w.calls|
    ensures CallId(w, k)
  {
    assert CallInv(w, k, w.calls[k]);
  }

  lemma OwnStepKeeps(w: World, step: Step, k: nat)
    requires Inv(w) && Enabled(w, step) && Own(step, k)
    ensures Inv(Next(w, step))
  {
    hide Next, CallInv, CloserInv, IdInv, EntryInv, ConsumedInv, ReaderInv, ReceiverInv, OwnFrame, OwnCall, OwnEntry,
      OwnChannel;
    OwnIndex(w, step, k);
    OwnStepFrame(w, step, k);
    OwnStepCall(w, step, k);
    OwnStepEntry(w, step, k);
    OwnStepChannel(w, step, k);
    OwnStepKeepsIds(w, Next(w, step), k);
    OwnStepKeepsEntries(w, Next(w, step), k);
    OwnStepKeepsRest(w, Next(w, step), k);
    OwnStepKeepsSelf(w, step, k);
    forall j | 0 <= j < |w.calls| && j != k
      ensures CallInv(Next(w, step), j, Next(w, step).calls[j])
    {
      OwnStepKeepsOthers(w, Next(w, step), k, j);
    }
  }

  lemma OwnIndex(w: World, step: Step, k: nat)
    requires Enabled(w, step) && Own(step, k)
    ensures k < |w.calls| == |Next(w, step).calls|
  {
  }

  /** What routing a reply changes. */
  lemma ReceiveEffect(w: World, m: Message)
    requires w.reader == Reading
    ensures var w' := Next(w, Receive(m));
      && w' == w.(shared := w'.shared, wire := w.wire + [m], consumed := w'.consumed, reader := w'.reader)
      && w'.reader == (if m.id in w.shared.pending then Sending(w.shared.pending[m.id], m.reply) else Reading)
      && w'.shared == w.shared.(pending := w.shared.pending - {m.id})
  {
  }

  lemma ReceiveKeepsCall(w: World, m: Message, k: nat)
    requires Inv(w) && w.reader == Reading && k < |w.calls|
    ensures CallInv(Next(w, Receive(m)), k, w.calls[k])
  {
    hide Next, ConsumedInv, CloserInv, ReaderInv, ReceiverInv, FirstReply;
    var c := w.calls[k];
    assert CallInv(w, k, c);
    ReceiveEffect(w, m);
    assert (w.wire + [m])[c.start..] == w.wire[c.start..] + [m];
    if c.id.Some? {
      FirstReplyConcat(w.wire[c.start..], [m], c.id.value);
      FirstReplyOne(m, c.id.value);
    }
  }

  lemma FirstReplyOne(m: Message, id: nat)
    ensures FirstReply([m], id) == if m.id == id then Some(m.reply) else None
  {
  }

  lemma ReceiveKeepsConsumed(w: World, m: Message)
    requires Inv(w) && w.reader == Reading
    ensures ConsumedInv(Next(w, Receive(m)))
  {
    hide Polled, Forget, Goto, Inserted, Removed, Delivered, Drained, ReasonOf, FirstReply, CloserInv;
  }

  lemma ReceiveKeepsPending(w: World, m: Message)
    requires Inv(w) && w.reader == Reading
    ensures PendingInv(Next(w, Receive(m)))
  {
    if m.id in w.shared.pending {
      var k := w.shared.pending[m.id];
      assert InFlight(w.calls[k]);
    }
  }

  lemma ReceiveKeeps(w: World, m: Message)
    requires Inv(w) && w.reader == Reading
    ensures Inv(Next(w, Receive(m)))
  {
    ReceiveKeepsConsumed(w, m);
    ReceiveKeepsPending(w, m);
    forall k | 0 <= k < |w.calls|
      ensures CallInv(Next(w, Receive(m)), k, w.calls[k])
    {
      ReceiveKeepsCall(w, m, k);
    }
  }

  lemma DeliverKeeps(w: World)
    requires Inv(w) && w.reader.Sending?
    ensures Inv(Next(w, Deliver))
  {
    forall k | 0 <= k < |w.calls|
      ensures CallInv(Next(w, Deliver), k, w.calls[k])
    {
      assert CallInv(w, k, w.calls[k]);
    }
  }

  lemma DrainKeeps(w: World)
    requires Inv(w) && w.closer == Recorded
    ensures Inv(Next(w, Drain))
  {
    forall k | 0 <= k < |w.calls|
      ensures CallInv(Next(w, Drain), k, w.calls[k])
    {
      assert CallInv(w, k, w.calls[k]);
    }
  }

  /** Steps that touch no call, no entry and no channel. */
  predicate Other(step: Step) {
    step.Begin? || step.StopReader? || step.RequestClose? || step.LockClose? || step.Shutdown? || step.SwapClosed?
    || step.RecordReason? || step.LatchExit?
  }

  lemma OtherStepFrame(w: World, step: Step)
    requires CloserInv(w) && Enabled(w, step) && Other(step)
    ensures var w' := Next(w, step);
      && CloserInv(w')
      && w'.calls == w.calls + (if step.Begin? then [Call(Checking, None, 0)] else [])
      && w'.wire == w.wire && (w'.reader == w.reader || !(w.reader.Sending? || w'.reader.Sending?))
      && w'.consumed == w.consumed && w'.shared.nextId == w.shared.nextId
      && w'.shared.pending == w.shared.pending && w'.shared.channels == w.shared.channels
      && (w.shared.closed ==> w'.shared.closed && w'.reason == w.reason)
      && (w.shared.closeReason.Some? ==> w'.shared.closeReason == w.shared.closeReason)
      && (w.closer in {Cleared, Latched} ==> w'.closer in {Cleared, Latched})
  {
    hide Inserted, Removed, Taken, Delivered, Drained, Polled, Forget, Goto, ReasonOf;
  }

  lemma OtherStepKeeps(w: World, step: Step)
    requires Inv(w) && Enabled(w, step) && Other(step)
    ensures Inv(Next(w, step))
  {
    hide Next, CallInv, CloserInv, FirstReply;
    var w' := Next(w, step);
    OtherStepFrame(w, step);
    forall k | 0 <= k < |w'.calls|
      ensures CallInv(w', k, w'.calls[k])
    {
      if k < |w.calls| {
        CallFrame(w, w', k);
      } else {
        NewCall(w', k);
      }
    }
  }

  lemma NewCall(w: World, k: nat)
    requires k < |w.calls| && w.calls[k] == Call(Checking, None, 0)
    ensures CallInv(w, k, w.calls[k])
  {
  }

  lemma StepKeeps(w: World, step: Step)
    requires Inv(w)
    ensures Inv(Next(w, step))
  {
    if Enabled(w, step) {
      match step
      case Receive(m) => ReceiveKeeps(w, m);
      case Deliver => DeliverKeeps(w);
      case Drain => DrainKeeps(w);
      case CheckClosed(k) => OwnStepKeeps(w, step, k);
      case ReadReason(k) => OwnStepKeeps(w, step, k);
      case Allocate(k) => OwnStepKeeps(w, step, k);
      case Insert(k) => OwnStepKeeps(w, step, k);
      case LockWrite(k) => OwnStepKeeps(w, step, k);
      case Write(k, _) => OwnStepKeeps(w, step, k);
      case RemoveUnwritten(k) => OwnStepKeeps(w, step, k);
      case Poll(k, _) => OwnStepKeeps(w, step, k);
      case RemoveExpired(k) => OwnStepKeeps(w, step, k);
      case DropCall(k) => OwnStepKeeps(w, step, k);
      case _ => OtherStepKeeps(w, step);
    }
  }

  lemma {:induction false} RunKeeps(w: World, steps: seq<Step>)
    requires Inv(w)
    ensures Inv(Run(w, steps))
    decreases |steps|
  {
    if steps != [] {
      StepKeeps(w, steps[0]);
      RunKeeps(Next(w, steps[0]), steps[1..]);
    }
  }

  // ---- What holds in every run ----

  ghost predicate IsFirst(wire: seq<Message>, from: nat, id: nat, reply: Reply) {
    exists i :: from <= i < |wire| && wire[i] == Message(id, reply) && forall j :: from <= j < i ==> wire[j].id != id
  }

  lemma {:induction false} FirstReplyIsFirst(wire: seq<Message>, from: nat, id: nat)
    requires from <= |wire|
    ensures match FirstReply(wire[from..], id)
      case Some(reply) => IsFirst(wire, from, id, reply)
      case None => forall j :: from <= j < |wire| ==> wire[j].id != id
    decreases |wire| - from
  {
    if from < |wire| && wire[from].id != id {
      assert wire[from..][1..] == wire[from + 1..];
      FirstReplyIsFirst(wire, from + 1, id);
    }
  }

  /** Correlation: ids are never shared, an `execute` that returns a reply returns the first one on
      the wire that carried its own id after it entered `pending`, and no id is consumed twice. */
  lemma RepliesAreCorrelated(steps: seq<Step>)
    ensures var w := Run(Initial(), steps);
      && (forall j, k :: 0 <= j < k < |w.calls| && w.calls[j].id.Some? ==> w.calls[j].id != w.calls[k].id)
      && (forall k :: 0 <= k < |w.calls| && w.calls[k].id.Some? ==> w.calls[k].id.value < w.shared.nextId)
      && (forall i, j :: 0 <= i < j < |w.consumed| ==> w.consumed[i] != w.consumed[j])
      && (forall k, reply :: 0 <= k < |w.calls| && w.calls[k].pc == Finished(Replied(reply)) ==>
            w.calls[k].id.Some? && IsFirst(w.wire, w.calls[k].start, w.calls[k].id.value, reply))
  {
    InitialInv();
    RunKeeps(Initial(), steps);
    var w := Run(Initial(), steps);
    forall k, reply | 0 <= k < |w.calls| && w.calls[k].pc == Finished(Replied(reply))
      ensures w.calls[k].id.Some? && IsFirst(w.wire, w.calls[k].start, w.calls[k].id.value, reply)
    {
      assert CallInv(w, k, w.calls[k]);
      FirstReplyIsFirst(w.wire, w.calls[k].start, w.calls[k].id.value);
    }
  }

  /** Accounting: every id in `pending` is that of exactly the call whose sender it holds, which is
      in flight or was dropped unanswered; a finished call has left nothing behind. */
  lemma PendingIsAccounted(steps: seq<Step>)
    ensures var w := Run(Initial(), steps);
      && (forall id :: id in w.shared.pending ==>
            id < w.shared.nextId && id !in w.consumed
            && w.shared.pending[id] < |w.calls|
            && w.calls[w.shared.pending[id]].id == Some(id)
            && InFlight(w.calls[w.shared.pending[id]]))
      && (forall k :: 0 <= k < |w.calls| && w.calls[k].pc.Finished? && w.calls[k].id.Some? ==>
            w.calls[k].id.value !in w.shared.pending)
  {
    InitialInv();
    RunKeeps(Initial(), steps);
    var w := Run(Initial(), steps);
  }

  ghost predicate CloseKept(w: World, w': World, k: nat) {
    && (w.shared.closed ==> w'.shared.closed && w'.reason == w.reason)
    && (w.shared.closeReason.Some? ==> w'.shared.closeReason == w.shared.closeReason == w.reason)
    && (w.shared.exited ==> w'.shared.exited)
    && (w'.shared.exited ==> w'.shared.closeReason.Some?)
    && (w'.shared.closeReason.Some? ==> w'.shared.closed)
    && (w.shared.closed && Refused(w, k) ==> Refused(w', k))
  }

  /** Call `k` has no id and is not about to get one. */
  predicate Refused(w: World, k: nat) {
    k < |w.calls| && w.calls[k].id.None? && !w.calls[k].pc.Allocating?
  }

  lemma StepKeepsRefused(w: World, step: Step, k: nat)
    requires w.shared.closed && Refused(w, k)
    ensures Refused(Next(w, step), k)
  {
  }

  lemma StepKeepsClose(w: World, step: Step, k: nat)
    requires Inv(w)
    ensures CloseKept(w, Next(w, step), k)
  {
    hide CallInv, IdInv, PendingInv, ConsumedInv, FirstReply, Refused;
    if w.shared.closed && Refused(w, k) {
      StepKeepsRefused(w, step, k);
    }
  }

  /** Closing is final: `closed`, the recorded reason and the exit latch are set once, in that
      order, by one close, and a command that checks after it never gets an id. */
  lemma {:induction false} CloseIsFinal(w: World, steps: seq<Step>, k: nat)
    requires Inv(w)
    ensures CloseKept(w, Run(w, steps), k)
    decreases |steps|
  {
    if steps != [] {
      StepKeepsClose(w, steps[0], k);
      StepKeeps(w, steps[0]);
      CloseIsFinal(Next(w, steps[0]), steps[1..], k);
    }
  }

  /** The drain rejects every outstanding command, but a command that checked before the close may
      still insert its entry afterwards; that entry leaves only by its own write failure, its own
      timeout, or a reply. */
  lemma LateEntryLeavesOnly(w: World, step: Step, id: nat)
    requires Inv(w) && w.closer in {Cleared, Latched}
    requires id in w.shared.pending && id !in Next(w, step).shared.pending
    ensures step == RemoveUnwritten(w.shared.pending[id])
         || step == RemoveExpired(w.shared.pending[id])
         || (step.Receive? && step.m.id == id)
  {
    hide CallInv, FirstReply, ConsumedInv, CloserInv, ReaderInv, ReceiverInv;
    var k := w.shared.pending[id];
    if step.RemoveUnwritten? || step.RemoveExpired? {
      assert w.calls[step.k].id == Some(id) == w.calls[k].id;
    }
  }

  /** What one poll before the timer makes of the channel. */
  lemma PollReads(w: World, k: nat)
    requires At(w, k, Awaiting) && k in w.shared.channels
    ensures var pc := Next(w, Poll(k, false)).calls[k].pc;
      match w.shared.channels[k]
      case Open => pc == Awaiting
      case Sent(reply) => pc == Finished(Replied(reply))
      case Dropped => pc == ReadingReason
  {
  }

  /** The drain drops the channel of a call exactly if its entry is still pending. */
  lemma DroppedByDrain(w: World, k: nat)
    requires Inv(w) && w.closer == Recorded && At(w, k, Awaiting)
    ensures k in w.shared.channels && k in Next(w, Drain).shared.channels
    ensures Next(w, Drain).shared.channels[k] == if EntryPending(w, k) then Dropped else w.shared.channels[k]
    ensures !EntryPending(w, k) ==>
      w.shared.channels[k].Sent? || (w.shared.channels[k] == Open && w.reader.Sending? && w.reader.tx == k)
    ensures EntryPending(w, k) ==> !(w.reader.Sending? && w.reader.tx == k)
  {
    hide FirstReply, IdInv, ConsumedInv, ReceiverInv;
    assert CallInv(w, k, w.calls[k]);
    if EntryPending(w, k) {
      assert w.shared.pending[w.calls[k].id.value] == k;
      assert k in w.shared.pending.Values;
    } else {
      assert forall id :: id in w.shared.pending ==> w.shared.pending[id] != k;
    }
  }

  predicate EntryPending(w: World, k: nat) {
    HasId(w, k) && w.calls[k].id.value in w.shared.pending
  }

  /** At its next poll call `k` learns that its sender was dropped. */
  predicate LearnsOfClose(w: World, k: nat) {
    At(Next(w, Poll(k, false)), k, ReadingReason)
  }

  /** Once the reader has delivered what it holds, call `k` gets a reply at its next poll. */
  predicate GetsReply(w: World, k: nat) {
    var delivered := if w.reader.Sending? && w.reader.tx == k then Next(w, Deliver) else w;
    var polled := Next(delivered, Poll(k, false));
    k < |polled.calls| && polled.calls[k].pc.Finished? && polled.calls[k].pc.outcome.Replied?
  }

  /** The drain empties `pending` and rejects exactly the awaiting commands whose entry was still
      there; one whose entry the reader had claimed still gets its reply. */
  lemma DrainRejects(w: World, k: nat)
    requires Inv(w) && w.closer == Recorded && At(w, k, Awaiting)
    ensures Next(w, Drain).shared.pending == map[]
    ensures LearnsOfClose(Next(w, Drain), k) <==> EntryPending(w, k)
    ensures GetsReply(Next(w, Drain), k) <==> !EntryPending(w, k)
  {
    hide Inv;
    var d := Next(w, Drain);
    DroppedByDrain(w, k);
    PollReads(d, k);
    if w.reader.Sending? && w.reader.tx == k {
      PollReads(Next(d, Deliver), k);
    }
  }

  // ---- Entries after the drain ----

  /** Call `k` has passed its check of `closed` and has not inserted its entry yet. */
  predicate InGap(w: World, k: nat) {
    At(w, k, Allocating) || At(w, k, Inserting)
  }

  /** Closed, drained, and nobody left who could insert. */
  ghost predicate Dry(w: World) {
    w.shared.closed && w.shared.pending == map[] && forall k: nat :: !InGap(w, k)
  }

  lemma StepKeepsDry(w: World, step: Step)
    requires Dry(w)
    ensures Dry(Next(w, step))
  {
    var w' := Next(w, step);
    forall k: nat
      ensures !InGap(w', k)
    {
      assert !InGap(w, k);
    }
    assert step.Insert? ==> !InGap(w, step.k);
  }

  lemma {:induction false} RunKeepsDry(w: World, steps: seq<Step>)
    requires Dry(w)
    ensures Dry(Run(w, steps))
    decreases |steps|
  {
    if steps != [] {
      StepKeepsDry(w, steps[0]);
      RunKeepsDry(Next(w, steps[0]), steps[1..]);
    }
  }

  /** A call in the gap is at most two steps from an entry in `pending`. */
  lemma GapInserts(w: World, k: nat) returns (steps: seq<Step>)
    requires Inv(w) && InGap(w, k)
    ensures Run(w, steps).shared.pending != map[]
  {
    assert CallInv(w, k, w.calls[k]);
    if At(w, k, Inserting) {
      steps := [Insert(k)];
      assert Run(w, steps) == Next(w, Insert(k));
      assert w.calls[k].id.value in Next(w, Insert(k)).shared.pending;
    } else {
      var w' := Next(w, Allocate(k));
      steps := [Allocate(k), Insert(k)];
      assert steps[1..] == [Insert(k)];
      assert Run(w', [Insert(k)]) == Next(w', Insert(k));
      assert w'.calls[k].id.value in Next(w', Insert(k)).shared.pending;
    }
  }

  /** The drain empties `pending` for good exactly when no call is between its check of `closed` and
      the insertion of its entry. */
  lemma LateEntryIff(w: World)
    requires Inv(w) && w.closer == Recorded
    ensures var d := Next(w, Drain);
      (exists steps :: Run(d, steps).shared.pending != map[]) <==> (exists k: nat :: InGap(d, k))
  {
    var d := Next(w, Drain);
    DrainKeeps(w);
    if k: nat :| InGap(d, k) {
      var steps := GapInserts(d, k);
    } else {
      forall steps
        ensures Run(d, steps).shared.pending == map[]
      {
        RunKeepsDry(d, steps);
      }
    }
  }

  ghost predicate Reachable(w: World) {
    exists steps :: Run(Initial(), steps) == w
  }

  lemma ReachableNext(w: World, step: Step)
    requires Reachable(w)
    ensures Reachable(Next(w, step))
  {
    var steps :| Run(Initial(), steps) == w;
    RunConcat(Initial(), steps, [step]);
    assert Run(w, [step]) == Next(w, step);
    assert Run(Initial(), steps + [step]) == Next(w, step);
  }

  /** Such a late entry does occur, and outlives the close for as long as its call awaits. */
  lemma LateEntryExample() returns (w: World)
    ensures Reachable(w) && w.closer == Latched && 1 in w.shared.pending && At(w, 0, Awaiting)
  {
    var late := Call(Inserting, Some(1), 0);
    w := LateClose();
    w := Visit(w, Insert(0));
    assert w.shared.pending == map[1 := 0] && w.calls == [late.(pc := Queued)] && w.closer == Latched;
    w := Visit(w, LockWrite(0));
    w := Visit(w, Write(0, true));
  }

  /** A command between the allocation of its id and its insertion. */
  lemma Allocated() returns (w: World)
    ensures Reachable(w)
    ensures w == World(Fresh().(nextId := 2), [Call(Inserting, Some(1), 0)], Idle, Reading, [], [], None, Free, [])
  {
    w := Initial();
    assert Run(w, []) == w;
    w := Visit(w, Begin);
    w := Visit(w, CheckClosed(0));
    w := Visit(w, Allocate(0));
  }

  /** A close that completes there. */
  lemma LateClose() returns (w: World)
    ensures Reachable(w)
    ensures w.shared == State(2, map[], true, Some("bye"), true, map[])
    ensures w.calls == [Call(Inserting, Some(1), 0)] && w.wire == [] && w.closer == Latched && w.lock == Free
  {
    hide Run, Reachable;
    w := Allocated();
    w := Visit(w, StopReader);
    w := Visit(w, SwapClosed(ByReader, "bye"));
    w := Visit(w, RecordReason);
    w := Visit(w, Drain);
    assert w.shared == State(2, map[], true, Some("bye"), false, map[]);
    w := Visit(w, LatchExit);
  }

  lemma Visit(w: World, step: Step) returns (w': World)
    requires Reachable(w)
    ensures w' == Next(w, step) && Reachable(w')
  {
    ReachableNext(w, step);
    w' := Next(w, step);
  }

  lemma {:induction false} RunConcat(w: World, xs: seq<Step>, ys: seq<Step>)
    ensures Run(w, xs + ys) == Run(Run(w, xs), ys)
    decreases |xs|
  {
    if xs == [] {
      assert xs + ys == ys;
    } else {
      assert (xs + ys)[1..] == xs[1..] + ys;
      RunConcat(Next(w, xs[0]), xs[1..], ys);
    }
  }

  /** A rejected command reports the recorded reason, except that one refused by its own check
      between the swap and the recording reports the fallback. */
  lemma ClosedReportsReason(steps: seq<Step>, k: nat)
    requires var w := Run(Initial(), steps); k < |w.calls| && w.calls[k].pc == ReadingReason
    ensures var w := Run(Initial(), steps);
      var w' := Next(w, ReadReason(k));
      && w.reason.Some?
      && w'.calls[k].pc == Finished(Closed(
           if w.closer.Swapped? then "QMP connection is closed." else w.reason.value))
      && (w.calls[k].id.Some? ==> !w.closer.Swapped?)
  {
    InitialInv();
    RunKeeps(Initial(), steps);
    var w := Run(Initial(), steps);
    assert CallInv(w, k, w.calls[k]);
  }

  /** Routing a reply: one that some entry waits for claims it, for good, and goes to the call whose sender
      the entry held, which has it once delivered if it still listens; any other is ignored. */
  lemma ReceiveOutcome(w: World, m: Message)
    requires Inv(w) && w.reader == Reading
    ensures var w' := Next(w, Receive(m));
      if m.id in w.shared.pending then
        var k := w.shared.pending[m.id];
        && k < |w.calls| && w.calls[k].id == Some(m.id)
        && w'.consumed == w.consumed + [m.id] && w'.shared.pending == w.shared.pending - {m.id}
        && var d := Next(w', Deliver);
           d.reader == Reading && d.shared.channels ==
             if k in w.shared.channels then w.shared.channels[k := Sent(m.reply)] else w.shared.channels
      else w' == w.(wire := w.wire + [m])
  {
    hide CallInv, CloserInv, IdInv, ConsumedInv, Polled;
    assert m.id !in w.shared.pending ==> w.shared.pending - {m.id} == w.shared.pending;
  }

  /** The end of a write decides the command: one that went through gives the lock up and awaits its reply
      with its entry in place; one that failed keeps the lock until its entry is out, and then is over,
      with nothing left behind. Either way no other call, entry or channel is touched. */
  lemma WriteOutcome(w: World, k: nat)
    requires Inv(w) && At(w, k, Writing)
    ensures var id := w.calls[k].id;
      var sent := Next(w, Write(k, true));
      var failing := Next(w, Write(k, false));
      var failed := Next(failing, RemoveUnwritten(k));
      && id.Some? && k in w.shared.channels
      && sent == w.(calls := w.calls[k := w.calls[k].(pc := Awaiting)], lock := Free)
      && failing == w.(calls := w.calls[k := w.calls[k].(pc := Unwinding)])
      && failed == w.(
           calls := w.calls[k := w.calls[k].(pc := Finished(WriteFailed))], lock := Free,
           shared := w.shared.(pending := w.shared.pending - {id.value}, channels := w.shared.channels - {k}))
  {
    hide FirstReply, Polled, Inserted, CloserInv, IdInv, ConsumedInv, ReaderInv, ReceiverInv;
    assert CallInv(w, k, w.calls[k]);
  }

  /** Once a command awaits its reply, a silent QEMU cannot hang it: when its timer fires, it is two
      steps from an outcome. */
  lemma AwaitingFailsClosed(steps: seq<Step>, k: nat)
    requires var w := Run(Initial(), steps); k < |w.calls| && w.calls[k].pc == Awaiting
    ensures var w := Run(Initial(), steps);
      var w' := Next(w, Poll(k, true));
      var w'' := Next(w', if w'.calls[k].pc == Expiring then RemoveExpired(k) else ReadReason(k));
      && w''.calls[k].pc.Finished?
      && (w''.calls[k].pc == Finished(TimedOut) <==>
            w.shared.channels[k] == Open)
      && (w.calls[k].id.Some? && w.calls[k].id.value !in w''.shared.pending)
  {
    hide Run, FirstReply, ConsumedInv, IdInv;
    InitialInv();
    RunKeeps(Initial(), steps);
    var w := Run(Initial(), steps);
    assert CallInv(w, k, w.calls[k]);
  }
}
