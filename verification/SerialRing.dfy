/**
 The bounded ring between the serial socket's reader and `read_serial`.

 The class pushes and drains in place; `World` records what the guest produced and
 what every read was given, over any mix of pushes and drains.
 */
module SerialRings {
  import opened Wrappers

  /** The ring after a push: the oldest bytes beyond `cap` are gone. */
  function Pushed(ring: seq<Byte>, data: seq<Byte>, cap: nat): seq<Byte> {
    var all := ring + data;
    if |all| > cap then all[|all| - cap..] else all
  }

  function DrainSize(ring: seq<Byte>, size: nat): nat {
    if size < |ring| then size else |ring|
  }

  class SerialRing {
    const cap: nat
    var ring: seq<Byte>

    constructor (cap: nat)
      ensures this.cap == cap && ring == []
    {
      this.cap, ring := cap, [];
    }

    method PushBounded(data: seq<Byte>)
      modifies this
      ensures ring == Pushed(old(ring), data, cap)
    {
      ring := ring + data;
      var overflow := if |ring| > cap then |ring| - cap else 0;
      if overflow > 0 {
        ring := ring[overflow..];
      }
    }

    method Drain(size: nat) returns (drained: seq<Byte>)
      modifies this
      ensures |drained| == size || (|drained| < size && ring == [])
      ensures drained + ring == old(ring)
      ensures drained == old(ring)[..DrainSize(old(ring), size)]
      ensures ring == old(ring)[DrainSize(old(ring), size)..]
    {
      var take := if size < |ring| then size else |ring|;
      drained := ring[..take];
      ring := ring[take..];
    }
  }

  datatype Op = Push(data: seq<Byte>) | Drain(size: nat)

  /** A read: the bytes it returned and where in the stream they start. */
  datatype Window = Window(start: nat, bytes: seq<Byte>)

  datatype World = World(
    cap: nat, ring: seq<Byte>, produced: seq<Byte>, windows: seq<Window>, evicted: nat)

  function Next(w: World, op: Op): World {
    match op
    case Push(data) =>
      var ring := Pushed(w.ring, data, w.cap);
      w.(ring := ring, produced := w.produced + data, evicted := w.evicted + (|w.ring| + |data| - |ring|))
    case Drain(size) =>
      var take := DrainSize(w.ring, size);
      var start := if |w.produced| < |w.ring| then 0 else |w.produced| - |w.ring|;
      w.(ring := w.ring[take..], windows := w.windows + [Window(start, w.ring[..take])])
  }

  function Run(w: World, ops: seq<Op>): World
    decreases |ops|
  {
    if ops == [] then w else Run(Next(w, ops[0]), ops[1..])
  }

  function Initial(cap: nat): World {
    World(cap, [], [], [], 0)
  }

  /** Where the last read stopped. */
  function ReadUpTo(windows: seq<Window>): nat {
    if windows == [] then 0 else windows[|windows| - 1].start + |windows[|windows| - 1].bytes|
  }

  function Joined(windows: seq<Window>): seq<Byte> {
    if windows == [] then [] else Joined(windows[..|windows| - 1]) + windows[|windows| - 1].bytes
  }

  /** The first byte of the stream that is still held. */
  function HeldFrom(w: World): nat {
    if |w.produced| > w.cap && |w.produced| - w.cap > ReadUpTo(w.windows)
    then |w.produced| - w.cap else ReadUpTo(w.windows)
  }

  /** The ring is the stream from `HeldFrom` on. */
  ghost predicate RingInv(w: World) {
    HeldFrom(w) <= |w.produced| && w.ring == w.produced[HeldFrom(w)..]
  }

  ghost predicate IsWindow(w: World, r: Window) {
    r.start + |r.bytes| <= |w.produced| && r.bytes == w.produced[r.start..r.start + |r.bytes|]
  }

  /** The reads are disjoint windows of the stream, in order. */
  ghost predicate WindowInv(w: World) {
    && (forall i :: 0 <= i < |w.windows| ==> IsWindow(w, w.windows[i]))
    && (forall i, j :: 0 <= i < j < |w.windows| ==>
          w.windows[i].start + |w.windows[i].bytes| <= w.windows[j].start)
  }

  /** Every byte was read, was evicted or is held. */
  ghost predicate Conserved(w: World) {
    && |w.produced| == |Joined(w.windows)| + w.evicted + |w.ring|
    && (w.evicted == 0 ==> w.produced == Joined(w.windows) + w.ring)
  }

  ghost predicate Inv(w: World) {
    RingInv(w) && WindowInv(w) && Conserved(w)
  }

  lemma PushKeepsRing(w: World, data: seq<Byte>)
    requires RingInv(w)
    ensures RingInv(Next(w, Push(data)))
  {
    var w' := Next(w, Push(data));
    assert w.ring + data == w'.produced[HeldFrom(w)..];
  }

  lemma PushKeepsWindows(w: World, data: seq<Byte>)
    requires WindowInv(w)
    ensures WindowInv(Next(w, Push(data)))
  {
    hide Pushed;
    var w' := Next(w, Push(data));
    forall i | 0 <= i < |w.windows|
      ensures IsWindow(w', w.windows[i])
    {
      assert IsWindow(w, w.windows[i]);
    }
  }

  lemma PushConserves(w: World, data: seq<Byte>)
    requires Conserved(w)
    ensures Conserved(Next(w, Push(data)))
  {
    hide Joined;
    if Next(w, Push(data)).evicted == 0 {
      assert w.produced + data == Joined(w.windows) + (w.ring + data);
    }
  }

  lemma PushKeeps(w: World, data: seq<Byte>)
    requires Inv(w)
    ensures Inv(Next(w, Push(data)))
  {
    hide RingInv, WindowInv, Conserved;
    PushKeepsRing(w, data);
    PushKeepsWindows(w, data);
    PushConserves(w, data);
  }

  lemma DrainKeepsRing(w: World, size: nat)
    requires RingInv(w)
    ensures RingInv(Next(w, Drain(size)))
    ensures var take := DrainSize(w.ring, size);
      w.ring[..take] == w.produced[HeldFrom(w)..HeldFrom(w) + take] && |w.produced| - |w.ring| == HeldFrom(w)
  {
  }

  lemma DrainKeepsWindows(w: World, size: nat)
    requires RingInv(w) && WindowInv(w)
    ensures WindowInv(Next(w, Drain(size)))
  {
    var w' := Next(w, Drain(size));
    DrainKeepsRing(w, size);
    forall i | 0 <= i < |w.windows|
      ensures IsWindow(w', w.windows[i]) && w.windows[i].start + |w.windows[i].bytes| <= HeldFrom(w)
    {
      assert IsWindow(w, w.windows[i]);
    }
  }

  lemma DrainKeeps(w: World, size: nat)
    requires Inv(w)
    ensures Inv(Next(w, Drain(size)))
  {
    var w' := Next(w, Drain(size));
    var take := DrainSize(w.ring, size);
    DrainKeepsRing(w, size);
    DrainKeepsWindows(w, size);
    JoinedPush(w.windows, w'.windows[|w.windows|]);
    ConcatSplit(Joined(w.windows), w.ring, take);
  }

  lemma JoinedPush(windows: seq<Window>, r: Window)
    ensures Joined(windows + [r]) == Joined(windows) + r.bytes
  {
    assert (windows + [r])[..|windows|] == windows;
  }

  lemma ConcatSplit(xs: seq<Byte>, ys: seq<Byte>, i: nat)
    requires i <= |ys|
    ensures xs + ys == xs + ys[..i] + ys[i..]
  {
  }

  lemma {:induction false} RunKeeps(w: World, ops: seq<Op>)
    requires Inv(w)
    ensures Inv(Run(w, ops)) && Run(w, ops).cap == w.cap
    decreases |ops|
  {
    if ops != [] {
      match ops[0] {
        case Push(data) => PushKeeps(w, data);
        case Drain(size) => DrainKeeps(w, size);
      }
      RunKeeps(Next(w, ops[0]), ops[1..]);
    }
  }

  /** Over any mix of pushes and drains the ring is the stream from the later of the last read and
      the last `cap` bytes; drains are disjoint in-order windows of the stream; every byte was
      read, evicted or is held; and if none was evicted the drains and the ring spell the stream. */
  lemma RingIsStreamSuffix(cap: nat, ops: seq<Op>)
    ensures var w := Run(Initial(cap), ops);
      && Inv(w)
      && |w.ring| <= cap
      && (w.evicted == 0 <==> w.produced == Joined(w.windows) + w.ring)
  {
    RunKeeps(Initial(cap), ops);
  }

  function PushedBytes(ops: seq<Op>): seq<Byte> {
    if ops == [] then [] else (if ops[0].Push? then ops[0].data else []) + PushedBytes(ops[1..])
  }

  function DrainCount(ops: seq<Op>): nat {
    if ops == [] then 0 else (if ops[0].Drain? then 1 else 0) + DrainCount(ops[1..])
  }

  /** The stream is what was pushed, in order, and there is one read for every drain. */
  lemma {:induction false} StreamIsWhatWasPushed(w: World, ops: seq<Op>)
    ensures Run(w, ops).produced == w.produced + PushedBytes(ops)
    ensures |Run(w, ops).windows| == |w.windows| + DrainCount(ops)
    decreases |ops|
  {
    hide Pushed, DrainSize;
    if ops != [] {
      StreamIsWhatWasPushed(Next(w, ops[0]), ops[1..]);
    }
  }

  /** A read takes what it asked for, or everything if that is less: the bytes held longest, from where
      the ring then starts in the stream; what it leaves is held on, and nothing is evicted. */
  lemma DrainTakesTheOldest(cap: nat, ops: seq<Op>, size: nat)
    ensures var w := Run(Initial(cap), ops);
      var w' := Next(w, Drain(size));
      && |w'.windows| == |w.windows| + 1 && w'.windows[..|w.windows|] == w.windows
      && var r := w'.windows[|w.windows|];
      && (|r.bytes| == size || (|r.bytes| < size && w'.ring == []))
      && r.bytes + w'.ring == w.ring
      && r.start == |w.produced| - |w.ring|
      && w'.produced == w.produced && w'.evicted == w.evicted
  {
    RunKeeps(Initial(cap), ops);
    var w := Run(Initial(cap), ops);
    DrainKeepsRing(w, size);
    ConcatSplit([], w.ring, DrainSize(w.ring, size));
  }
}
