/**
 What the write lock of the QMP client holds up: nothing times a write, and a `close`
 waits for the lock before it fails all.
 */
module QmpWriteLocks {
  import opened Wrappers
  import opened QmpClients
  import opened QmpProtocols

  // ---- The holder ----

  predicate Holds(c: Call) {
    c.pc == Writing || c.pc == Unwinding
  }

  /** The lock is held by exactly the call that writes or unwinds, */
  ghost predicate CallLockInv(w: World) {
    && (forall k :: 0 <= k < |w.calls| ==> (Holds(w.calls[k]) <==> w.lock == HeldByCall(k)))
    && (w.lock.HeldByCall? ==> w.lock.k < |w.calls|)
  }

  /** or the close that shuts down. */
  ghost predicate CloseLockInv(w: World) {
    && (forall j :: 0 <= j < |w.closes| ==> (w.closes[j] == Shutting <==> w.lock == HeldByClose(j)))
    && (w.lock.HeldByClose? ==> w.lock.j < |w.closes|)
  }

  ghost predicate LockInv(w: World) {
    CallLockInv(w) && CloseLockInv(w)
  }

  lemma PollKeepsCallLock(w: World, k: nat, elapsed: bool)
    requires LockInv(w)
    ensures CallLockInv(Next(w, Poll(k, elapsed)))
  {
  }

  lemma StepKeepsCallLock(w: World, step: Step)
    requires LockInv(w)
    ensures CallLockInv(Next(w, step))
  {
    if step.Poll? {
      PollKeepsCallLock(w, step.k, step.elapsed);
    } else {
      PlainStepKeepsCallLock(w, step);
    }
  }

  lemma PlainStepKeepsCallLock(w: World, step: Step)
    requires LockInv(w) && !step.Poll?
    ensures CallLockInv(Next(w, step))
  {
    hide Polled;
  }

  lemma StepKeepsCloseLock(w: World, step: Step)
    requires LockInv(w)
    ensures CloseLockInv(Next(w, step))
  {
  }

  lemma StepKeepsLock(w: World, step: Step)
    requires LockInv(w)
    ensures LockInv(Next(w, step))
  {
    hide Next, CallLockInv, CloseLockInv;
    StepKeepsCallLock(w, step);
    StepKeepsCloseLock(w, step);
  }

  lemma {:induction false} RunKeepsLock(w: World, steps: seq<Step>)
    requires LockInv(w)
    ensures LockInv(Run(w, steps))
    decreases |steps|
  {
    if steps != [] {
      StepKeepsLock(w, steps[0]);
      RunKeepsLock(Next(w, steps[0]), steps[1..]);
    }
  }

  /** The write lock is never held twice: in every run at most one call writes or unwinds, and none
      while a close shuts down. */
  lemma OneWriter(steps: seq<Step>)
    ensures var w := Run(Initial(), steps);
      && (forall i, k :: 0 <= i < |w.calls| && 0 <= k < |w.calls| && Holds(w.calls[i]) && Holds(w.calls[k]) ==> i == k)
      && (forall k, j :: 0 <= k < |w.calls| && 0 <= j < |w.closes| ==> !(Holds(w.calls[k]) && w.closes[j] == Shutting))
  {
    RunKeepsLock(Initial(), steps);
  }

  // ---- A write is not timed ----

  /** The write of call `k` ends, or its caller drops it. */
  predicate EndsWriting(step: Step, k: nat) {
    step == DropCall(k) || (step.Write? && step.k == k)
  }

  ghost predicate NoEnd(steps: seq<Step>, k: nat) {
    forall i :: 0 <= i < |steps| ==> !EndsWriting(steps[i], k)
  }

  /** The write of call `k` is behind it. */
  predicate PastWriting(w: World, k: nat) {
    k < |w.calls| && !(w.calls[k].pc in {Checking, Allocating, Inserting, Queued, Writing})
  }

  lemma WritingEndsOnlyBy(w: World, step: Step, k: nat)
    requires At(w, k, Writing)
    ensures if EndsWriting(step, k) then PastWriting(Next(w, step), k) else At(Next(w, step), k, Writing)
  {
  }

  lemma StaysPastWriting(w: World, step: Step, k: nat)
    requires PastWriting(w, k)
    ensures PastWriting(Next(w, step), k)
  {
  }

  lemma {:induction false} RunStaysPastWriting(w: World, steps: seq<Step>, k: nat)
    requires PastWriting(w, k)
    ensures PastWriting(Run(w, steps), k)
    decreases |steps|
  {
    if steps != [] {
      StaysPastWriting(w, steps[0], k);
      RunStaysPastWriting(Next(w, steps[0]), steps[1..], k);
    }
  }

  lemma NoEndTail(steps: seq<Step>, k: nat)
    requires steps != []
    ensures NoEnd(steps, k) <==> !EndsWriting(steps[0], k) && NoEnd(steps[1..], k)
  {
    assert forall i :: 1 <= i < |steps| ==> steps[i] == steps[1..][i - 1];
    assert forall i :: 0 <= i < |steps[1..]| ==> steps[1..][i] == steps[i + 1];
  }

  /** Nothing bounds a write: through any run, whatever timers, replies and closes it has, a command is
      still in its write exactly if that write has not ended and its caller has not dropped it. */
  lemma {:induction false} WritingIsUntimed(w: World, steps: seq<Step>, k: nat)
    requires At(w, k, Writing)
    ensures if NoEnd(steps, k) then At(Run(w, steps), k, Writing) else PastWriting(Run(w, steps), k)
    decreases |steps|
  {
    hide Next, EndsWriting, NoEnd;
    if steps == [] {
      assert NoEnd(steps, k) by { NothingEnds(k); }
    } else {
      NoEndTail(steps, k);
      WritingEndsOnlyBy(w, steps[0], k);
      if EndsWriting(steps[0], k) {
        RunStaysPastWriting(Next(w, steps[0]), steps[1..], k);
      } else {
        WritingIsUntimed(Next(w, steps[0]), steps[1..], k);
      }
    }
  }

  lemma NothingEnds(k: nat)
    ensures NoEnd([], k)
  {
  }

  lemma StepHoldsUpCall(w: World, step: Step, k: nat, q: nat)
    requires LockInv(w) && At(w, k, Writing) && At(w, q, Queued) && !EndsWriting(step, k) && step != DropCall(q)
    ensures At(Next(w, step), q, Queued)
  {
    assert w.lock == HeldByCall(k);
  }

  /** Nor does anything bound the wait for the lock: behind a write that has not ended, a command stays
      queued unless its caller drops it. */
  lemma {:induction false} WriteHoldsUpCalls(w: World, steps: seq<Step>, k: nat, q: nat)
    requires LockInv(w) && At(w, k, Writing) && At(w, q, Queued)
    requires NoEnd(steps, k) && forall i :: 0 <= i < |steps| ==> steps[i] != DropCall(q)
    ensures At(Run(w, steps), q, Queued)
    decreases |steps|
  {
    hide Next, EndsWriting, NoEnd, LockInv;
    if steps != [] {
      NoEndTail(steps, k);
      StepHoldsUpCall(w, steps[0], k, q);
      WritingEndsOnlyBy(w, steps[0], k);
      StepKeepsLock(w, steps[0]);
      WriteHoldsUpCalls(Next(w, steps[0]), steps[1..], k, q);
    }
  }

  // ---- A close waits for it ----

  /** Close `j` has got to its own swap of `closed`. */
  predicate HasSwapped(w: World, j: nat) {
    CloseAt(w, j, Over)
  }

  lemma StepHoldsUp(w: World, step: Step, k: nat, j: nat)
    requires LockInv(w) && At(w, k, Writing) && CloseAt(w, j, Requested) && !EndsWriting(step, k)
    ensures CloseAt(Next(w, step), j, Requested)
  {
  }

  lemma {:induction false} WriteHoldsUpClose(w: World, steps: seq<Step>, k: nat, j: nat)
    requires LockInv(w) && At(w, k, Writing) && CloseAt(w, j, Requested) && NoEnd(steps, k)
    ensures CloseAt(Run(w, steps), j, Requested)
    decreases |steps|
  {
    hide Next, EndsWriting, NoEnd, LockInv;
    if steps != [] {
      NoEndTail(steps, k);
      StepHoldsUp(w, steps[0], k, j);
      WritingEndsOnlyBy(w, steps[0], k);
      StepKeepsLock(w, steps[0]);
      WriteHoldsUpClose(Next(w, steps[0]), steps[1..], k, j);
    }
  }

  lemma RunOne(w: World, step: Step)
    ensures Run(w, [step]) == Next(w, step)
  {
    assert Run(Next(w, step), [step][1..]) == Next(w, step);
  }

  /** A step that releases the lock and leaves no close shutting down. */
  ghost predicate Frees(w: World, step: Step, k: nat) {
    && !EndsWriting(step, k)
    && Next(w, step).lock == Free && |Next(w, step).closes| == |w.closes|
  }

  lemma WriteFrees(w: World, h: nat, k: nat)
    requires At(w, h, Writing) && h != k
    ensures Frees(w, Write(h, true), k)
  {
  }

  lemma UnwindFrees(w: World, h: nat, k: nat)
    requires Inv(w) && At(w, h, Unwinding)
    ensures Frees(w, RemoveUnwritten(h), k)
  {
    assert CallInv(w, h, w.calls[h]);
  }

  lemma ShutdownFrees(w: World, j: nat, k: nat)
    requires CloseAt(w, j, Shutting)
    ensures Frees(w, Shutdown(j), k) && CloseAt(Next(w, Shutdown(j)), j, Failing)
  {
  }

  /** Whoever holds the lock can give it up, without a step of call `k` if that has written. */
  lemma FreeLock(w: World, k: nat, j: nat) returns (steps: seq<Step>)
    requires Inv(w) && LockInv(w) && PastWriting(w, k) && j < |w.closes|
    ensures NoEnd(steps, k) && Run(w, steps).lock == Free
    ensures j < |Run(w, steps).closes| && Run(w, steps).closes[j] != Shutting
  {
    hide Next, Inv, EndsWriting;
    match w.lock
    case Free => steps := [];
    case HeldByClose(j') =>
      steps := [Shutdown(j')];
      ShutdownFrees(w, j', k);
      RunOne(w, Shutdown(j'));
      StepKeepsLock(w, Shutdown(j'));
    case HeldByCall(h) =>
      var step := if At(w, h, Writing) then Write(h, true) else RemoveUnwritten(h);
      if At(w, h, Writing) {
        WriteFrees(w, h, k);
      } else {
        UnwindFrees(w, h, k);
      }
      steps := [step];
      RunOne(w, step);
      StepKeepsLock(w, step);
  }

  lemma LockCloseStep(w: World, j: nat)
    requires w.lock == Free && CloseAt(w, j, Requested)
    ensures CloseAt(Next(w, LockClose(j)), j, Shutting)
  {
  }

  lemma SwapStep(w: World, j: nat)
    requires CloseAt(w, j, Failing)
    ensures HasSwapped(Next(w, SwapClosed(ByClose(j), "")), j)
  {
  }

  /** With the lock free, a close can get to its swap. */
  lemma CloseProceeds(w: World, j: nat, k: nat) returns (steps: seq<Step>)
    requires w.lock == Free && j < |w.closes| && w.closes[j] != Shutting
    ensures NoEnd(steps, k) && HasSwapped(Run(w, steps), j)
  {
    hide Next;
    var swap := SwapClosed(ByClose(j), "");
    match w.closes[j]
    case Over => steps := [];
    case Failing =>
      steps := [swap];
      SwapStep(w, j);
      RunOne(w, swap);
    case Requested =>
      var w1 := Next(w, LockClose(j));
      var w2 := Next(w1, Shutdown(j));
      LockCloseStep(w, j);
      ShutdownFrees(w1, j, k);
      SwapStep(w2, j);
      RunOne(w2, swap);
      steps := [LockClose(j), Shutdown(j), swap];
      assert steps[1..] == [Shutdown(j), swap] && [Shutdown(j), swap][1..] == [swap];
      assert Run(w1, [Shutdown(j), swap]) == Run(w2, [swap]);
  }

  /** A close that was requested while a call writes can get to its own swap, without that write's end,
      exactly if that write has ended or its caller has dropped it meanwhile. */
  lemma CloseWaitsForWrite(w: World, steps: seq<Step>, k: nat, j: nat)
    requires Inv(w) && LockInv(w) && At(w, k, Writing) && CloseAt(w, j, Requested)
    ensures (exists more :: NoEnd(more, k) && HasSwapped(Run(Run(w, steps), more), j)) <==> !NoEnd(steps, k)
  {
    hide Next, EndsWriting, NoEnd, LockInv, Inv, Run;
    var w' := Run(w, steps);
    RunKeeps(w, steps);
    RunKeepsLock(w, steps);
    WritingIsUntimed(w, steps, k);
    if NoEnd(steps, k) {
      WriteHoldsUpClose(w, steps, k, j);
      forall more | NoEnd(more, k)
        ensures !HasSwapped(Run(w', more), j)
      {
        WriteHoldsUpClose(w', more, k, j);
      }
    } else {
      ClosesStay(w, steps);
      var freed := FreeLock(w', k, j);
      var proceed := CloseProceeds(Run(w', freed), j, k);
      RunConcat(w', freed, proceed);
      NoEndConcat(freed, proceed, k);
      assert NoEnd(freed + proceed, k) && HasSwapped(Run(w', freed + proceed), j);
    }
  }

  lemma NoEndConcat(xs: seq<Step>, ys: seq<Step>, k: nat)
    requires NoEnd(xs, k) && NoEnd(ys, k)
    ensures NoEnd(xs + ys, k)
  {
  }

  lemma {:induction false} ClosesStay(w: World, steps: seq<Step>)
    ensures |Run(w, steps).closes| >= |w.closes|
    decreases |steps|
  {
    if steps != [] {
      ClosesStay(Next(w, steps[0]), steps[1..]);
    }
  }

  /** A call in its write and a close requested behind it. */
  lemma WriteThenClose() returns (w: World)
    ensures Reachable(w) && At(w, 0, Writing) && CloseAt(w, 0, Requested)
    ensures w.reader == Reading && w.closer == Idle && !w.shared.closed
  {
    hide Run, Reachable;
    w := Allocated();
    w := Visit(w, Insert(0));
    w := Visit(w, LockWrite(0));
    w := Visit(w, RequestClose);
  }

  lemma FailAllSteps(w: World, why: string) returns (w': World)
    requires Reachable(w) && w.reader == Reading && w.closer == Idle && !w.shared.closed
    ensures Reachable(w') && w'.calls == w.calls && w'.closes == w.closes && w'.closer == Latched
  {
    hide Run, Reachable;
    w' := Visit(w, StopReader);
    w' := Visit(w', SwapClosed(ByReader, why));
    w' := Visit(w', RecordReason);
    w' := Visit(w', Drain);
    w' := Visit(w', LatchExit);
  }

  /** A stuck write, with a requested close held up behind it although the reader has failed all. */
  lemma StuckWriteExample() returns (w: World)
    ensures Reachable(w) && w.closer == Latched && At(w, 0, Writing) && CloseAt(w, 0, Requested)
  {
    w := WriteThenClose();
    w := FailAllSteps(w, "bye");
  }
}
