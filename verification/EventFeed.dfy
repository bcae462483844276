/**
 Whose events the Event Buffer holds: the feeders of successive Instances over every
 interleaving with creates, teardowns and long-polls.

 A feeder is woken, receives and appends any number of events, and yields. Aborting it
 keeps it from being woken again but does not interrupt it between two awaits, so an
 aborted feeder that was already running may still receive and append. Feeder `i`
 belongs to the Instance published as number `i`.
 */
module EventFeeds {
  import opened Wrappers
  import opened EventBuffers
  import L = EventLogs

  datatype Feeder = Feeder(hand: Option<QmpEvent>, running: bool, aborted: bool)

  /** An Instance's stretch of the log, from the reset of its create to that of its teardown, and the
      older feeders that were running at its create. */
  datatype Life = Life(base: nat, end: Option<nat>, running: set<nat>)

  /** `owners` names the feeder of each log entry, `callers` the Instance of each long-poll. */
  datatype World = World(
    ev: L.World, owners: seq<nat>, feeders: seq<Feeder>, lives: seq<Life>, live: bool, callers: seq<nat>)

  datatype Step =
    | Create
    | Teardown
    | Wake(i: nat)
    | Receive(i: nat, e: QmpEvent)
    | AppendHeld(i: nat)
    | Yield(i: nat)
    | WaitFor(opts: WaitOptions)
    | Poll(call: nat, elapsed: bool)
    | TimeOut(call: nat)
    | Abandon(call: nat)

  predicate Enabled(w: World, step: Step) {
    match step
    case Create => !w.live
    case Teardown => w.live && w.lives != [] && |w.feeders| == |w.lives|
    case Wake(i) => i < |w.feeders| && !w.feeders[i].running && !w.feeders[i].aborted
    case Receive(i, _) => i < |w.feeders| && w.feeders[i].running && w.feeders[i].hand.None?
    case AppendHeld(i) => i < |w.feeders| && w.feeders[i].running && w.feeders[i].hand.Some?
    case Yield(i) => i < |w.feeders| && w.feeders[i].running && w.feeders[i].hand.None?
    case WaitFor(_) => w.live && w.lives != []
    case Poll(k, elapsed) => L.Enabled(w.ev, L.Poll(k, elapsed))
    case TimeOut(k) => L.Enabled(w.ev, L.TimeOut(k))
    case Abandon(k) => L.Enabled(w.ev, L.Abandon(k))
  }

  function Running(feeders: seq<Feeder>): set<nat> {
    set j: nat | j < |feeders| && feeders[j].running
  }

  function Next(w: World, step: Step): World {
    if !Enabled(w, step) then w else
    match step
    case Create =>
      w.(ev := L.Next(w.ev, L.Reset), feeders := w.feeders + [Feeder(None, false, false)],
         lives := w.lives + [Life(|w.ev.log|, None, Running(w.feeders))], live := true)
    case Teardown =>
      var i := |w.lives| - 1;
      w.(ev := L.Next(w.ev, L.Reset), feeders := w.feeders[i := w.feeders[i].(aborted := true)],
         lives := w.lives[i := w.lives[i].(end := Some(|w.ev.log|))], live := false)
    case Wake(i) => w.(feeders := w.feeders[i := w.feeders[i].(running := true)])
    case Receive(i, e) => w.(feeders := w.feeders[i := w.feeders[i].(hand := Some(e))])
    case AppendHeld(i) =>
      w.(ev := L.Next(w.ev, L.Append(w.feeders[i].hand.value)), owners := w.owners + [i],
         feeders := w.feeders[i := w.feeders[i].(hand := None)])
    case Yield(i) => w.(feeders := w.feeders[i := w.feeders[i].(running := false)])
    case WaitFor(opts) => w.(ev := L.Next(w.ev, L.WaitFor(opts)), callers := w.callers + [|w.lives| - 1])
    case Poll(k, elapsed) => w.(ev := L.Next(w.ev, L.Poll(k, elapsed)))
    case TimeOut(k) => w.(ev := L.Next(w.ev, L.TimeOut(k)))
    case Abandon(k) => w.(ev := L.Next(w.ev, L.Abandon(k)))
  }

  function Run(w: World, steps: seq<Step>): World
    decreases |steps|
  {
    if steps == [] then w else Run(Next(w, steps[0]), steps[1..])
  }

  function Initial(capacity: nat): World {
    World(L.Initial(capacity), [], [], [], false, [])
  }

  // ---- Invariants ----

  /** Where the stretch of an Instance ends, or has come to. */
  function EndOf(life: Life, n: nat): nat {
    match life.end case Some(end) => end case None => n
  }

  /** Only the current Instance's feeder can be woken, and only its stretch is open. */
  ghost predicate LivesInv(w: World) {
    && |w.feeders| == |w.lives|
    && (w.live ==> w.lives != [] && w.ev.base == w.lives[|w.lives| - 1].base)
    && (forall i :: 0 <= i < |w.lives| ==>
          && (w.lives[i].end.None? <==> w.live && i == |w.lives| - 1)
          && (w.feeders[i].aborted <==> !(w.live && i == |w.lives| - 1))
          && w.lives[i].base <= EndOf(w.lives[i], |w.ev.log|) <= |w.ev.log|)
  }

  /** A feeder that runs past its Instance has been running ever since. */
  ghost predicate FeederInv(w: World) {
    && |w.feeders| == |w.lives|
    && (forall j :: 0 <= j < |w.feeders| && w.feeders[j].hand.Some? ==> w.feeders[j].running)
    && (forall i, j :: 0 <= j < i < |w.lives| && w.feeders[j].running ==> j in w.lives[i].running)
  }

  predicate OwnedOrLate(life: Life, i: nat, owner: nat) {
    owner == i || (owner < i && owner in life.running)
  }

  /** In each Instance's stretch there are its own events and those of feeders that were running at
      its create. */
  ghost predicate OwnerInv(w: World) {
    && |w.owners| == |w.ev.log|
    && forall i, n :: 0 <= i < |w.lives| && w.lives[i].base <= n < EndOf(w.lives[i], |w.ev.log|) && n < |w.owners| ==>
         OwnedOrLate(w.lives[i], i, w.owners[n])
  }

  /** A long-poll is offered events from its Instance's stretch only. */
  ghost predicate CallerInv(w: World) {
    && |w.callers| == |w.ev.calls|
    && forall k :: 0 <= k < |w.callers| ==>
         w.callers[k] < |w.lives| && InLife(w.lives[w.callers[k]], w.ev.calls[k])
  }

  predicate InLife(life: Life, c: L.Call) {
    && life.base + |c.candidates| <= c.start
    && (life.end.Some? ==> c.end.Some? && c.end.value <= life.end.value)
  }

  ghost predicate Inv(w: World) {
    L.Inv(w.ev) && LivesInv(w) && FeederInv(w) && OwnerInv(w) && CallerInv(w)
  }

  lemma InitialInv(capacity: nat)
    ensures Inv(Initial(capacity))
  {
    L.InitialInv(capacity);
  }

  lemma StepKeepsLog(w: World, step: Step)
    requires L.Inv(w.ev)
    ensures L.Inv(Next(w, step).ev)
  {
    hide L.Inv, L.Next;
    if Enabled(w, step) {
      match step
      case Create => L.StepKeeps(w.ev, L.Reset);
      case Teardown => L.StepKeeps(w.ev, L.Reset);
      case AppendHeld(i) => L.StepKeeps(w.ev, L.Append(w.feeders[i].hand.value));
      case WaitFor(opts) => L.StepKeeps(w.ev, L.WaitFor(opts));
      case Poll(k, elapsed) => L.StepKeeps(w.ev, L.Poll(k, elapsed));
      case TimeOut(k) => L.StepKeeps(w.ev, L.TimeOut(k));
      case Abandon(k) => L.StepKeeps(w.ev, L.Abandon(k));
      case _ =>
    }
  }

  lemma StepKeepsLives(w: World, step: Step)
    requires LivesInv(w)
    ensures LivesInv(Next(w, step))
  {
  }

  lemma StepKeepsFeeders(w: World, step: Step)
    requires LivesInv(w) && FeederInv(w)
    ensures FeederInv(Next(w, step))
  {
  }

  lemma StepKeepsOwners(w: World, step: Step)
    requires LivesInv(w) && FeederInv(w) && OwnerInv(w)
    ensures OwnerInv(Next(w, step))
  {
  }

  /** What a long-poll is offered at once was appended since the last reset. */
  lemma CandidatesSinceBase(w: L.World, opts: WaitOptions)
    requires L.LogInv(w)
    ensures w.base + |Candidates(w.buf, opts)| <= |w.log|
  {
    L.CandidatesAreLogSuffix(w, opts);
    L.Retained(w);
    if opts.sinceCursor.Some? {
      var picks := NewerSelects(w.buf.events, opts.sinceCursor.value);
      PicksFit(picks, |w.buf.events|);
    }
  }

  lemma {:induction false} PicksFit(picks: seq<nat>, n: nat)
    requires forall i, j :: 0 <= i < j < |picks| ==> picks[i] < picks[j]
    requires forall i :: 0 <= i < |picks| ==> picks[i] < n
    ensures |picks| <= n
  {
    if picks != [] {
      PicksFit(picks[..|picks| - 1], picks[|picks| - 1]);
    }
  }

  /** A step keeps a long-poll within its Instance's stretch, and its candidates as they were. */
  lemma StepKeepsCall(w: World, step: Step, k: nat)
    requires L.Inv(w.ev) && LivesInv(w) && CallerInv(w) && k < |w.callers|
    ensures var w' := Next(w, step);
      && k < |w'.callers| && k < |w'.ev.calls| && w'.callers[k] == w.callers[k] < |w'.lives|
      && InLife(w'.lives[w'.callers[k]], w'.ev.calls[k])
  {
    hide LastN, FirstMatch, Newer, EventMatches, Polled, TimedOut, Registered, WasReset, Appended, L.LogInv,
      L.WaiterInv;
    assert w.callers[k] < |w.lives| && InLife(w.lives[w.callers[k]], w.ev.calls[k]);
    assert L.CallInv(w.ev, w.ev.calls[k]);
    assert LivesOf(w, w.callers[k]);
  }

  ghost predicate LivesOf(w: World, i: nat) {
    i < |w.lives| && w.lives[i].base <= EndOf(w.lives[i], |w.ev.log|) <= |w.ev.log|
  }

  lemma WaitForIsInLife(w: World, opts: WaitOptions)
    requires L.Inv(w.ev) && LivesInv(w) && CallerInv(w) && Enabled(w, WaitFor(opts))
    ensures CallerInv(Next(w, WaitFor(opts)))
  {
    hide LastN, FirstMatch, Newer, EventMatches, Registered, L.Inv;
    assert L.LogInv(w.ev) by { LogPart(w.ev); }
    CandidatesSinceBase(w.ev, opts);
  }

  lemma LogPart(w: L.World)
    requires L.Inv(w)
    ensures L.LogInv(w)
  {
  }

  lemma StepKeepsCallers(w: World, step: Step)
    requires L.Inv(w.ev) && LivesInv(w) && CallerInv(w)
    ensures CallerInv(Next(w, step))
  {
    if step.WaitFor? && Enabled(w, step) {
      WaitForIsInLife(w, step.opts);
    } else {
      hide LastN, FirstMatch, Newer, EventMatches, Polled, TimedOut, Registered, WasReset, Appended, L.Inv, LivesInv,
        InLife;
      forall k | 0 <= k < |w.callers|
        ensures var w' := Next(w, step);
          k < |w'.ev.calls| && w'.callers[k] < |w'.lives| && InLife(w'.lives[w'.callers[k]], w'.ev.calls[k])
      {
        StepKeepsCall(w, step, k);
      }
    }
  }

  lemma StepKeeps(w: World, step: Step)
    requires Inv(w)
    ensures Inv(Next(w, step))
  {
    hide L.Inv, LivesInv, FeederInv, OwnerInv, CallerInv, Next;
    StepKeepsLog(w, step);
    StepKeepsLives(w, step);
    StepKeepsFeeders(w, step);
    StepKeepsOwners(w, step);
    StepKeepsCallers(w, step);
  }

  lemma {:induction false} RunKeeps(w: World, steps: seq<Step>)
    requires Inv(w)
    ensures Inv(Run(w, steps))
    decreases |steps|
  {
    hide Inv, Next;
    if steps != [] {
      StepKeeps(w, steps[0]);
      RunKeeps(Next(w, steps[0]), steps[1..]);
    }
  }

  // ---- What the buffer and the feeders do in a run ----

  /** What a step of the whole does to the buffer. */
  function LogStep(w: World, step: Step): seq<L.Step> {
    match step
    case Create => [L.Reset]
    case Teardown => [L.Reset]
    case AppendHeld(i) =>
      if i < |w.feeders| && w.feeders[i].hand.Some? then [L.Append(w.feeders[i].hand.value)] else []
    case WaitFor(opts) => [L.WaitFor(opts)]
    case Poll(k, elapsed) => [L.Poll(k, elapsed)]
    case TimeOut(k) => [L.TimeOut(k)]
    case Abandon(k) => [L.Abandon(k)]
    case _ => []
  }

  function LogSteps(w: World, steps: seq<Step>): seq<L.Step>
    decreases |steps|
  {
    if steps == [] then []
    else (if Enabled(w, steps[0]) then LogStep(w, steps[0]) else []) + LogSteps(Next(w, steps[0]), steps[1..])
  }

  lemma StepRefines(w: World, step: Step)
    requires Enabled(w, step)
    ensures L.Run(w.ev, LogStep(w, step)) == Next(w, step).ev
  {
    hide L.Next, L.Enabled;
    var steps := LogStep(w, step);
    if steps != [] {
      assert steps[1..] == [];
      assert L.Run(L.Next(w.ev, steps[0]), []) == L.Next(w.ev, steps[0]);
    }
  }

  lemma {:induction false} LogRunConcat(w: L.World, xs: seq<L.Step>, ys: seq<L.Step>)
    ensures L.Run(w, xs + ys) == L.Run(L.Run(w, xs), ys)
    decreases |xs|
  {
    if xs == [] {
      assert xs + ys == ys;
    } else {
      assert (xs + ys)[1..] == xs[1..] + ys;
      LogRunConcat(L.Next(w, xs[0]), xs[1..], ys);
    }
  }

  /** Every run of feeders, Instances and waits is, for the buffer, a run of its own steps, so that all that
      is said of those holds here. */
  lemma {:induction false} RunRefinesLog(w: World, steps: seq<Step>)
    ensures L.Run(w.ev, LogSteps(w, steps)) == Run(w, steps).ev
    decreases |steps|
  {
    hide Next, Enabled, L.Next, LogStep;
    if steps != [] {
      var w1 := Next(w, steps[0]);
      var first := if Enabled(w, steps[0]) then LogStep(w, steps[0]) else [];
      RunRefinesLog(w1, steps[1..]);
      LogRunConcat(w.ev, first, LogSteps(w1, steps[1..]));
      if Enabled(w, steps[0]) {
        StepRefines(w, steps[0]);
      } else {
        Disabled(w, steps[0]);
      }
    }
  }

  lemma Disabled(w: World, step: Step)
    requires !Enabled(w, step)
    ensures Next(w, step) == w
  {
  }

  /** The events of the log that feeder `i` appended, in order. */
  function Contributed(log: seq<BufferedEvent>, owners: seq<nat>, i: nat): seq<QmpEvent>
    requires |log| == |owners|
    decreases |log|
  {
    if log == [] then []
    else
      var n := |log| - 1;
      Contributed(log[..n], owners[..n], i)
      + if owners[n] == i then [QmpEvent(log[n].event, log[n].data, log[n].timestamp)] else []
  }

  function InHand(w: World, i: nat): seq<QmpEvent> {
    if i < |w.feeders| && w.feeders[i].hand.Some? then [w.feeders[i].hand.value] else []
  }

  /** The events that feeder `i` receives in a run, in order. */
  function Received(w: World, steps: seq<Step>, i: nat): seq<QmpEvent>
    decreases |steps|
  {
    if steps == [] then []
    else
      (if Enabled(w, steps[0]) && steps[0].Receive? && steps[0].i == i then [steps[0].e] else [])
      + Received(Next(w, steps[0]), steps[1..], i)
  }

  lemma ContributedPush(log: seq<BufferedEvent>, owners: seq<nat>, i: nat, b: BufferedEvent, owner: nat)
    requires |log| == |owners|
    ensures Contributed(log + [b], owners + [owner], i) ==
      Contributed(log, owners, i) + if owner == i then [QmpEvent(b.event, b.data, b.timestamp)] else []
  {
    assert (log + [b])[..|log|] == log && (owners + [owner])[..|log|] == owners;
  }

  lemma StepDelivers(w: World, step: Step, i: nat)
    requires |w.owners| == |w.ev.log|
    ensures var w' := Next(w, step);
      && |w'.owners| == |w'.ev.log|
      && Contributed(w'.ev.log, w'.owners, i) + InHand(w', i) ==
         Contributed(w.ev.log, w.owners, i) + InHand(w, i)
         + if Enabled(w, step) && step.Receive? && step.i == i then [step.e] else []
  {
    hide Contributed, Appended, Immediate, Candidates, Registered, Polled, TimedOut, WasReset;
    if Enabled(w, step) && step.AppendHeld? {
      var e := w.feeders[step.i].hand.value;
      ContributedPush(w.ev.log, w.owners, i, Stamp(|w.ev.log| + 1, e), step.i);
    }
  }

  /** A feeder appends what it receives: each event once, in order, but for the one it still holds. */
  lemma {:induction false} FeedersDeliver(w: World, steps: seq<Step>, i: nat)
    requires |w.owners| == |w.ev.log|
    ensures var w' := Run(w, steps);
      && |w'.owners| == |w'.ev.log|
      && Contributed(w'.ev.log, w'.owners, i) + InHand(w', i) ==
         Contributed(w.ev.log, w.owners, i) + InHand(w, i) + Received(w, steps, i)
    decreases |steps|
  {
    hide Contributed, InHand, Next, Enabled;
    if steps != [] {
      StepDelivers(w, steps[0], i);
      FeedersDeliver(Next(w, steps[0]), steps[1..], i);
    }
  }

  /** Aborted and not running. */
  predicate Retired(w: World, i: nat) {
    i < |w.feeders| && w.feeders[i].aborted && !w.feeders[i].running
  }

  lemma {:induction false} RetiredForGood(w: World, steps: seq<Step>, i: nat)
    requires Retired(w, i)
    ensures Retired(Run(w, steps), i) && Received(w, steps, i) == []
    decreases |steps|
  {
    if steps != [] {
      RetiredForGood(Next(w, steps[0]), steps[1..], i);
    }
  }

  /** An aborted feeder is silent from its next yield on: it receives nothing in any run that follows. */
  lemma YieldEndsAbortedFeeder(w: World, i: nat, steps: seq<Step>)
    requires Enabled(w, Yield(i)) && w.feeders[i].aborted
    ensures var w' := Next(w, Yield(i)); Retired(Run(w', steps), i) && Received(w', steps, i) == []
  {
    RetiredForGood(Next(w, Yield(i)), steps, i);
  }

  // ---- Whose events are seen ----

  /** The event numbered `seqNo` came from the feeder of Instance `i` or from one that was running at
      its create. */
  ghost predicate OwnOrLate(w: World, i: nat, seqNo: nat) {
    i < |w.lives| && 1 <= seqNo <= |w.owners| && OwnedOrLate(w.lives[i], i, w.owners[seqNo - 1])
  }

  lemma ReadOwned(w: World, b: BufferedEvent)
    requires Inv(w) && w.live && b in w.ev.buf.events
    ensures OwnOrLate(w, |w.lives| - 1, b.seqNo)
  {
    hide LastN;
    L.Retained(w.ev);
    var m := |w.ev.log| - |w.ev.buf.events|;
    var j :| 0 <= j < |w.ev.buf.events| && w.ev.buf.events[j] == b;
    assert b == w.ev.log[m + j] && b.seqNo == m + j + 1 && m >= w.ev.base;
    assert OwnedOrLate(w.lives[|w.lives| - 1], |w.lives| - 1, w.owners[m + j]);
  }

  ghost predicate AnsweredWith(w: World, k: nat, b: BufferedEvent) {
    k < |w.ev.calls| && w.ev.calls[k].status.Settled? && w.ev.calls[k].status.result.event == Some(b)
  }

  lemma AnswerOwned(w: World, k: nat, b: BufferedEvent)
    requires Inv(w) && AnsweredWith(w, k, b)
    ensures k < |w.callers| && OwnOrLate(w, w.callers[k], b.seqNo)
  {
    hide LastN, FirstMatch, EventMatches;
    var c := w.ev.calls[k];
    assert L.CallInv(w.ev, c);
    var offered := L.Offered(w.ev, c);
    L.OfferedIsLogSlice(w.ev, c);
    L.FirstMatchIsSmallest(offered, c.opts.eventName, c.start - |c.candidates| + 1);
    var j :| 0 <= j < |offered| && offered[j] == b;
    var n := c.start - |c.candidates| + j;
    assert b.seqNo == n + 1;
    var i := w.callers[k];
    assert InLife(w.lives[i], c);
    assert w.lives[i].base <= n < EndOf(w.lives[i], |w.ev.log|);
    assert OwnedOrLate(w.lives[i], i, w.owners[n]);
  }

  /** In every run, whatever is read or answers a long-poll under an Instance is its own event, or one
      of an older feeder that was running when that Instance was created. */
  lemma EventsAreOwnOrLate(capacity: nat, steps: seq<Step>)
    ensures var w := Run(Initial(capacity), steps);
      && (w.live ==> w.lives != [] && forall b :: b in w.ev.buf.events ==> OwnOrLate(w, |w.lives| - 1, b.seqNo))
      && (forall k: nat, b :: AnsweredWith(w, k, b) ==> k < |w.callers| && OwnOrLate(w, w.callers[k], b.seqNo))
  {
    hide Run, AnsweredWith, OwnOrLate;
    InitialInv(capacity);
    RunKeeps(Initial(capacity), steps);
    var w := Run(Initial(capacity), steps);
    if w.live {
      assert LivesInv(w);
      forall b | b in w.ev.buf.events
        ensures OwnOrLate(w, |w.lives| - 1, b.seqNo)
      {
        ReadOwned(w, b);
      }
    }
    forall k: nat, b | AnsweredWith(w, k, b)
      ensures k < |w.callers| && OwnOrLate(w, w.callers[k], b.seqNo)
    {
      AnswerOwned(w, k, b);
    }
  }

  ghost predicate Foreign(w: World, seqNo: nat) {
    1 <= seqNo <= |w.owners| && w.owners[seqNo - 1] != |w.lives| - 1
  }

  /** Another Instance's event can be read under the current one, or has answered one of its long-polls. */
  ghost predicate Bleeds(w: World) {
    && w.live
    && ((exists b :: b in w.ev.buf.events && Foreign(w, b.seqNo))
        || exists k: nat, b ::
             AnsweredWith(w, k, b) && k < |w.callers| && w.callers[k] + 1 == |w.lives| && Foreign(w, b.seqNo))
  }

  ghost predicate SameLife(steps: seq<Step>) {
    forall i :: 0 <= i < |steps| ==> !steps[i].Create? && !steps[i].Teardown?
  }

  lemma {:induction false} SameLifeKeeps(w: World, steps: seq<Step>)
    requires SameLife(steps)
    ensures Run(w, steps).lives == w.lives
    decreases |steps|
  {
    if steps != [] {
      SameLifeKeeps(Next(w, steps[0]), steps[1..]);
    }
  }

  /** With nothing running at its create, an Instance sees its own events only. */
  lemma NothingBleeds(w: World)
    requires Inv(w) && w.live && w.lives[|w.lives| - 1].running == {}
    ensures !Bleeds(w)
  {
    hide AnsweredWith;
    forall b | b in w.ev.buf.events
      ensures !Foreign(w, b.seqNo)
    {
      ReadOwned(w, b);
    }
    forall k: nat, b | AnsweredWith(w, k, b) && k < |w.callers| && w.callers[k] + 1 == |w.lives|
      ensures !Foreign(w, b.seqNo)
    {
      AnswerOwned(w, k, b);
    }
  }

  lemma RunTwo(w: World, x: Step, y: Step)
    ensures Run(w, [x, y]) == Next(Next(w, x), y)
  {
    assert [x, y][1..] == [y] && [y][1..] == [];
    assert Run(Next(w, x), [y]) == Run(Next(Next(w, x), y), []);
  }

  /** What was just appended can be read. */
  lemma AppendedIsRead(w: L.World, e: QmpEvent)
    requires L.LogInv(w) && w.buf.capacity >= 1
    ensures Stamp(|w.log| + 1, e) in L.Next(w, L.Append(e)).buf.events
  {
    var all := w.buf.events + [Stamp(w.buf.last + 1, e)];
    assert all[|all| - 1] == Stamp(|w.log| + 1, e);
    assert LastN(all, w.buf.capacity)[|LastN(all, w.buf.capacity)| - 1] == all[|all| - 1];
  }

  /** A feeder that holds an event appends it, whosever life it is. */
  lemma HeldBleeds(w: World, j: nat)
    requires Inv(w) && w.live && w.ev.buf.capacity >= 1
    requires j + 1 < |w.lives| && w.feeders[j].hand.Some?
    ensures Bleeds(Next(w, AppendHeld(j)))
  {
    hide AnsweredWith, LivesInv, CallerInv;
    assert |w.feeders| == |w.lives| && w.feeders[j].running;
    var b := Stamp(|w.ev.log| + 1, w.feeders[j].hand.value);
    AppendedIsRead(w.ev, w.feeders[j].hand.value);
    assert Foreign(Next(w, AppendHeld(j)), b.seqNo);
  }

  lemma RunningBleeds(w: World, j: nat) returns (steps: seq<Step>)
    requires Inv(w) && w.live && w.ev.buf.capacity >= 1
    requires j + 1 < |w.lives| && w.feeders[j].running
    ensures SameLife(steps) && Bleeds(Run(w, steps))
  {
    hide Bleeds, LivesInv, OwnerInv, CallerInv, L.Inv, L.Next;
    if w.feeders[j].hand.Some? {
      HeldBleeds(w, j);
      steps := [AppendHeld(j)];
      assert Run(w, steps) == Run(Next(w, AppendHeld(j)), []);
    } else {
      var e := QmpEvent("", None, None);
      var w' := Next(w, Receive(j, e));
      StepKeeps(w, Receive(j, e));
      HeldBleeds(w', j);
      steps := [Receive(j, e), AppendHeld(j)];
      RunTwo(w, Receive(j, e), AppendHeld(j));
    }
  }

  /** Exactly when events bleed: during the life of an Instance created in `w`, an older Instance's
      event can come to be read or to answer a long-poll if and only if an older feeder is running
      at the create. */
  lemma BleedIff(w: World)
    requires Inv(w) && !w.live && w.ev.buf.capacity >= 1
    ensures (exists steps :: SameLife(steps) && Bleeds(Run(Next(w, Create), steps))) <==>
      exists j: nat :: j < |w.feeders| && w.feeders[j].running
  {
    hide Run, Bleeds;
    var w' := Next(w, Create);
    StepKeeps(w, Create);
    assert w'.ev.buf.capacity == w.ev.buf.capacity;
    if j: nat :| j < |w.feeders| && w.feeders[j].running {
      var steps := RunningBleeds(w', j);
    } else {
      assert w'.lives[|w'.lives| - 1].running == {};
      forall steps | SameLife(steps)
        ensures !Bleeds(Run(w', steps))
      {
        var w'' := Run(w', steps);
        RunKeeps(w', steps);
        SameLifeKeeps(w', steps);
        if w''.live {
          NothingBleeds(w'');
        } else {
          NeverLive(w'');
        }
      }
    }
  }

  lemma NeverLive(w: World)
    requires !w.live
    ensures !Bleeds(w)
  {
  }

  /** It does happen: the first Instance's feeder holds an event through the teardown and the second
      create, and appends it to the second Instance's stretch. */
  lemma BleedExample(e: QmpEvent)
    ensures var w := Run(Initial(1), [Create, Wake(0), Receive(0, e), Teardown, Create, AppendHeld(0)]);
      w.live && |w.lives| == 2 && w.owners == [0] && w.ev.buf.events == [Stamp(1, e)] && Bleeds(w)
  {
    var w1 := Run(Initial(1), [Create, Wake(0)]);
    RunTwo(Initial(1), Create, Wake(0));
    var w2 := Run(w1, [Receive(0, e), Teardown]);
    RunTwo(w1, Receive(0, e), Teardown);
    RunTwo(w2, Create, AppendHeld(0));
    RunConcat(Initial(1), [Create, Wake(0)], [Receive(0, e), Teardown]);
    RunConcat(Initial(1), [Create, Wake(0)] + [Receive(0, e), Teardown], [Create, AppendHeld(0)]);
    assert [Create, Wake(0)] + [Receive(0, e), Teardown] + [Create, AppendHeld(0)]
      == [Create, Wake(0), Receive(0, e), Teardown, Create, AppendHeld(0)];
    var w := Run(w2, [Create, AppendHeld(0)]);
    assert w.ev.buf.events == [Stamp(1, e)];
    assert Foreign(w, 1) && Stamp(1, e) in w.ev.buf.events;
  }

  lemma {:induction false} RunConcat(w: World, xs: seq<Step>, ys: seq<Step>)
    ensures Run(w, xs + ys) == Run(Run(w, xs), ys)
    decreases |xs|
  {
    if xs == [] {
      assert xs + ys == ys;
    } else {
      assert (xs + ys)[1..] == xs[1..] + ys;
      RunConcat(Next(w, xs[0]), xs[1..], ys);
    }
  }
}
