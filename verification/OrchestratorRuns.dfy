/**
 The Orchestrator over every run: tool calls that hold the mutex to their end, process exits
 at any moment, and exit watchers that wake at any moment after the exit they await. The argv
 of a create may be any answer at all; `QemuRunsTheSpec` is about those of the generator.

 Aborting a watcher is not relied on: an aborted watcher may still wake.
 */
module OrchestratorRuns {
  import opened Wrappers
  import opened HardwareSpecs
  import opened Orchestrators

  /** `exited` are the qemu processes that are gone, `ran` the watchers that have run. */
  datatype World = World(s: State, exited: set<nat>, ran: set<nat>)

  datatype Step =
    | CreateCall(input: CreateInput, argv: Result<seq<string>, SpecError>)
    | DestroyCall(closes: bool)
    | PauseCall(agrees: bool)
    | ResumeCall(agrees: bool)
    | StartRecordingCall(record: RecordInput)
    | StopRecordingCall
    | ProcessExit(handle: nat)
    | RunWatcher(i: nat)

  predicate IsQemu(log: seq<Event>, id: nat) {
    id < |log| && log[id].Acquire? && log[id].kind == Qemu
  }

  predicate Enabled(w: World, step: Step) {
    match step
    case ProcessExit(handle) => IsQemu(w.s.log, handle)
    case RunWatcher(i) => i < |w.s.spawned| && w.s.spawned[i].handle in w.exited && i !in w.ran
    case _ => true
  }

  function Next(o: Options, w: World, step: Step): World {
    if !Enabled(w, step) then w else
    match step
    case CreateCall(input, argv) => w.(s := Create(w.s, o, input, argv).0)
    case DestroyCall(closes) => w.(s := Destroy(w.s, closes).0)
    case PauseCall(agrees) => w.(s := Switched(w.s, Paused, agrees).0)
    case ResumeCall(agrees) => w.(s := Switched(w.s, Running, agrees).0)
    case StartRecordingCall(record) => w.(s := StartedRecording(w.s, record).0)
    case StopRecordingCall => w.(s := StoppedRecording(w.s).0)
    case ProcessExit(handle) => w.(exited := w.exited + {handle})
    case RunWatcher(i) => w.(s := Reconciled(w.s, w.s.spawned[i].generation), ran := w.ran + {i})
  }

  function Run(o: Options, w: World, steps: seq<Step>): World
    decreases |steps|
  {
    if steps == [] then w else Run(o, Next(o, w, steps[0]), steps[1..])
  }

  function Initial(): World {
    World(Empty(), {}, {})
  }

  // ---- The ledger ----

  type Resource = (Kind, nat)

  /** What has been acquired and not released. */
  function Held(log: seq<Event>): set<Resource>
    decreases |log|
  {
    if log == [] then {} else HeldAfter(Held(log[..|log| - 1]), log[|log| - 1], |log| - 1)
  }

  /** `e` is the event at position `n`. */
  function HeldAfter(held: set<Resource>, e: Event, n: nat): set<Resource> {
    if e.Acquire? then held + {(e.kind, n)} else held - {(e.kind, e.id)}
  }

  /** A release is of something held; a qemu is closed after everything that hangs on it. */
  predicate Rightful(held: set<Resource>, e: Event) {
    e.Release? ==> (e.kind, e.id) in held && (e.kind == Qemu ==> held == {(Qemu, e.id)})
  }

  ghost predicate WellPaired(log: seq<Event>) {
    forall i :: 0 <= i < |log| ==> Rightful(Held(log[..i]), log[i])
  }

  function HeldIn(kind: Kind, id: Option<nat>): set<Resource> {
    if id.None? then {} else {(kind, id.value)}
  }

  function Fields(s: State): set<Resource> {
    HeldIn(Qemu, s.handle) + HeldIn(Viewer, s.viewer) + HeldIn(SerialBridge, s.bridge) + HeldIn(Recorder, s.recording)
  }

  /** Everything acquired and not yet released is in the fields. */
  ghost predicate LedgerInv(s: State) {
    WellPaired(s.log) && Held(s.log) == Fields(s)
  }

  lemma Push(log: seq<Event>, e: Event)
    requires WellPaired(log) && Rightful(Held(log), e)
    ensures WellPaired(log + [e])
    ensures Held(log + [e]) == HeldAfter(Held(log), e, |log|)
  {
    hide Rightful;
    var log' := log + [e];
    assert log'[..|log|] == log;
    forall i | 0 <= i < |log'|
      ensures Rightful(Held(log'[..i]), log'[i])
    {
      if i < |log| {
        assert log'[..i] == log[..i];
      }
    }
  }

  lemma PushIfAny(log: seq<Event>, kind: Kind, id: Option<nat>, others: set<Resource>)
    requires WellPaired(log) && kind != Qemu
    requires Held(log) == others + HeldIn(kind, id) && forall r :: r in others ==> r.0 != kind
    ensures WellPaired(LoggedIfAny(log, kind, id)) && Held(LoggedIfAny(log, kind, id)) == others
  {
    if id.Some? {
      Push(log, Release(kind, id.value));
    }
  }

  lemma LaunchKeepsLedger(s: State, o: Options, input: CreateInput, argv: Result<seq<string>, SpecError>)
    requires WellPaired(s.log) && Held(s.log) == {}
    ensures var (s', r) := Launch(s, o, input, argv);
      && WellPaired(s'.log)
      && Held(s'.log) ==
           if r.Failure? then {} else HeldIn(Qemu, Some(r.value.handle)) + HeldIn(SerialBridge, r.value.bridge)
  {
    hide Held, WellPaired;
    if LaunchRefusal(o, input, argv).None? {
      var launch := Acquire(Qemu, argv.value);
      Push(s.log, launch);
      if NeedsSocket(o, input.parsed.value) {
        if input.dials {
          Push(s.log + [launch], Acquire(SerialBridge, []));
        } else {
          Push(s.log + [launch], Release(Qemu, |s.log|));
        }
      }
    }
  }

  lemma CreateKeepsLedger(s: State, o: Options, input: CreateInput, argv: Result<seq<string>, SpecError>)
    requires LedgerInv(s) && (s.state == NoInstance ==> Fields(s) == {} && s.recording.None?)
    ensures LedgerInv(Create(s, o, input, argv).0)
  {
    hide Launch, Held, WellPaired, LoggedIfAny;
    if s.state == NoInstance {
      LaunchKeepsLedger(s, o, input, argv);
      LaunchIgnoresState(s, s.state, o, input, argv);
      var (s1, r) := Launch(s, o, input, argv);
      if r.Success? && input.parsed.value.display == Vnc {
        if input.setsPassword && input.startsViewer {
          Push(s1.log, Acquire(Viewer, []));
        } else {
          PushIfAny(s1.log, SerialBridge, r.value.bridge, {(Qemu, r.value.handle)});
          Push(LoggedIfAny(s1.log, SerialBridge, r.value.bridge), Release(Qemu, r.value.handle));
        }
      }
    }
  }

  lemma TornKeepsLedger(s: State)
    requires LedgerInv(s) && s.handle.Some?
    ensures LedgerInv(Torn(s))
  {
    hide Held, WellPaired, LoggedIfAny;
    var qemu, viewer, bridge := HeldIn(Qemu, s.handle), HeldIn(Viewer, s.viewer), HeldIn(SerialBridge, s.bridge);
    PushIfAny(s.log, Recorder, s.recording, qemu + viewer + bridge);
    var log1 := LoggedIfAny(s.log, Recorder, s.recording);
    PushIfAny(log1, SerialBridge, s.bridge, qemu + viewer);
    var log2 := LoggedIfAny(log1, SerialBridge, s.bridge);
    PushIfAny(log2, Viewer, s.viewer, qemu);
    Push(LoggedIfAny(log2, Viewer, s.viewer), Release(Qemu, s.handle.value));
  }

  lemma RecordingKeepsLedger(s: State, record: RecordInput)
    requires LedgerInv(s)
    ensures LedgerInv(StartedRecording(s, record).0) && LedgerInv(StoppedRecording(s).0)
  {
    hide Held, WellPaired;
    if RecordingRefusal(s, record).None? {
      Push(s.log, Acquire(Recorder, []));
      if !record.staysAlive {
        HeldIsAcquired(s.log);
        Push(s.log + [Acquire(Recorder, [])], Release(Recorder, |s.log|));
      }
    }
    if s.recording.Some? {
      Push(s.log, Release(Recorder, s.recording.value));
    }
  }

  /** Whatever is held was acquired, at the position that names it. */
  lemma {:induction false} HeldIsAcquired(log: seq<Event>)
    ensures forall r :: r in Held(log) ==> r.1 < |log| && log[r.1].Acquire? && log[r.1].kind == r.0
    decreases |log|
  {
    if log != [] {
      var earlier := log[..|log| - 1];
      HeldIsAcquired(earlier);
      assert forall r :: r in Held(earlier) ==> log[r.1] == earlier[r.1];
    }
  }

  // ---- The lifecycle ----

  ghost predicate LifecycleInv(s: State, o: Options) {
    && s.state in {NoInstance, Running, Paused}
    && (s.state == NoInstance <==> s.handle.None?)
    && (s.handle.None? <==> s.spec.None?)
    && (s.handle.None? <==> s.accel.None?)
    && (s.viewer.Some? <==> s.spec.Some? && s.spec.value.display == Vnc)
    && (s.bridge.Some? <==> s.spec.Some? && NeedsSocket(o, s.spec.value))
    && (s.recording.Some? ==> s.spec.Some? && s.spec.value.displayDevice != NoAdapter)
    && s.feeder == s.handle
  }

  /** The current Instance, and no other, has the latest watcher, which has neither run nor been aborted. */
  ghost predicate WatchInv(w: World) {
    && |w.s.spawned| == w.s.generation
    && (forall i :: 0 <= i < |w.s.spawned| ==> w.s.spawned[i].generation == i + 1 && w.s.spawned[i].handle < |w.s.log|)
    && (forall i, j :: 0 <= i < j < |w.s.spawned| ==> w.s.spawned[i].handle < w.s.spawned[j].handle)
    && (forall i :: i in w.s.aborted ==> i < |w.s.spawned|)
    && (forall i :: i in w.ran ==> i < |w.s.spawned|)
    && (w.s.handle.Some? <==> w.s.exitWatcher.Some?)
    && (w.s.handle.Some? ==>
          var i := w.s.exitWatcher.value;
          i + 1 == |w.s.spawned| && w.s.spawned[i].handle == w.s.handle.value && i !in w.s.aborted && i !in w.ran)
  }

  ghost predicate Inv(o: Options, w: World) {
    LedgerInv(w.s) && LifecycleInv(w.s, o) && WatchInv(w)
  }

  lemma LaunchShape(s: State, o: Options, input: CreateInput, argv: Result<seq<string>, SpecError>)
    ensures var (s', r) := Launch(s, o, input, argv);
      && s' == s.(log := s'.log) && s.log <= s'.log
      && (r.Success? ==>
            && input.parsed.Some? && input.accel.Some?
            && r.value.handle == |s.log| && r.value.handle < |s'.log|
            && argv.Success?
            && s'.log[r.value.handle] == Acquire(Qemu, argv.value)
            && (r.value.bridge.Some? <==> NeedsSocket(o, input.parsed.value)))
  {
  }

  /** A create either publishes an Instance or leaves nothing but log entries. */
  ghost predicate PublishedBy(s: State, o: Options, input: CreateInput, argv: Result<seq<string>, SpecError>,
      s': State)
  {
    && input.parsed.Some? && input.accel.Some?
    && s' == Published(s.(log := s'.log), o, input, Launched(|s.log|, s'.bridge), s'.viewer)
    && |s.log| < |s'.log|
    && argv.Success? && s'.log[|s.log|] == Acquire(Qemu, argv.value)
    && (s'.bridge.Some? <==> NeedsSocket(o, input.parsed.value))
    && (s'.viewer.Some? <==> input.parsed.value.display == Vnc)
  }

  lemma CreateShape(s: State, o: Options, input: CreateInput, argv: Result<seq<string>, SpecError>)
    ensures var (s', r) := Create(s, o, input, argv);
      && s.log <= s'.log
      && (s.state != NoInstance ==> s' == s && r == Failure(AlreadyExists))
      && (s.state == NoInstance ==>
            if r.Success? || r.error == CommandFailed then PublishedBy(s, o, input, argv, s')
            else s' == s.(log := s'.log))
  {
    hide Launch, LaunchRefusal;
    LaunchShape(s, o, input, argv);
    LaunchFails(s, o, input, argv);
    if s.state == NoInstance && Launch(s, o, input, argv).1.Success? {
      var (s1, r) := Launch(s, o, input, argv);
      var s' := Create(s, o, input, argv).0;
      assert s1.log <= s'.log;
      assert s'.log[|s.log|] == s1.log[|s.log|];
    }
  }

  lemma LaunchFails(s: State, o: Options, input: CreateInput, argv: Result<seq<string>, SpecError>)
    ensures var r := Launch(s, o, input, argv).1; r.Failure? ==> r.error != CommandFailed
  {
  }

  lemma CreateKeepsLifecycle(s: State, o: Options, input: CreateInput, argv: Result<seq<string>, SpecError>)
    requires LifecycleInv(s, o)
    ensures LifecycleInv(Create(s, o, input, argv).0, o)
  {
    hide Create;
    CreateShape(s, o, input, argv);
  }

  lemma CreateKeepsWatch(o: Options, w: World, input: CreateInput, argv: Result<seq<string>, SpecError>)
    requires LifecycleInv(w.s, o) && WatchInv(w)
    ensures WatchInv(Next(o, w, CreateCall(input, argv)))
  {
    hide Create;
    CreateShape(w.s, o, input, argv);
  }

  lemma TornShape(s: State)
    requires s.handle.Some?
    ensures var s' := Torn(s);
      && s' == s.(log := s'.log, handle := None, viewer := None, bridge := None, recording := None,
                  spec := None, accel := None, feeder := None, state := NoInstance)
      && s.log <= s'.log
  {
  }

  lemma TornKeepsWatch(o: Options, w: World, s: State, ran: set<nat>)
    requires Inv(o, w) && w.s.handle.Some?
    requires s == StopWatcher(w.s) || s == w.s.(exitWatcher := None)
    requires ran == w.ran || ran == w.ran + {w.s.exitWatcher.value}
    ensures WatchInv(w.(s := Torn(s), ran := ran))
  {
    hide LedgerInv, LifecycleInv, Torn;
    TornShape(s);
  }

  lemma TornKeeps(o: Options, w: World, s: State, ran: set<nat>)
    requires Inv(o, w) && w.s.handle.Some?
    requires s == StopWatcher(w.s) || s == w.s.(exitWatcher := None)
    requires ran == w.ran || ran == w.ran + {w.s.exitWatcher.value}
    ensures Inv(o, w.(s := Torn(s), ran := ran))
  {
    hide Held, WellPaired, Torn, WatchInv;
    TornShape(s);
    TornKeepsLedger(s);
    TornKeepsWatch(o, w, s, ran);
  }

  lemma SwitchKeeps(o: Options, w: World, target: InstanceState, agrees: bool)
    requires Inv(o, w) && target in {Running, Paused}
    ensures Inv(o, w.(s := Switched(w.s, target, agrees).0))
  {
    hide Held, WellPaired;
  }

  lemma RecordingKeeps(o: Options, w: World, record: RecordInput)
    requires Inv(o, w)
    ensures Inv(o, w.(s := StartedRecording(w.s, record).0)) && Inv(o, w.(s := StoppedRecording(w.s).0))
  {
    hide Held, WellPaired;
    RecordingKeepsLedger(w.s, record);
  }

  lemma CreateKeeps(o: Options, w: World, input: CreateInput, argv: Result<seq<string>, SpecError>)
    requires Inv(o, w)
    ensures Inv(o, Next(o, w, CreateCall(input, argv)))
  {
    hide Create, LedgerInv, WatchInv;
    assert w.s.state == NoInstance ==> Fields(w.s) == {};
    CreateKeepsLedger(w.s, o, input, argv);
    CreateKeepsLifecycle(w.s, o, input, argv);
    CreateKeepsWatch(o, w, input, argv);
  }

  lemma StepKeeps(o: Options, w: World, step: Step)
    requires Inv(o, w)
    ensures Inv(o, Next(o, w, step))
  {
    hide Create, Torn, LedgerInv;
    if Enabled(w, step) {
      match step
      case CreateCall(input, argv) => CreateKeeps(o, w, input, argv);
      case DestroyCall(closes) =>
        if w.s.handle.Some? {
          TornKeeps(o, w, StopWatcher(w.s), w.ran);
        }
      case PauseCall(agrees) => SwitchKeeps(o, w, Paused, agrees);
      case ResumeCall(agrees) => SwitchKeeps(o, w, Running, agrees);
      case StartRecordingCall(record) => RecordingKeeps(o, w, record);
      case StopRecordingCall => RecordingKeeps(o, w, RecordInput(false, false, false, false));
      case ProcessExit(handle) =>
      case RunWatcher(i) =>
        if w.s.handle.Some? && i + 1 == w.s.generation {
          TornKeeps(o, w, w.s.(exitWatcher := None), w.ran + {i});
        }
    }
  }

  lemma {:induction false} RunKeeps(o: Options, w: World, steps: seq<Step>)
    requires Inv(o, w)
    ensures Inv(o, Run(o, w, steps))
    decreases |steps|
  {
    if steps != [] {
      StepKeeps(o, w, steps[0]);
      RunKeeps(o, Next(o, w, steps[0]), steps[1..]);
    }
  }

  lemma InitialInv(o: Options)
    ensures Inv(o, Initial())
  {
  }

  // ---- What holds in every run ----

  function Acquisitions(log: seq<Event>, kind: Kind): nat
    decreases |log|
  {
    if log == [] then 0
    else Acquisitions(log[..|log| - 1], kind) + if log[|log| - 1].Acquire? && log[|log| - 1].kind == kind then 1 else 0
  }

  function Releases(log: seq<Event>, kind: Kind): nat
    decreases |log|
  {
    if log == [] then 0
    else Releases(log[..|log| - 1], kind) + if log[|log| - 1].Release? && log[|log| - 1].kind == kind then 1 else 0
  }

  function OfKind(held: set<Resource>, kind: Kind): set<Resource> {
    set r | r in held && r.0 == kind
  }

  lemma OfKindAfter(held: set<Resource>, e: Event, n: nat, kind: Kind)
    requires Rightful(held, e) && forall r :: r in held ==> r.1 < n
    ensures |OfKind(HeldAfter(held, e, n), kind)| ==
      |OfKind(held, kind)| + (if e.kind != kind then 0 else if e.Acquire? then 1 else -1)
  {
    var after := OfKind(HeldAfter(held, e, n), kind);
    if e.kind != kind {
      assert after == OfKind(held, kind);
    } else if e.Acquire? {
      assert after == OfKind(held, kind) + {(kind, n)};
    } else {
      assert after == OfKind(held, kind) - {(kind, e.id)};
    }
  }

  lemma WellPairedPrefix(log: seq<Event>, n: nat)
    requires WellPaired(log) && n <= |log|
    ensures WellPaired(log[..n])
  {
    forall i | 0 <= i < n
      ensures Rightful(Held(log[..n][..i]), log[..n][i])
    {
      assert log[..n][..i] == log[..i];
    }
  }

  lemma {:induction false} Conservation(log: seq<Event>, kind: Kind)
    requires WellPaired(log)
    ensures Acquisitions(log, kind) == Releases(log, kind) + |OfKind(Held(log), kind)|
    decreases |log|
  {
    hide OfKind, HeldAfter, Rightful;
    if log == [] {
      NothingOfKind(kind);
    } else {
      var n := |log| - 1;
      WellPairedPrefix(log, n);
      Conservation(log[..n], kind);
      HeldIsAcquired(log[..n]);
      assert Rightful(Held(log[..n]), log[n]);
      OfKindAfter(Held(log[..n]), log[n], n, kind);
    }
  }

  lemma NothingOfKind(kind: Kind)
    ensures OfKind({}, kind) == {}
  {
  }

  /** What has been released stays released. */
  lemma {:induction false} GoneForGood(log: seq<Event>, kind: Kind, id: nat, i: nat, j: nat)
    requires i < j <= |log| && log[i] == Release(kind, id) && id <= i
    ensures (kind, id) !in Held(log[..j])
    decreases j
  {
    assert log[..j][..j - 1] == log[..j - 1];
    if j > i + 1 {
      GoneForGood(log, kind, id, i, j - 1);
    }
  }

  lemma ReleasesAreOfAcquired(log: seq<Event>, i: nat)
    requires WellPaired(log) && i < |log| && log[i].Release?
    ensures var id := log[i].id; id < i && log[id].Acquire? && log[id].kind == log[i].kind
    ensures log[i].kind == Qemu ==> Held(log[..i]) == {(Qemu, log[i].id)}
  {
    assert Rightful(Held(log[..i]), log[i]);
    HeldIsAcquired(log[..i]);
    assert log[..i][log[i].id] == log[log[i].id];
  }

  lemma ReleasedOnce(log: seq<Event>, i: nat, j: nat)
    requires WellPaired(log) && i < j < |log| && log[i].Release?
    ensures log[j] != log[i]
  {
    ReleasesAreOfAcquired(log, i);
    GoneForGood(log, log[i].kind, log[i].id, i, j);
    assert Rightful(Held(log[..j]), log[j]);
  }

  function CountOf(id: Option<nat>): nat {
    if id.Some? then 1 else 0
  }

  ghost predicate Balanced(s: State) {
    && Held(s.log) == Fields(s)
    && Acquisitions(s.log, Qemu) == Releases(s.log, Qemu) + CountOf(s.handle)
    && Acquisitions(s.log, Viewer) == Releases(s.log, Viewer) + CountOf(s.viewer)
    && Acquisitions(s.log, SerialBridge) == Releases(s.log, SerialBridge) + CountOf(s.bridge)
    && Acquisitions(s.log, Recorder) == Releases(s.log, Recorder) + CountOf(s.recording)
    && (forall i :: 0 <= i < |s.log| && s.log[i].Release? ==>
          s.log[i].id < i && s.log[s.log[i].id].Acquire? && s.log[s.log[i].id].kind == s.log[i].kind)
    && (forall i, j :: 0 <= i < j < |s.log| && s.log[i].Release? ==> s.log[j] != s.log[i])
    && (forall i :: 0 <= i < |s.log| && s.log[i].Release? && s.log[i].kind == Qemu ==>
          Held(s.log[..i]) == {(Qemu, s.log[i].id)})
  }

  function FieldOf(s: State, kind: Kind): Option<nat> {
    match kind
    case Qemu => s.handle
    case Viewer => s.viewer
    case SerialBridge => s.bridge
    case Recorder => s.recording
  }

  lemma FieldOfKind(s: State, kind: Kind)
    ensures OfKind(Fields(s), kind) == HeldIn(kind, FieldOf(s, kind))
  {
    forall r: Resource
      ensures r in OfKind(Fields(s), kind) <==> r in HeldIn(kind, FieldOf(s, kind))
    {
      assert r in Fields(s) <==> FieldOf(s, r.0) == Some(r.1);
    }
  }

  lemma HeldOfField(s: State, kind: Kind)
    requires LedgerInv(s)
    ensures Acquisitions(s.log, kind) == Releases(s.log, kind) + CountOf(FieldOf(s, kind))
  {
    hide Held, WellPaired, OfKind, Fields, Acquisitions, Releases;
    Conservation(s.log, kind);
    FieldOfKind(s, kind);
  }

  lemma LedgerBalances(s: State)
    requires LedgerInv(s)
    ensures Balanced(s)
  {
    hide Held, OfKind, Acquisitions, Releases, WellPaired, Rightful;
    HeldOfField(s, Qemu);
    HeldOfField(s, Viewer);
    HeldOfField(s, SerialBridge);
    HeldOfField(s, Recorder);
    forall i | 0 <= i < |s.log| && s.log[i].Release?
      ensures s.log[i].id < i && s.log[s.log[i].id].Acquire? && s.log[s.log[i].id].kind == s.log[i].kind
      ensures s.log[i].kind == Qemu ==> Held(s.log[..i]) == {(Qemu, s.log[i].id)}
    {
      ReleasesAreOfAcquired(s.log, i);
    }
    forall i, j | 0 <= i < j < |s.log| && s.log[i].Release?
      ensures s.log[j] != s.log[i]
    {
      ReleasedOnce(s.log, i, j);
    }
  }

  /** Conservation over every run: of each kind of resource, as many were acquired as were released
      and are held in a field; nothing is released twice or without having been acquired, and a qemu
      is closed only when nothing that hangs on it is held. */
  lemma ResourcesBalance(o: Options, steps: seq<Step>)
    ensures Balanced(Run(o, Initial(), steps).s)
  {
    hide Run, Balanced;
    InitialInv(o);
    RunKeeps(o, Initial(), steps);
    LedgerBalances(Run(o, Initial(), steps).s);
  }

  /** Whenever the mutex is free the lifecycle state, the spec and the resources agree. */
  lemma LifecycleHolds(o: Options, steps: seq<Step>)
    ensures LifecycleInv(Run(o, Initial(), steps).s, o)
  {
    hide Run;
    InitialInv(o);
    RunKeeps(o, Initial(), steps);
  }

  /** The argv of a create is what the generator answers for it. */
  ghost predicate Generated(o: Options, step: Step) {
    step.CreateCall? ==> step.argv == ArgvOf(o, step.input)
  }

  /** The current qemu was launched with an argv generated for the published spec and accelerator. */
  ghost predicate RunsItsSpec(s: State, o: Options) {
    s.handle.Some? ==>
      && IsQemu(s.log, s.handle.value)
      && s.spec.Some? && s.accel.Some?
      && exists host: Host ::
           Argv(host, s.spec.value, o.argv.(accel := s.accel.value)) == Success(s.log[s.handle.value].argv)
  }

  lemma StepKeepsSpec(o: Options, w: World, step: Step)
    requires Inv(o, w) && RunsItsSpec(w.s, o) && Generated(o, step)
    ensures RunsItsSpec(Next(o, w, step).s, o)
  {
    hide Torn, Create, LedgerInv, WatchInv, Argv;
    if step.CreateCall? {
      CreateShape(w.s, o, step.input, step.argv);
    } else if w.s.handle.Some? {
      TornShape(StopWatcher(w.s));
      TornShape(w.s.(exitWatcher := None));
    }
  }

  lemma {:induction false} RunKeepsSpec(o: Options, w: World, steps: seq<Step>)
    requires Inv(o, w) && RunsItsSpec(w.s, o) && forall i :: 0 <= i < |steps| ==> Generated(o, steps[i])
    ensures RunsItsSpec(Run(o, w, steps).s, o)
    decreases |steps|
  {
    hide Inv, RunsItsSpec, Next, Generated;
    if steps != [] {
      StepKeeps(o, w, steps[0]);
      StepKeepsSpec(o, w, steps[0]);
      RunKeepsSpec(o, Next(o, w, steps[0]), steps[1..]);
    }
  }

  /** In every run whose argvs come from the generator, the current qemu runs the published spec. */
  lemma QemuRunsTheSpec(o: Options, steps: seq<Step>)
    requires forall i :: 0 <= i < |steps| ==> Generated(o, steps[i])
    ensures RunsItsSpec(Run(o, Initial(), steps).s, o)
  {
    hide Run, Generated;
    InitialInv(o);
    RunKeepsSpec(o, Initial(), steps);
  }

  predicate WantsVnc(input: CreateInput) {
    input.parsed.Some? && input.parsed.value.display == Vnc
  }

  predicate WantsSerial(o: Options, input: CreateInput, backend: SerialBackend) {
    input.parsed.Some? && input.parsed.value.serial && o.argv.serialBackend == backend
  }

  /** `first`, or else `error` if it is `present`. */
  function Unless(first: Option<LifecycleError>, present: bool, error: LifecycleError): Option<LifecycleError> {
    if first.Some? then first else if present then Some(error) else None
  }

  /** The first thing in the way of a create, in the order in which they are met. */
  function FirstObstacle(o: Options, input: CreateInput, argv: Result<seq<string>, SpecError>): Option<LifecycleError> {
    var noPassword := o.viewerPassword.None? || o.viewerPassword.value == "";
    var first := Unless(None, input.parsed.None?, BadSpec);
    var first := Unless(first, WantsVnc(input) && noPassword, ViewerNotConfigured);
    var first := Unless(first, input.accel.None?, NoAccelerator);
    var first := if argv.Failure? then Unless(first, true, BadHardware(argv.error)) else first;
    var first := Unless(first, WantsSerial(o, input, Spool) && !input.makesSpoolDir, SpoolDirFailed);
    var first := Unless(first, WantsSerial(o, input, Socket) && input.socketOccupied, SerialSocketOccupied);
    var first := Unless(first, !input.launches, LaunchFailed);
    var first := Unless(first, WantsSerial(o, input, Socket) && !input.dials, SerialDialFailed);
    var first := Unless(first, WantsVnc(input) && !(input.setsPassword && input.startsViewer), DisplayFailed);
    Unless(first, o.autoStart && !input.continues, CommandFailed)
  }

  /** Everything a create needs before its auto-start. */
  predicate CanPublish(o: Options, input: CreateInput, argv: Result<seq<string>, SpecError>) {
    && input.parsed.Some? && input.accel.Some? && argv.Success? && input.launches
    && (input.parsed.value.display == Vnc ==>
          o.viewerPassword.Some? && o.viewerPassword.value != "" && input.setsPassword && input.startsViewer)
    && (input.parsed.value.serial ==>
          match o.argv.serialBackend
          case Ringbuf => true
          case Spool => input.makesSpoolDir
          case Socket => !input.socketOccupied && input.dials)
  }

  /** What a create that starts at position `n` of the log acquires and gives back. */
  function CreateLog(n: nat, o: Options, input: CreateInput, argv: Result<seq<string>, SpecError>): seq<Event> {
    var launch := Acquire(Qemu, if argv.Success? then argv.value else []);
    var bridge := if WantsSerial(o, input, Socket) then [Acquire(SerialBridge, [])] else [];
    match FirstObstacle(o, input, argv)
    case Some(SerialDialFailed) => [launch, Release(Qemu, n)]
    case Some(DisplayFailed) =>
      [launch] + bridge + (if bridge == [] then [] else [Release(SerialBridge, n + 1)]) + [Release(Qemu, n)]
    case Some(error) =>
      if error == CommandFailed then [launch] + bridge + if WantsVnc(input) then [Acquire(Viewer, [])] else [] else []
    case None => [launch] + bridge + if WantsVnc(input) then [Acquire(Viewer, [])] else []
  }

  lemma CreateResult(s: State, o: Options, input: CreateInput, argv: Result<seq<string>, SpecError>)
    requires s.state == NoInstance
    ensures Create(s, o, input, argv).1 ==
      match FirstObstacle(o, input, argv)
      case Some(error) => Failure(error)
      case None => Success(if o.autoStart then Running else Paused)
  {
    hide LoggedIfAny;
  }

  lemma CreateLogged(s: State, o: Options, input: CreateInput, argv: Result<seq<string>, SpecError>)
    requires s.state == NoInstance
    ensures Create(s, o, input, argv).0.log == s.log + CreateLog(|s.log|, o, input, argv)
  {
    hide FirstObstacle, LaunchRefusal, CanPublish;
    RefusalIsObstacle(o, input, argv);
    var launch := Acquire(Qemu, if argv.Success? then argv.value else []);
    var bridge := if WantsSerial(o, input, Socket) then [Acquire(SerialBridge, [])] else [];
    Grouped(s.log, [launch], bridge);
    Grouped(s.log, [launch] + bridge, [Acquire(Viewer, [])]);
    if bridge == [] {
      assert s.log + [launch] + [Release(Qemu, |s.log|)] == s.log + ([launch] + [] + [] + [Release(Qemu, |s.log|)]);
    }
  }

  lemma Grouped<T>(a: seq<T>, b: seq<T>, c: seq<T>)
    ensures a + b + c == a + (b + c)
  {
  }

  /** What is in the way before the launch, and after it. */
  lemma RefusalIsObstacle(o: Options, input: CreateInput, argv: Result<seq<string>, SpecError>)
    ensures var refusal := LaunchRefusal(o, input, argv);
      if refusal.Some? then
        FirstObstacle(o, input, argv) == refusal && !(refusal.value in {SerialDialFailed, DisplayFailed, CommandFailed})
      else
        && input.parsed.Some? && argv.Success?
        && FirstObstacle(o, input, argv) ==
           if WantsSerial(o, input, Socket) && !input.dials then Some(SerialDialFailed)
           else if WantsVnc(input) && !(input.setsPassword && input.startsViewer) then Some(DisplayFailed)
           else if o.autoStart && !input.continues then Some(CommandFailed)
           else None
  {
  }

  lemma CanPublishIff(o: Options, input: CreateInput, argv: Result<seq<string>, SpecError>)
    ensures CanPublish(o, input, argv) <==> FirstObstacle(o, input, argv) in {None, Some(CommandFailed)}
  {
  }

  /** For any answer of the argv generator: a create fails with the first thing in its way, and succeeds
      exactly when there is none; a failed one leaves the slot empty and nothing running, except when
      only the auto-start failed, and then the Instance is published. */
  lemma CreateOutcome(o: Options, steps: seq<Step>, input: CreateInput, argv: Result<seq<string>, SpecError>)
    ensures var w := Run(o, Initial(), steps);
      var s := w.s;
      var (s', r) := Create(s, o, input, argv);
      && Next(o, w, CreateCall(input, argv)) == w.(s := s')
      && (s.state != NoInstance ==> s' == s && r == Failure(AlreadyExists))
      && (r.Success? <==> s.state == NoInstance && CanPublish(o, input, argv) && (o.autoStart ==> input.continues))
      && (r.Success? ==> r.value == s'.state == if o.autoStart then Running else Paused)
      && (s.state == NoInstance ==> s'.log == s.log + CreateLog(|s.log|, o, input, argv))
      && (s.state == NoInstance && r.Failure? ==>
            && FirstObstacle(o, input, argv) == Some(r.error)
            && (s'.state != NoInstance <==> CanPublish(o, input, argv) && o.autoStart && !input.continues)
            && (s'.state == NoInstance ==> s' == s.(log := s'.log) && Held(s'.log) == {})
            && (s'.state != NoInstance ==> s'.state == Running && PublishedBy(s, o, input, argv, s')))
  {
    hide Run, Create, Held, CanPublish, FirstObstacle, CreateLog;
    InitialInv(o);
    RunKeeps(o, Initial(), steps);
    var w := Run(o, Initial(), steps);
    CreateShape(w.s, o, input, argv);
    CanPublishIff(o, input, argv);
    if w.s.state == NoInstance {
      CreateResult(w.s, o, input, argv);
      CreateLogged(w.s, o, input, argv);
    }
    NoContinueNoSuccess(o, input, argv);
    CreateKeeps(o, w, input, argv);
  }

  lemma NoContinueNoSuccess(o: Options, input: CreateInput, argv: Result<seq<string>, SpecError>)
    ensures FirstObstacle(o, input, argv) == None ==> (o.autoStart ==> input.continues)
    ensures FirstObstacle(o, input, argv) == Some(CommandFailed) ==> o.autoStart && !input.continues
  {
  }

  /** A headless spec with nothing attached. */
  function BareSpec(): HardwareSpec {
    HardwareSpec("q35", "host", 1, 128, Headless, NoAdapter, [], None, false, false, None, None, None, None, None, None,
                 Network(NoNetwork, E1000, []), None)
  }

  function BareOptions(): Options {
    var argv := ArgvOptions(Tcg, "q", "s", None, None, None, None, 0, Ringbuf, None, None, false, None, None, false);
    Options(argv, None, true)
  }

  /** Everything works but the auto-start. */
  function BareInput(): CreateInput {
    CreateInput(Some(BareSpec()), Some(Tcg), Host(map[], {}), true, false, true, true, true, true, false)
  }

  /** The exception does occur: everything works but the `cont` after a create in the initial world. */
  lemma PublishedFailureExample()
    ensures var o := BareOptions();
      var input := BareInput();
      var (s', r) := Create(Empty(), o, input, ArgvOf(o, input));
      r == Failure(CommandFailed) && PublishedBy(Empty(), o, input, ArgvOf(o, input), s') && s'.state == Running
  {
    hide Flatten, Opts, IsRaspi;
    assert !IsRaspi("q35") by { NotRaspi(); }
    var o := BareOptions();
    var input := BareInput();
    assert Resolve(input.host, BareSpec(), o.argv).Success?;
    CreateShape(Empty(), o, input, ArgvOf(o, input));
    CreateResult(Empty(), o, input, ArgvOf(o, input));
  }

  lemma NotRaspi()
    ensures !IsRaspi("q35")
  {
    assert |"q35"| == 3;
  }

  function ReleaseOf(kind: Kind, id: Option<nat>): seq<Event> {
    match id case None => [] case Some(i) => [Release(kind, i)]
  }

  /** What a teardown gives back, in order. */
  function TeardownLog(s: State): seq<Event> {
    ReleaseOf(Recorder, s.recording) + ReleaseOf(SerialBridge, s.bridge) + ReleaseOf(Viewer, s.viewer)
    + ReleaseOf(Qemu, s.handle)
  }

  /** Nothing of the Instance is left but its number and its watcher's. */
  function Emptied(s: State): State {
    State(NoInstance, None, None, None, None, None, None, None, s.generation, None, s.spawned, s.aborted,
          s.log + TeardownLog(s))
  }

  /** A destroy empties the slot and releases everything, the qemu last, whether or not the close
      succeeds; without an Instance it changes nothing. */
  lemma DestroyOutcome(o: Options, steps: seq<Step>, closes: bool)
    ensures var w := Run(o, Initial(), steps);
      var s := w.s;
      var (s', r) := Destroy(s, closes);
      && Next(o, w, DestroyCall(closes)) == w.(s := s')
      && (s.state == NoInstance ==> s' == s && r == Failure(NothingRunning))
      && (s.state != NoInstance ==>
            && s.exitWatcher.Some? && s' == Emptied(s).(aborted := s.aborted + {s.exitWatcher.value})
            && Held(s'.log) == {}
            && r == if closes then Success(()) else Failure(CloseFailed))
  {
    hide Run, Held;
    InitialInv(o);
    RunKeeps(o, Initial(), steps);
    var w := Run(o, Initial(), steps);
    if w.s.handle.Some? {
      TornCloses(o, w, StopWatcher(w.s), w.ran);
    }
  }

  lemma TornCloses(o: Options, w: World, s: State, ran: set<nat>)
    requires Inv(o, w) && w.s.handle.Some?
    requires s == StopWatcher(w.s) || s == w.s.(exitWatcher := None)
    requires ran == w.ran || ran == w.ran + {w.s.exitWatcher.value}
    ensures Torn(s) == Emptied(w.s).(aborted := s.aborted) && Held(Torn(s).log) == {}
  {
    hide Held;
    TornKeeps(o, w, s, ran);
  }

  // ---- Calls on a running Instance ----

  /** The lifecycle follows what QEMU agreed to, and nothing else changes: PAUSED after a pause, RUNNING
      after a resume; a call that finds no Instance, or that QEMU refuses, changes nothing. */
  lemma SwitchOutcome(o: Options, steps: seq<Step>, pauses: bool, agrees: bool)
    ensures var w := Run(o, Initial(), steps);
      var s := w.s;
      var target := if pauses then Paused else Running;
      var (s', r) := Switched(s, target, agrees);
      && Next(o, w, if pauses then PauseCall(agrees) else ResumeCall(agrees)) == w.(s := s')
      && (s.state == NoInstance ==> s' == s && r == Failure(NothingRunning))
      && (s.state != NoInstance && !agrees ==> s' == s && r == Failure(CommandFailed))
      && (s.state != NoInstance && agrees ==> s' == s.(state := target) && r == Success(target))
  {
    hide Run, LedgerInv, WatchInv;
    InitialInv(o);
    RunKeeps(o, Initial(), steps);
  }

  /** A recording starts exactly when an Instance with a display adapter runs, recording is available,
      none is running, and its path, its ffmpeg and that ffmpeg's first moments are fine. One that exits
      at once is given back; any other refusal changes nothing. */
  lemma StartRecordingOutcome(o: Options, steps: seq<Step>, record: RecordInput)
    ensures var w := Run(o, Initial(), steps);
      var s := w.s;
      var (s', r) := StartedRecording(s, record);
      var shows := s.spec.Some? && s.spec.value.displayDevice != NoAdapter;
      var spawned := shows && record.available && s.recording.None? && record.preparesPath && record.spawns;
      && Next(o, w, StartRecordingCall(record)) == w.(s := s')
      && (r.Success? <==> spawned && record.staysAlive)
      && (r.Success? ==> s' == s.(recording := Some(|s.log|), log := s.log + [Acquire(Recorder, [])]))
      && (r == Failure(FfmpegExited) <==> spawned && !record.staysAlive)
      && (r == Failure(FfmpegExited) ==>
            s' == s.(log := s.log + [Acquire(Recorder, []), Release(Recorder, |s.log|)]))
      && (!spawned ==> s' == s)
      && (r == Failure(NothingRunning) <==> s.state == NoInstance)
      && (r == Failure(NoDisplayDevice) <==> s.state != NoInstance && !shows)
      && (r == Failure(RecordingUnavailable) <==> shows && !record.available)
      && (r == Failure(AlreadyRecording) <==> shows && record.available && s.recording.Some?)
      && (r == Failure(RecordingPathFailed) <==>
            shows && record.available && s.recording.None? && !record.preparesPath)
      && (r == Failure(FfmpegNotStarted) <==>
            shows && record.available && s.recording.None? && record.preparesPath && !record.spawns)
  {
    hide Run, LedgerInv, WatchInv;
    InitialInv(o);
    RunKeeps(o, Initial(), steps);
  }

  /** A stop gives the recording back and clears its field, or refuses when there is none. */
  lemma StopRecordingOutcome(o: Options, steps: seq<Step>)
    ensures var w := Run(o, Initial(), steps);
      var s := w.s;
      var (s', r) := StoppedRecording(s);
      && Next(o, w, StopRecordingCall) == w.(s := s')
      && (s.recording.None? ==> s' == s && r == Failure(NotRecording))
      && (s.recording.Some? ==>
            && s' == s.(recording := None, log := s.log + [Release(Recorder, s.recording.value)])
            && r == Success(()) && forall r :: r in Held(s'.log) ==> r.0 != Recorder)
  {
    hide Run, LifecycleInv, WatchInv, Held;
    InitialInv(o);
    RunKeeps(o, Initial(), steps);
    RecordingKeepsLedger(Run(o, Initial(), steps).s, RecordInput(false, false, false, false));
  }

  // ---- Exit watchers ----

  /** Generation safety: in every reachable world, a watcher that is not the current Instance's
      changes nothing when it runs; the current one, once its process has exited, empties the slot
      by closing exactly the process it watched, whose generation is the current one. */
  lemma GenerationSafety(o: Options, steps: seq<Step>, i: nat)
    requires Enabled(Run(o, Initial(), steps), RunWatcher(i))
    ensures var s := Run(o, Initial(), steps).s;
      var s' := Next(o, Run(o, Initial(), steps), RunWatcher(i)).s;
      && Next(o, Run(o, Initial(), steps), RunWatcher(i)).ran == Run(o, Initial(), steps).ran + {i}
      && (s.exitWatcher != Some(i) ==> s' == s)
      && (s.exitWatcher == Some(i) ==>
            && s.handle.Some? && s.spawned[i] == Watcher(s.generation, s.handle.value)
            && s' == Emptied(s) && Held(s'.log) == {})
  {
    hide Run, Held, LedgerInv, Torn;
    InitialInv(o);
    RunKeeps(o, Initial(), steps);
    var w := Run(o, Initial(), steps);
    if w.s.exitWatcher == Some(i) {
      TornCloses(o, w, w.s.(exitWatcher := None), w.ran);
    }
  }

  lemma StepKeepsStale(o: Options, w: World, step: Step, i: nat)
    requires Inv(o, w) && i < |w.s.spawned| && w.s.exitWatcher != Some(i)
    ensures var w' := Next(o, w, step); i < |w'.s.spawned| && w'.s.exitWatcher != Some(i)
  {
    hide Torn, Create, LedgerInv;
    if step.CreateCall? {
      CreateShape(w.s, o, step.input, step.argv);
    } else if w.s.handle.Some? {
      TornShape(StopWatcher(w.s));
      TornShape(w.s.(exitWatcher := None));
    }
  }

  lemma StaleNow(o: Options, w: World, i: nat)
    requires Inv(o, w) && i < |w.s.spawned| && w.s.exitWatcher != Some(i)
    ensures Next(o, w, RunWatcher(i)).s == w.s
  {
    hide Torn, LedgerInv;
    assert w.s.spawned[i].generation == i + 1;
  }

  /** Once a watcher is not the current one, as after a destroy or a recreate, it stays so: running
      it at any later moment changes nothing. */
  lemma {:induction false} StaleForever(o: Options, w: World, steps: seq<Step>, i: nat)
    requires Inv(o, w) && i < |w.s.spawned| && w.s.exitWatcher != Some(i)
    ensures var w' := Run(o, w, steps);
      i < |w'.s.spawned| && Next(o, w', RunWatcher(i)).s == w'.s
    decreases |steps|
  {
    hide Next, Inv;
    if steps == [] {
      StaleNow(o, w, i);
    } else {
      StepKeepsStale(o, w, steps[0], i);
      StepKeeps(o, w, steps[0]);
      StaleForever(o, Next(o, w, steps[0]), steps[1..], i);
    }
  }

  /** No lost exit: whenever the current Instance's process has exited, its watcher is there,
      neither aborted nor already run, and running it leaves no Instance. */
  lemma NoLostExit(o: Options, steps: seq<Step>)
    requires var w := Run(o, Initial(), steps); w.s.handle.Some? && w.s.handle.value in w.exited
    ensures var w := Run(o, Initial(), steps);
      && w.s.exitWatcher.Some?
      && w.s.exitWatcher.value !in w.s.aborted
      && Enabled(w, RunWatcher(w.s.exitWatcher.value))
      && Next(o, w, RunWatcher(w.s.exitWatcher.value)).s.state == NoInstance
  {
    hide Run, LedgerInv, Torn;
    InitialInv(o);
    RunKeeps(o, Initial(), steps);
    TornShape(Run(o, Initial(), steps).s.(exitWatcher := None));
  }

  /** The current Instance's process can exit at any moment, and nothing else changes with it. */
  lemma ExitIsSeen(o: Options, steps: seq<Step>)
    requires Run(o, Initial(), steps).s.handle.Some?
    ensures var w := Run(o, Initial(), steps);
      Next(o, w, ProcessExit(w.s.handle.value)) == w.(exited := w.exited + {w.s.handle.value})
  {
    hide Run, LifecycleInv, WatchInv;
    InitialInv(o);
    RunKeeps(o, Initial(), steps);
    var s := Run(o, Initial(), steps).s;
    HeldIsAcquired(s.log);
    assert (Qemu, s.handle.value) in Held(s.log);
  }
}
