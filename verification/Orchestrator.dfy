/**
 The single-instance Orchestrator: its fields, its tool calls, and the outside resources
 they acquire and release.

 Whatever the driver, the file system, ffmpeg or QEMU may answer is an input of the call.
 `log` records, in order, every outside resource acquired and released; a resource is named
 by the position of its acquisition.
 */
module Orchestrators {
  import opened Wrappers
  import opened HardwareSpecs
  import opened ArgvBuilders

  datatype InstanceState = NoInstance | Starting | Running | Paused | Stopped

  datatype Kind = Qemu | Viewer | SerialBridge | Recorder

  /** `argv` is what a qemu was launched with. */
  datatype Event = Acquire(kind: Kind, argv: seq<string>) | Release(kind: Kind, id: nat)

  /** What awaits the exit of `handle` on behalf of the Instance of that generation. */
  datatype Watcher = Watcher(generation: nat, handle: nat)

  datatype LifecycleError =
    | AlreadyExists
    | NothingRunning
    | BadSpec
    | ViewerNotConfigured
    | NoAccelerator
    | BadHardware(error: SpecError)
    | SpoolDirFailed
    | SerialSocketOccupied
    | LaunchFailed
    | SerialDialFailed
    | DisplayFailed
    | CommandFailed
    | CloseFailed
    | NoDisplayDevice
    | RecordingUnavailable
    | AlreadyRecording
    | RecordingPathFailed
    | FfmpegNotStarted
    | FfmpegExited
    | NotRecording

  /** The accelerator of `argv` is replaced by the resolved one. */
  datatype Options = Options(argv: ArgvOptions, viewerPassword: Option<string>, autoStart: bool)

  /** What a create meets on its way. */
  datatype CreateInput = CreateInput(
    parsed: Option<HardwareSpec>,
    accel: Option<Accel>,
    host: Host,
    makesSpoolDir: bool,
    socketOccupied: bool,
    launches: bool,
    dials: bool,
    setsPassword: bool,
    startsViewer: bool,
    continues: bool)

  datatype RecordInput = RecordInput(available: bool, preparesPath: bool, spawns: bool, staysAlive: bool)

  datatype State = State(
    state: InstanceState,
    handle: Option<nat>,
    viewer: Option<nat>,
    bridge: Option<nat>,
    recording: Option<nat>,
    spec: Option<HardwareSpec>,
    accel: Option<Accel>,
    feeder: Option<nat>,
    generation: nat,
    exitWatcher: Option<nat>,
    spawned: seq<Watcher>,
    aborted: set<nat>,
    log: seq<Event>)

  // ---- The specification of each call ----

  function Acquired(s: State, kind: Kind, argv: seq<string>): State {
    s.(log := s.log + [Acquire(kind, argv)])
  }

  function Released(s: State, kind: Kind, id: nat): State {
    s.(log := s.log + [Release(kind, id)])
  }

  function LoggedIfAny(log: seq<Event>, kind: Kind, id: Option<nat>): seq<Event> {
    match id case None => log case Some(i) => log + [Release(kind, i)]
  }

  function ReleasedIfAny(s: State, kind: Kind, id: Option<nat>): State {
    s.(log := LoggedIfAny(s.log, kind, id))
  }

  predicate NeedsSocket(o: Options, spec: HardwareSpec) {
    spec.serial && o.argv.serialBackend == Socket
  }

  predicate ViewerConfigured(o: Options) {
    o.viewerPassword.Some? && o.viewerPassword.value != ""
  }

  /** What the argv generator answers; it is not asked before the spec and the accelerator are known. */
  function ArgvOf(o: Options, input: CreateInput): Result<seq<string>, SpecError> {
    if input.parsed.None? || input.accel.None? then Success([])
    else Argv(input.host, input.parsed.value, o.argv.(accel := input.accel.value))
  }

  /** The refusals before qemu is launched, in order. */
  function LaunchRefusal(o: Options, input: CreateInput, argv: Result<seq<string>, SpecError>): Option<LifecycleError> {
    if input.parsed.None? then Some(BadSpec)
    else
      var spec := input.parsed.value;
      if spec.display == Vnc && !ViewerConfigured(o) then Some(ViewerNotConfigured)
      else if input.accel.None? then Some(NoAccelerator)
      else if argv.Failure? then Some(BadHardware(argv.error))
      else if spec.serial && o.argv.serialBackend == Spool && !input.makesSpoolDir then Some(SpoolDirFailed)
      else if NeedsSocket(o, spec) && input.socketOccupied then Some(SerialSocketOccupied)
      else if !input.launches then Some(LaunchFailed)
      else None
  }

  datatype Launched = Launched(handle: nat, bridge: Option<nat>)

  function Launch(s: State, o: Options, input: CreateInput, argv: Result<seq<string>, SpecError>)
    : (State, Result<Launched, LifecycleError>)
  {
    var refusal := LaunchRefusal(o, input, argv);
    if refusal.Some? then (s, Failure(refusal.value))
    else
      var s1 := Acquired(s, Qemu, argv.value);
      if !NeedsSocket(o, input.parsed.value) then (s1, Success(Launched(|s.log|, None)))
      else if input.dials then (Acquired(s1, SerialBridge, []), Success(Launched(|s.log|, Some(|s1.log|))))
      else (Released(s1, Qemu, |s.log|), Failure(SerialDialFailed))
  }

  function Aborting(aborted: set<nat>, watcher: Option<nat>): set<nat> {
    match watcher case None => aborted case Some(i) => aborted + {i}
  }

  function StopWatcher(s: State): State {
    s.(exitWatcher := None, aborted := Aborting(s.aborted, s.exitWatcher))
  }

  function SpawnWatcher(s: State, w: Watcher): State {
    var s1 := StopWatcher(s);
    s1.(exitWatcher := Some(|s1.spawned|), spawned := s1.spawned + [w])
  }

  /** The Instance becomes visible. */
  function Visible(s: State, o: Options, input: CreateInput, launched: Launched, viewer: Option<nat>): State {
    s.(feeder := Some(launched.handle), handle := Some(launched.handle), bridge := launched.bridge, viewer := viewer,
       spec := input.parsed, accel := input.accel, generation := s.generation + 1,
       state := if o.autoStart then Running else Paused)
  }

  function Published(s: State, o: Options, input: CreateInput, launched: Launched, viewer: Option<nat>): State {
    SpawnWatcher(Visible(s, o, input, launched, viewer), Watcher(s.generation + 1, launched.handle))
  }

  function Create(s: State, o: Options, input: CreateInput, argv: Result<seq<string>, SpecError>)
    : (State, Result<InstanceState, LifecycleError>)
  {
    if s.state != NoInstance then (s, Failure(AlreadyExists))
    else
      var (s1, r) := Launch(s, o, input, argv);
      if r.Failure? then (s1, Failure(r.error))
      else
        var launched := r.value;
        var vnc := input.parsed.value.display == Vnc;
        if vnc && !(input.setsPassword && input.startsViewer) then
          (Released(ReleasedIfAny(s1, SerialBridge, launched.bridge), Qemu, launched.handle), Failure(DisplayFailed))
        else
          var s2 := if vnc then Acquired(s1, Viewer, []) else s1;
          var s3 := Published(s2, o, input, launched, if vnc then Some(|s1.log|) else None);
          if o.autoStart && !input.continues then (s3, Failure(CommandFailed)) else (s3, Success(s3.state))
  }

  /** The teardown that a destroy and an unexpected exit share. */
  function Torn(s: State): State
    requires s.handle.Some?
  {
    var s1 := ReleasedIfAny(ReleasedIfAny(s, Recorder, s.recording), SerialBridge, s.bridge);
    var s2 := Released(ReleasedIfAny(s1, Viewer, s.viewer), Qemu, s.handle.value);
    s2.(handle := None, viewer := None, bridge := None, recording := None, spec := None, accel := None,
        feeder := None, state := NoInstance)
  }

  function Destroy(s: State, closes: bool): (State, Result<(), LifecycleError>) {
    if s.state == NoInstance || s.handle.None? then (s, Failure(NothingRunning))
    else (Torn(StopWatcher(s)), if closes then Success(()) else Failure(CloseFailed))
  }

  function Reconciled(s: State, generation: nat): State {
    if s.generation != generation || s.state == NoInstance || s.handle.None? then s
    else Torn(s.(exitWatcher := None))
  }

  /** `stop` or `cont`, moving to `target` if QEMU agrees. */
  function Switched(s: State, target: InstanceState, agrees: bool): (State, Result<InstanceState, LifecycleError>) {
    if s.handle.None? then (s, Failure(NothingRunning))
    else if !agrees then (s, Failure(CommandFailed))
    else (s.(state := target), Success(target))
  }

  function RecordingRefusal(s: State, input: RecordInput): Option<LifecycleError> {
    if s.handle.None? then Some(NothingRunning)
    else if s.spec.None? || s.spec.value.displayDevice == NoAdapter then Some(NoDisplayDevice)
    else if !input.available then Some(RecordingUnavailable)
    else if s.recording.Some? then Some(AlreadyRecording)
    else if !input.preparesPath then Some(RecordingPathFailed)
    else if !input.spawns then Some(FfmpegNotStarted)
    else None
  }

  function StartedRecording(s: State, input: RecordInput): (State, Result<nat, LifecycleError>) {
    var refusal := RecordingRefusal(s, input);
    if refusal.Some? then (s, Failure(refusal.value))
    else
      var s1 := Acquired(s, Recorder, []);
      if input.staysAlive then (s1.(recording := Some(|s.log|)), Success(|s.log|))
      else (Released(s1, Recorder, |s.log|), Failure(FfmpegExited))
  }

  function StoppedRecording(s: State): (State, Result<(), LifecycleError>) {
    if s.recording.None? then (s, Failure(NotRecording))
    else (Released(s.(recording := None), Recorder, s.recording.value), Success(()))
  }

  /** A launch only logs, and does not look at the lifecycle state. */
  lemma LaunchIgnoresState(s: State, state: InstanceState, o: Options, input: CreateInput,
      argv: Result<seq<string>, SpecError>)
    ensures var (s', r) := Launch(s, o, input, argv);
      && s' == s.(log := s'.log)
      && Launch(s.(state := state), o, input, argv) == (s'.(state := state), r)
      && (r.Success? ==> input.parsed.Some? && input.accel.Some?)
  {
  }

  lemma PublishedIgnoresState(s: State, state: InstanceState, o: Options, input: CreateInput, launched: Launched,
      viewer: Option<nat>)
    ensures Published(s.(state := state), o, input, launched, viewer) == Published(s, o, input, launched, viewer)
    ensures Published(s, o, input, launched, viewer).state == if o.autoStart then Running else Paused
  {
  }

  // ---- The Orchestrator ----

  class Orchestrator {
    const options: Options
    var state: InstanceState
    var handle: Option<nat>
    var viewer: Option<nat>
    var bridge: Option<nat>
    var recording: Option<nat>
    var spec: Option<HardwareSpec>
    var accel: Option<Accel>
    var feeder: Option<nat>
    var generation: nat
    var exitWatcher: Option<nat>
    var spawned: seq<Watcher>
    var aborted: set<nat>
    var log: seq<Event>

    ghost function View(): State
      reads this
    {
      State(state, handle, viewer, bridge, recording, spec, accel, feeder,
            generation, exitWatcher, spawned, aborted, log)
    }

    constructor (options: Options)
      ensures this.options == options
      ensures View() == Empty()
    {
      this.options := options;
      state := NoInstance;
      handle, viewer, bridge, recording := None, None, None, None;
      spec, accel, feeder := None, None, None;
      generation, exitWatcher := 0, None;
      spawned, aborted, log := [], {}, [];
    }

    method Obtain(kind: Kind, argv: seq<string>) returns (id: nat)
      modifies this`log
      ensures log == old(log) + [Acquire(kind, argv)] && id == |old(log)|
    {
      id := |log|;
      log := log + [Acquire(kind, argv)];
    }

    method GiveBack(kind: Kind, id: nat)
      modifies this`log
      ensures log == old(log) + [Release(kind, id)]
    {
      log := log + [Release(kind, id)];
    }

    method GiveBackIfAny(kind: Kind, id: Option<nat>)
      modifies this`log
      ensures log == LoggedIfAny(old(log), kind, id)
    {
      if id.Some? {
        GiveBack(kind, id.value);
      }
    }

    method LaunchInstance(input: CreateInput) returns (r: Result<Launched, LifecycleError>)
      modifies this`log
      ensures (View(), r) == Launch(old(View()), options, input, ArgvOf(options, input))
    {
      hide Argv;
      if input.parsed.None? {
        return Failure(BadSpec);
      }
      var spec := input.parsed.value;
      if spec.display == Vnc {
        if !ViewerConfigured(options) {
          return Failure(ViewerNotConfigured);
        }
      }
      if input.accel.None? {
        return Failure(NoAccelerator);
      }
      var argv := BuildArgv(input.host, spec, options.argv.(accel := input.accel.value));
      if argv.Failure? {
        return Failure(BadHardware(argv.error));
      }
      if spec.serial && options.argv.serialBackend == Spool {
        if !input.makesSpoolDir {
          return Failure(SpoolDirFailed);
        }
      }
      if spec.serial && options.argv.serialBackend == Socket {
        if input.socketOccupied {
          return Failure(SerialSocketOccupied);
        }
      }
      if !input.launches {
        return Failure(LaunchFailed);
      }
      var handle := Obtain(Qemu, argv.value);
      var bridge: Option<nat> := None;
      if spec.serial && options.argv.serialBackend == Socket {
        if !input.dials {
          GiveBack(Qemu, handle);
          return Failure(SerialDialFailed);
        }
        var id := Obtain(SerialBridge, []);
        bridge := Some(id);
      }
      return Success(Launched(handle, bridge));
    }

    method StopExitWatcher()
      modifies this`exitWatcher, this`aborted
      ensures exitWatcher == None
      ensures aborted == Aborting(old(aborted), old(exitWatcher))
    {
      if exitWatcher.Some? {
        aborted := aborted + {exitWatcher.value};
        exitWatcher := None;
      }
    }

    method SpawnExitWatcher(generation: nat, exited: nat)
      modifies this`exitWatcher, this`aborted, this`spawned
      ensures exitWatcher == Some(|old(spawned)|) && spawned == old(spawned) + [Watcher(generation, exited)]
      ensures aborted == Aborting(old(aborted), old(exitWatcher))
    {
      StopExitWatcher();
      exitWatcher := Some(|spawned|);
      spawned := spawned + [Watcher(generation, exited)];
    }

    /** The middle of a create, once nothing but the auto-start can fail. */
    method Publish(input: CreateInput, launched: Launched, shown: Option<nat>)
      modifies this
      ensures View() == Published(old(View()), options, input, launched, shown)
    {
      Show(input, launched, shown);
      SpawnExitWatcher(generation, launched.handle);
    }

    method Show(input: CreateInput, launched: Launched, shown: Option<nat>)
      modifies this
      ensures View() == Visible(old(View()), options, input, launched, shown)
    {
      feeder := Some(launched.handle);
      handle := Some(launched.handle);
      bridge := launched.bridge;
      viewer := shown;
      spec := input.parsed;
      accel := input.accel;
      generation := generation + 1;
      state := if options.autoStart then Running else Paused;
    }

    method CreateInstance(input: CreateInput) returns (r: Result<InstanceState, LifecycleError>)
      modifies this
      ensures (View(), r) == Create(old(View()), options, input, ArgvOf(options, input))
    {
      hide Argv, Launch, Published, LoggedIfAny;
      if state != NoInstance {
        return Failure(AlreadyExists);
      }
      LaunchIgnoresState(View(), Starting, options, input, ArgvOf(options, input));
      state := Starting;
      var launch := LaunchInstance(input);
      if launch.Failure? {
        state := NoInstance;
        return Failure(launch.error);
      }
      var launched := launch.value;
      var shown: Option<nat> := None;
      if input.parsed.value.display == Vnc {
        if !(input.setsPassword && input.startsViewer) {
          GiveBackIfAny(SerialBridge, launched.bridge);
          GiveBack(Qemu, launched.handle);
          state := NoInstance;
          return Failure(DisplayFailed);
        }
        var id := Obtain(Viewer, []);
        shown := Some(id);
      }
      PublishedIgnoresState(View(), NoInstance, options, input, launched, shown);
      Publish(input, launched, shown);
      if options.autoStart {
        if !input.continues {
          return Failure(CommandFailed);
        }
      }
      return Success(state);
    }

    method TeardownCurrentInstance()
      requires handle.Some?
      modifies this
      ensures View() == Torn(old(View()))
    {
      hide LoggedIfAny;
      var taken := handle.value;
      handle := None;
      var shown := viewer;
      viewer := None;
      GiveBackIfAny(Recorder, recording);
      recording := None;
      GiveBackIfAny(SerialBridge, bridge);
      bridge := None;
      spec := None;
      accel := None;
      state := Stopped;
      feeder := None;
      GiveBackIfAny(Viewer, shown);
      GiveBack(Qemu, taken);
      state := NoInstance;
    }

    method DestroyInstance(closes: bool) returns (r: Result<(), LifecycleError>)
      modifies this
      ensures (View(), r) == Destroy(old(View()), closes)
    {
      if state == NoInstance || handle.None? {
        return Failure(NothingRunning);
      }
      StopExitWatcher();
      TeardownCurrentInstance();
      return if closes then Success(()) else Failure(CloseFailed);
    }

    method ReconcileUnexpectedExit(generation: nat)
      modifies this
      ensures View() == Reconciled(old(View()), generation)
    {
      if this.generation != generation || state == NoInstance || handle.None? {
        return;
      }
      exitWatcher := None;
      TeardownCurrentInstance();
    }

    method PauseInstance(agrees: bool) returns (r: Result<InstanceState, LifecycleError>)
      modifies this`state
      ensures (View(), r) == Switched(old(View()), Paused, agrees)
    {
      if handle.None? {
        return Failure(NothingRunning);
      }
      if !agrees {
        return Failure(CommandFailed);
      }
      state := Paused;
      return Success(state);
    }

    method ResumeInstance(agrees: bool) returns (r: Result<InstanceState, LifecycleError>)
      modifies this`state
      ensures (View(), r) == Switched(old(View()), Running, agrees)
    {
      if handle.None? {
        return Failure(NothingRunning);
      }
      if !agrees {
        return Failure(CommandFailed);
      }
      state := Running;
      return Success(state);
    }

    method StartRecording(input: RecordInput) returns (r: Result<nat, LifecycleError>)
      modifies this`recording, this`log
      ensures (View(), r) == StartedRecording(old(View()), input)
    {
      if handle.None? {
        return Failure(NothingRunning);
      }
      if spec.None? || spec.value.displayDevice == NoAdapter {
        return Failure(NoDisplayDevice);
      }
      if !input.available {
        return Failure(RecordingUnavailable);
      }
      if recording.Some? {
        return Failure(AlreadyRecording);
      }
      if !input.preparesPath {
        return Failure(RecordingPathFailed);
      }
      if !input.spawns {
        return Failure(FfmpegNotStarted);
      }
      var child := Obtain(Recorder, []);
      if !input.staysAlive {
        GiveBack(Recorder, child);
        return Failure(FfmpegExited);
      }
      recording := Some(child);
      return Success(child);
    }

    method StopRecording() returns (r: Result<(), LifecycleError>)
      modifies this`recording, this`log
      ensures (View(), r) == StoppedRecording(old(View()))
    {
      if recording.None? {
        return Failure(NotRecording);
      }
      var taken := recording.value;
      recording := None;
      GiveBack(Recorder, taken);
      return Success(());
    }
  }

  /** A new Orchestrator. */
  function Empty(): State {
    State(NoInstance, None, None, None, None, None, None, None, 0, None, [], {}, [])
  }
}
