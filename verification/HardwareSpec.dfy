/**
 The validated Hardware Spec, the operator's options, and what argv must say for them.

 An option is a flag with or without a value; a QemuOpts value is specified as the
 property list it stands for. `Argv` gives the tokens, or the first refusal in the order
 the generator checks.
 */
module HardwareSpecs {
  import opened Wrappers
  import opened QemuOpts

  datatype Accel = Kvm | Tcg {
    function Text(): string { match this case Kvm => "kvm" case Tcg => "tcg" }
  }

  datatype DisplayMode = Headless | Vnc

  datatype DisplayDevice = NoAdapter | VirtioGpu | Vga | Ramfb {
    function QemuDevice(): Option<string> {
      match this
      case NoAdapter => None
      case VirtioGpu => Some("virtio-gpu-pci")
      case Vga => Some("VGA")
      case Ramfb => Some("ramfb")
    }
  }

  datatype DiskInterface = Virtio | Ide | Scsi | Sd {
    function Text(): string {
      match this case Virtio => "virtio" case Ide => "ide" case Scsi => "scsi" case Sd => "sd"
    }
  }

  datatype ImageFormat = Qcow2 | Raw {
    function Text(): string { match this case Qcow2 => "qcow2" case Raw => "raw" }
  }

  datatype NicModel = VirtioNetPci | E1000 | Rtl8139 | UsbNet {
    function Text(): string {
      match this
      case VirtioNetPci => "virtio-net-pci"
      case E1000 => "e1000"
      case Rtl8139 => "rtl8139"
      case UsbNet => "usb-net"
    }
  }

  datatype NetworkMode = User | Tap | Bridge | NoNetwork {
    function Text(): string {
      match this case User => "user" case Tap => "tap" case Bridge => "bridge" case NoNetwork => "none"
    }
  }

  datatype NetProtocol = Tcp | Udp {
    function Text(): string { match this case Tcp => "tcp" case Udp => "udp" }
  }

  datatype SerialBackend = Ringbuf | Spool | Socket

  datatype Disk = Disk(image: string, interface: DiskInterface, format: ImageFormat, readonly: bool)

  datatype HostForward = HostForward(hostPort: nat, guestPort: nat, proto: NetProtocol)

  datatype Network = Network(mode: NetworkMode, model: NicModel, hostForwards: seq<HostForward>)

  datatype HardwareSpec = HardwareSpec(
    machine: string,
    cpu: string,
    vcpus: nat,
    memoryMb: nat,
    display: DisplayMode,
    displayDevice: DisplayDevice,
    disks: seq<Disk>,
    cdrom: Option<string>,
    share: bool,
    serial: bool,
    serialSpool: Option<string>,
    boot: Option<string>,
    kernel: Option<string>,
    initrd: Option<string>,
    dtb: Option<string>,
    appendCmdline: Option<string>,
    network: Network,
    extraArgs: Option<seq<string>>)

  datatype PortRange = PortRange(low: nat, high: nat)

  const DEFAULT_HOSTFWD_PORT_RANGE := PortRange(1024, 65535)

  /** `serialSocketPath` is the sibling of the QMP socket that the socket backend listens on. */
  datatype ArgvOptions = ArgvOptions(
    accel: Accel,
    qmpSocketPath: string,
    serialSocketPath: string,
    imageDir: Option<string>,
    isoDir: Option<string>,
    hostShareDir: Option<string>,
    shareReadonly: Option<bool>,
    serialBufferBytes: nat,
    serialBackend: SerialBackend,
    serialSpoolDir: Option<string>,
    hostfwdPortRange: Option<PortRange>,
    allowHostNet: bool,
    maxMemoryMb: Option<nat>,
    maxVcpus: Option<nat>,
    allowRawArgs: bool)

  /** The file system as the stores see it: the real path of each directory that exists, and the
      paths that are dangling or lead out of their store. */
  datatype Host = Host(canonical: map<string, string>, escaping: set<string>)

  datatype SpecError =
    | OverMemoryCap
    | OverVcpusCap
    | StoreNotConfigured
    | BadReference
    | AdapterOnRaspi
    | ShareNotConfigured
    | ShareOnRaspi
    | SpoolNotConfigured
    | BadSpoolName
    | ForwardsNeedUserMode
    | UsbNetNeedsRaspi
    | PciNicOnRaspi
    | ForwardOutOfRange
    | HostNetRefused
    | RawArgsRefused

  // ---- Names and paths ----

  predicate IsWhite(c: char) {
    c as int in {0x20, 0x85, 0xA0, 0x1680, 0x2028, 0x2029, 0x202F, 0x205F, 0x3000}
    || 0x09 <= c as int <= 0x0D || 0x2000 <= c as int <= 0x200A
  }

  /** `s.trim().is_empty()`. */
  predicate Blank(s: string) {
    forall c | c in s :: IsWhite(c)
  }

  predicate IsAlnum(c: char) {
    'a' <= c <= 'z' || 'A' <= c <= 'Z' || '0' <= c <= '9'
  }

  /** A single safe path segment. */
  predicate IsStoreName(name: string) {
    name != "" && IsAlnum(name[0]) && forall c | c in name :: IsAlnum(c) || c == '.' || c == '_' || c == '-'
  }

  function PathJoin(dir: string, name: string): string {
    if dir == "" || dir[|dir| - 1] == '/' then dir + name else dir + "/" + name
  }

  function ResolveInStore(host: Host, name: string, dir: Option<string>): Result<string, SpecError> {
    if dir.None? || Blank(dir.value) then Failure(StoreNotConfigured)
    else if !IsStoreName(name) || dir.value !in host.canonical then Failure(BadReference)
    else
      var path := PathJoin(host.canonical[dir.value], name);
      if path in host.escaping then Failure(BadReference) else Success(path)
  }

  function SpoolPath(dir: Option<string>, subdir: Option<string>): Result<string, SpecError> {
    if dir.None? || Blank(dir.value) then Failure(SpoolNotConfigured)
    else match subdir
      case None => Success(PathJoin(dir.value, "serial.log"))
      case Some(name) =>
        if !IsStoreName(name) then Failure(BadSpoolName)
        else Success(PathJoin(PathJoin(dir.value, name), "serial.log"))
  }

  predicate IsRaspi(machine: string) {
    machine in {"raspi0", "raspi1ap", "raspi2b", "raspi3ap", "raspi3b", "raspi4b"}
  }

  // ---- Numbers ----

  function Decimal(n: nat): (text: string)
    ensures text != "" && forall c :: c in text ==> '0' <= c <= '9'
  {
    var last := [(n % 10 + '0' as int) as char];
    if n < 10 then last else Decimal(n / 10) + last
  }

  // ---- What the options stand for ----

  datatype Flag =
    | FMachine | FCpu | FSmp | FMemory | FKernel | FInitrd | FDtb | FAppend
    | FNodefaults | FNographic | FFreeze | FVnc | FDevice | FDrive | FFsdev
    | FChardev | FSerial | FBoot | FNetdev | FQmp
  {
    function Text(): string {
      match this
      case FMachine => "-machine"
      case FCpu => "-cpu"
      case FSmp => "-smp"
      case FMemory => "-m"
      case FKernel => "-kernel"
      case FInitrd => "-initrd"
      case FDtb => "-dtb"
      case FAppend => "-append"
      case FNodefaults => "-nodefaults"
      case FNographic => "-nographic"
      case FFreeze => "-S"
      case FVnc => "-vnc"
      case FDevice => "-device"
      case FDrive => "-drive"
      case FFsdev => "-fsdev"
      case FChardev => "-chardev"
      case FSerial => "-serial"
      case FBoot => "-boot"
      case FNetdev => "-netdev"
      case FQmp => "-qmp"
    }

    /** The flags that take no value. */
    predicate Bare() {
      FNodefaults? || FNographic? || FFreeze?
    }
  }

  datatype Opt = Opt(flag: Flag, value: Option<string>)

  function Setting(flag: Flag, value: string): Opt {
    Opt(flag, Some(value))
  }

  function PropsOpt(flag: Flag, props: seq<string>): Opt {
    Setting(flag, Render(props))
  }

  function DriveProps(disk: Disk, path: string): seq<string> {
    ["file=" + path, "format=" + disk.format.Text(), "if=" + disk.interface.Text(), "media=disk"]
    + if disk.readonly then ["readonly=on"] else []
  }

  function CdromProps(path: string): seq<string> {
    ["file=" + path, "media=cdrom", "readonly=on", "format=raw"]
  }

  function ShareProps(path: string, readonly: bool): seq<string> {
    ["local", "id=fsdev0", "path=" + path, "security_model=mapped-xattr"]
    + if readonly then ["readonly=on"] else []
  }

  function ForwardText(f: HostForward): string {
    "hostfwd=" + f.proto.Text() + ":127.0.0.1:" + Decimal(f.hostPort) + "-:" + Decimal(f.guestPort)
  }

  function ForwardTexts(fs: seq<HostForward>): (texts: seq<string>)
    ensures |texts| == |fs| && forall i :: 0 <= i < |fs| ==> texts[i] == ForwardText(fs[i])
  {
    seq(|fs|, i requires 0 <= i < |fs| => ForwardText(fs[i]))
  }

  function NetdevProps(network: Network): seq<string> {
    [network.mode.Text(), "id=net0"] + ForwardTexts(network.hostForwards)
  }

  function OptionOf(flag: Flag, value: Option<string>): seq<Opt> {
    if value.None? then [] else [Setting(flag, value.value)]
  }

  function ResolveOptional(host: Host, name: Option<string>, dir: Option<string>): Result<Option<string>, SpecError> {
    match name
    case None => Success(None)
    case Some(n) => var path :- ResolveInStore(host, n, dir); Success(Some(path))
  }

  /** The in-store paths of the disks, in order, or the first refusal. */
  function DiskPaths(host: Host, disks: seq<Disk>, dir: Option<string>): (r: Result<seq<string>, SpecError>)
    ensures r.Success? ==> |r.value| == |disks|
  {
    if disks == [] then Success([])
    else
      var path :- ResolveInStore(host, disks[0].image, dir);
      var rest :- DiskPaths(host, disks[1..], dir);
      Success([path] + rest)
  }

  function DriveOpts(disks: seq<Disk>, paths: seq<string>): seq<Opt>
    requires |disks| == |paths|
  {
    if disks == [] then []
    else [PropsOpt(FDrive, DriveProps(disks[0], paths[0]))] + DriveOpts(disks[1..], paths[1..])
  }

  function ShareOpts(path: Option<string>, readonly: bool): seq<Opt> {
    if path.None? then []
    else [PropsOpt(FFsdev, ShareProps(path.value, readonly)),
          PropsOpt(FDevice, ShareDeviceProps())]
  }

  function ShareDeviceProps(): seq<string> {
    ["virtio-9p-pci", "fsdev=fsdev0", "mount_tag=share"]
  }

  function SerialProps(backend: SerialBackend, path: string, size: nat): seq<string> {
    match backend
    case Ringbuf => ["ringbuf", "id=serialbuf", "size=" + Decimal(size)]
    case Spool => ["file", "id=serialbuf", "path=" + path]
    case Socket => ["socket", "id=serialbuf", "path=" + path, "server=on", "wait=off"]
  }

  function SerialOpts(props: Option<seq<string>>): seq<Opt> {
    if props.None? then []
    else [PropsOpt(FChardev, props.value), Setting(FSerial, "chardev:serialbuf")]
  }

  function NetworkOpts(network: Network): seq<Opt> {
    if network.mode == NoNetwork then []
    else [PropsOpt(FNetdev, NetdevProps(network)), PropsOpt(FDevice, [network.model.Text(), "netdev=net0"])]
  }

  // ---- Refusals ----

  function CheckCaps(spec: HardwareSpec, options: ArgvOptions): Option<SpecError> {
    if options.maxMemoryMb.Some? && spec.memoryMb > options.maxMemoryMb.value then Some(OverMemoryCap)
    else if options.maxVcpus.Some? && spec.vcpus > options.maxVcpus.value then Some(OverVcpusCap)
    else None
  }

  function ForwardRange(options: ArgvOptions): PortRange {
    match options.hostfwdPortRange case None => DEFAULT_HOSTFWD_PORT_RANGE case Some(range) => range
  }

  function CheckNetwork(network: Network, machine: string, options: ArgvOptions): Option<SpecError> {
    if network.mode != User && network.hostForwards != [] then Some(ForwardsNeedUserMode)
    else if network.mode == NoNetwork then None
    else if network.model == UsbNet && !IsRaspi(machine) then Some(UsbNetNeedsRaspi)
    else if network.model != UsbNet && IsRaspi(machine) then Some(PciNicOnRaspi)
    else if network.mode == User then
      var range := ForwardRange(options);
      if exists f | f in network.hostForwards :: !(range.low <= f.hostPort <= range.high)
      then Some(ForwardOutOfRange) else None
    else if !options.allowHostNet then Some(HostNetRefused)
    else None
  }

  function SharePath(spec: HardwareSpec, options: ArgvOptions): Result<Option<string>, SpecError> {
    if !spec.share then Success(None)
    else if options.hostShareDir.None? || Blank(options.hostShareDir.value) then Failure(ShareNotConfigured)
    else if IsRaspi(spec.machine) then Failure(ShareOnRaspi)
    else Success(options.hostShareDir)
  }

  function SerialPropsOf(spec: HardwareSpec, options: ArgvOptions): Result<Option<seq<string>>, SpecError> {
    if !spec.serial then Success(None)
    else match options.serialBackend
      case Ringbuf => Success(Some(SerialProps(Ringbuf, "", options.serialBufferBytes)))
      case Spool =>
        var path :- SpoolPath(options.serialSpoolDir, spec.serialSpool);
        Success(Some(SerialProps(Spool, path, 0)))
      case Socket => Success(Some(SerialProps(Socket, options.serialSocketPath, 0)))
  }

  function Guard(refusal: Option<SpecError>): Result<(), SpecError> {
    if refusal.Some? then Failure(refusal.value) else Success(())
  }

  /** Everything argv needs from the host: the resolved paths. */
  datatype Paths = Paths(
    kernel: Option<string>, initrd: Option<string>, dtb: Option<string>,
    disks: seq<string>, cdrom: Option<string>, share: Option<string>, serial: Option<seq<string>>)

  /** The resolved paths, or the first refusal in the order of the generator. */
  function Resolve(host: Host, spec: HardwareSpec, options: ArgvOptions): (r: Result<Paths, SpecError>)
    ensures r.Success? ==> |r.value.disks| == |spec.disks|
  {
    var _ :- Guard(CheckCaps(spec, options));
    var kernel :- ResolveOptional(host, spec.kernel, options.imageDir);
    var initrd :- ResolveOptional(host, spec.initrd, options.imageDir);
    var dtb :- ResolveOptional(host, spec.dtb, options.imageDir);
    var _ :- Guard(if spec.displayDevice != NoAdapter && IsRaspi(spec.machine) then Some(AdapterOnRaspi) else None);
    var disks :- DiskPaths(host, spec.disks, options.imageDir);
    var cdrom :- ResolveOptional(host, spec.cdrom, options.isoDir);
    var share :- SharePath(spec, options);
    var serial :- SerialPropsOf(spec, options);
    var _ :- Guard(CheckNetwork(spec.network, spec.machine, options));
    var _ :- Guard(if HasExtra(spec) && !options.allowRawArgs then Some(RawArgsRefused) else None);
    Success(Paths(kernel, initrd, dtb, disks, cdrom, share, serial))
  }

  predicate HasExtra(spec: HardwareSpec) {
    spec.extraArgs.Some? && spec.extraArgs.value != []
  }

  // ---- The options, segment by segment ----

  function SizingOpts(spec: HardwareSpec): seq<Opt> {
    if IsRaspi(spec.machine) then []
    else [Setting(FCpu, spec.cpu), Setting(FSmp, Decimal(spec.vcpus)), Setting(FMemory, Decimal(spec.memoryMb))]
  }

  function BootOpts(spec: HardwareSpec, paths: Paths): seq<Opt> {
    OptionOf(FKernel, paths.kernel) + OptionOf(FInitrd, paths.initrd) + OptionOf(FDtb, paths.dtb)
    + OptionOf(FAppend, spec.appendCmdline)
  }

  function FixedOpts(): seq<Opt> {
    [Opt(FNodefaults, None), Opt(FNographic, None), Opt(FFreeze, None)]
  }

  function DisplayOpts(spec: HardwareSpec): seq<Opt> {
    OptionOf(FVnc, if spec.display == Vnc then Some("127.0.0.1:0,password=on") else None)
    + OptionOf(FDevice, spec.displayDevice.QemuDevice())
  }

  function CdromOpts(path: Option<string>): seq<Opt> {
    if path.None? then [] else [PropsOpt(FDrive, CdromProps(path.value))]
  }

  function OrderOpts(boot: Option<string>): seq<Opt> {
    if boot.None? then [] else [PropsOpt(FBoot, ["order=" + boot.value])]
  }

  function QmpOpts(options: ArgvOptions): seq<Opt> {
    [Setting(FQmp, "unix:" + options.qmpSocketPath + ",server=on,wait=off")]
  }

  /** Whether the folder share is mounted read-only: unless the operator enabled writes. */
  predicate ShareIsReadonly(options: ArgvOptions) {
    options.shareReadonly != Some(false)
  }

  function HeadOpts(spec: HardwareSpec, options: ArgvOptions, paths: Paths): seq<Opt> {
    [PropsOpt(FMachine, [spec.machine, "accel=" + options.accel.Text()])]
    + SizingOpts(spec) + BootOpts(spec, paths) + FixedOpts() + DisplayOpts(spec)
  }

  function DeviceOpts(spec: HardwareSpec, options: ArgvOptions, paths: Paths): seq<Opt>
    requires |paths.disks| == |spec.disks|
  {
    DriveOpts(spec.disks, paths.disks) + CdromOpts(paths.cdrom)
    + ShareOpts(paths.share, ShareIsReadonly(options)) + SerialOpts(paths.serial)
  }

  function TailOpts(spec: HardwareSpec, options: ArgvOptions): seq<Opt> {
    OrderOpts(spec.boot) + NetworkOpts(spec.network) + QmpOpts(options)
  }

  function Opts(spec: HardwareSpec, options: ArgvOptions, paths: Paths): seq<Opt>
    requires |paths.disks| == |spec.disks|
  {
    HeadOpts(spec, options, paths) + DeviceOpts(spec, options, paths) + TailOpts(spec, options)
  }

  function Flatten(opts: seq<Opt>): seq<string> {
    if opts == [] then []
    else
      (if opts[0].value.None? then [opts[0].flag.Text()] else [opts[0].flag.Text(), opts[0].value.value])
      + Flatten(opts[1..])
  }

  function Argv(host: Host, spec: HardwareSpec, options: ArgvOptions): Result<seq<string>, SpecError> {
    var paths :- Resolve(host, spec, options);
    Success(Flatten(Opts(spec, options, paths)) + if HasExtra(spec) then spec.extraArgs.value else [])
  }
}
