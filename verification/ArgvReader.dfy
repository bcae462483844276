/**
 A left-to-right reader of argv, and the proof that it recovers everything printed.

 `Tokens` groups the tokens into options, `Absorb` reads one option into a `Hardware`
 record, and `Read` folds it over them.
 */
module ArgvReaders {
  import opened Wrappers
  import opened QemuOpts
  import opened HardwareSpecs

  // ---- Tokens to options ----

  /** The flag a token spells, if any. */
  function FlagOf(text: string): Option<Flag> {
    if text == "-machine" then Some(FMachine)
    else if text == "-cpu" then Some(FCpu)
    else if text == "-smp" then Some(FSmp)
    else if text == "-m" then Some(FMemory)
    else if text == "-kernel" then Some(FKernel)
    else if text == "-initrd" then Some(FInitrd)
    else if text == "-dtb" then Some(FDtb)
    else if text == "-append" then Some(FAppend)
    else if text == "-nodefaults" then Some(FNodefaults)
    else if text == "-nographic" then Some(FNographic)
    else if text == "-S" then Some(FFreeze)
    else if text == "-vnc" then Some(FVnc)
    else if text == "-device" then Some(FDevice)
    else if text == "-drive" then Some(FDrive)
    else if text == "-fsdev" then Some(FFsdev)
    else if text == "-chardev" then Some(FChardev)
    else if text == "-serial" then Some(FSerial)
    else if text == "-boot" then Some(FBoot)
    else if text == "-netdev" then Some(FNetdev)
    else if text == "-qmp" then Some(FQmp)
    else None
  }

  /** Left to right: a flag and, unless it is bare, the token after it; other tokens are skipped. */
  function Tokens(argv: seq<string>): seq<Opt>
    decreases |argv|
  {
    if argv == [] then []
    else match FlagOf(argv[0])
      case None => Tokens(argv[1..])
      case Some(flag) =>
        if flag.Bare() || |argv| == 1 then [Opt(flag, None)] + Tokens(argv[1..])
        else [Opt(flag, Some(argv[1]))] + Tokens(argv[2..])
  }

  predicate WellFormed(opt: Opt) {
    opt.value.None? <==> opt.flag.Bare()
  }

  lemma FlagOfText(f: Flag)
    ensures FlagOf(f.Text()) == Some(f)
  {
  }

  lemma {:induction false} TokensFlatten(opts: seq<Opt>)
    requires AllWellFormed(opts)
    ensures Tokens(Flatten(opts)) == opts
  {
    hide FlagOf;
    if opts != [] {
      var rest := Flatten(opts[1..]);
      TokensFlatten(opts[1..]);
      assert WellFormed(opts[0]);
      FlagOfText(opts[0].flag);
      if opts[0].value.None? {
        assert Flatten(opts)[1..] == rest;
      } else {
        assert Flatten(opts)[2..] == rest;
      }
    }
  }

  // ---- Options to hardware ----

  /** `properties` counts all properties there were, also those that were not understood. */
  datatype Drive = Drive(
    path: string, format: Option<ImageFormat>, interface: Option<DiskInterface>, media: string, readonly: bool,
    properties: nat)

  datatype Share = Share(driver: string, id: string, path: string, model: string, readonly: bool, properties: nat)

  datatype Nic = Nic(
    mode: Option<NetworkMode>, id: string, model: Option<NicModel>, forwards: seq<Option<HostForward>>)

  datatype Hardware = Hardware(
    machine: Option<string>,
    accel: Option<Accel>,
    cpu: Option<string>,
    vcpus: Option<nat>,
    memoryMb: Option<nat>,
    kernel: Option<string>,
    initrd: Option<string>,
    dtb: Option<string>,
    append: Option<string>,
    vnc: Option<string>,
    adapter: DisplayDevice,
    drives: seq<Drive>,
    share: Option<Share>,
    shareDevice: Option<seq<string>>,
    chardev: Option<seq<string>>,
    console: Option<string>,
    boot: Option<string>,
    nic: Option<Nic>,
    qmp: Option<string>)

  const NOTHING := Hardware(
    None, None, None, None, None, None, None, None, None, None, NoAdapter, [], None, None, None, None, None, None, None)

  // ---- Words and numbers ----

  function ReadAccel(text: string): Option<Accel> {
    if text == "kvm" then Some(Kvm) else if text == "tcg" then Some(Tcg) else None
  }

  function ReadFormat(text: string): Option<ImageFormat> {
    if text == "qcow2" then Some(Qcow2) else if text == "raw" then Some(Raw) else None
  }

  function ReadInterface(text: string): Option<DiskInterface> {
    if text == "virtio" then Some(Virtio) else if text == "ide" then Some(Ide)
    else if text == "scsi" then Some(Scsi) else if text == "sd" then Some(Sd) else None
  }

  function ReadMode(text: string): Option<NetworkMode> {
    if text == "user" then Some(User) else if text == "tap" then Some(Tap)
    else if text == "bridge" then Some(Bridge) else if text == "none" then Some(NoNetwork) else None
  }

  function ReadModel(text: string): Option<NicModel> {
    if text == "virtio-net-pci" then Some(VirtioNetPci) else if text == "e1000" then Some(E1000)
    else if text == "rtl8139" then Some(Rtl8139) else if text == "usb-net" then Some(UsbNet) else None
  }

  function ReadAdapter(text: string): DisplayDevice {
    if text == "virtio-gpu-pci" then VirtioGpu else if text == "VGA" then Vga
    else if text == "ramfb" then Ramfb else NoAdapter
  }

  lemma WordsRead(accel: Accel, format: ImageFormat, interface: DiskInterface, mode: NetworkMode, model: NicModel,
      adapter: DisplayDevice)
    ensures ReadAccel(accel.Text()) == Some(accel) && ReadFormat(format.Text()) == Some(format)
    ensures ReadInterface(interface.Text()) == Some(interface) && ReadMode(mode.Text()) == Some(mode)
    ensures ReadModel(model.Text()) == Some(model)
    ensures adapter.QemuDevice().Some? <==> adapter != NoAdapter
    ensures adapter != NoAdapter ==> ReadAdapter(adapter.QemuDevice().value) == adapter
  {
  }

  function Digit(c: char): nat {
    if '0' <= c <= '9' then c as int - '0' as int else 0
  }

  function ReadNumber(text: string): nat {
    if text == "" then 0 else ReadNumber(text[..|text| - 1]) * 10 + Digit(text[|text| - 1])
  }

  /** A printed number is read back, and has no leading zero. */
  lemma {:induction false} NumberRead(n: nat)
    ensures ReadNumber(Decimal(n)) == n
    ensures Decimal(n)[0] == '0' <==> n == 0
  {
    var text := Decimal(n);
    assert text[|text| - 1] as int == n % 10 + '0' as int;
    if n < 10 {
      assert text[..|text| - 1] == "";
    } else {
      NumberRead(n / 10);
      assert text[..|text| - 1] == Decimal(n / 10);
    }
  }

  /** The place of the first dash. */
  function DashAt(text: string): (i: nat)
    ensures i <= |text|
  {
    if text == "" || text[0] == '-' then 0 else 1 + DashAt(text[1..])
  }

  function ReadPorts(text: string, proto: NetProtocol): Option<HostForward> {
    var i := DashAt(text);
    if !("-:" <= text[i..]) then None
    else Some(HostForward(ReadNumber(text[..i]), ReadNumber(text[i + 2..]), proto))
  }

  function ReadForward(text: string): Option<HostForward> {
    if "hostfwd=tcp:127.0.0.1:" <= text then ReadPorts(text[22..], Tcp)
    else if "hostfwd=udp:127.0.0.1:" <= text then ReadPorts(text[22..], Udp)
    else None
  }

  function ReadForwards(texts: seq<string>): (forwards: seq<Option<HostForward>>)
    ensures |forwards| == |texts|
  {
    seq(|texts|, i requires 0 <= i < |texts| => ReadForward(texts[i]))
  }

  lemma {:induction false} DashAfter(a: string, b: string)
    requires '-' !in a && b != "" && b[0] == '-'
    ensures DashAt(a + b) == |a|
  {
    if a == "" {
      assert a + b == b;
    } else {
      assert (a + b)[1..] == a[1..] + b;
      DashAfter(a[1..], b);
    }
  }

  lemma ForwardParts(f: HostForward)
    ensures |ForwardText(f)| >= 22
    ensures ForwardText(f)[..22] == if f.proto == Tcp then "hostfwd=tcp:127.0.0.1:" else "hostfwd=udp:127.0.0.1:"
    ensures ForwardText(f)[22..] == Decimal(f.hostPort) + "-:" + Decimal(f.guestPort)
  {
    var head := "hostfwd=" + f.proto.Text() + ":127.0.0.1:";
    var rest := Decimal(f.hostPort) + "-:" + Decimal(f.guestPort);
    assert |head| == 22 && head == if f.proto == Tcp then "hostfwd=tcp:127.0.0.1:" else "hostfwd=udp:127.0.0.1:";
    assert ForwardText(f) == head + rest;
  }

  lemma PortsRead(a: string, b: string, proto: NetProtocol)
    requires '-' !in a
    ensures ReadPorts(a + "-:" + b, proto) == Some(HostForward(ReadNumber(a), ReadNumber(b), proto))
  {
    var text := a + "-:" + b;
    assert text == a + ("-:" + b);
    DashAfter(a, "-:" + b);
    assert text[..|a|] == a && text[|a|..] == "-:" + b && text[|a| + 2..] == b;
  }

  lemma PrefixOf(text: string, head: string)
    requires |text| >= |head| && text[..|head|] == head
    ensures head <= text
  {
  }

  /** A printed forward is read back: its protocol and both ports, on the loopback address. */
  lemma ForwardRead(f: HostForward)
    ensures ReadForward(ForwardText(f)) == Some(f)
  {
    hide ForwardText, ReadNumber, Decimal;
    var text, a, b := ForwardText(f), Decimal(f.hostPort), Decimal(f.guestPort);
    ForwardParts(f);
    assert '-' !in a by { assert forall c :: c in a ==> '0' <= c <= '9'; }
    PortsRead(a, b, f.proto);
    NumberRead(f.hostPort);
    NumberRead(f.guestPort);
    if f.proto == Tcp {
      PrefixOf(text, "hostfwd=tcp:127.0.0.1:");
    } else {
      PrefixOf(text, "hostfwd=udp:127.0.0.1:");
      assert text[8] == "hostfwd=udp:127.0.0.1:"[8] == 'u' && "hostfwd=tcp:127.0.0.1:"[8] == 't';
    }
  }

  // ---- Property lists ----

  /** The rest of the first property that begins with `key`. */
  function Lookup(props: seq<string>, key: string): Option<string> {
    if props == [] then None
    else if key <= props[0] then Some(props[0][|key|..])
    else Lookup(props[1..], key)
  }

  function LookupOr(props: seq<string>, key: string): string {
    match Lookup(props, key) case None => "" case Some(text) => text
  }

  function ReadDrive(props: seq<string>): Drive {
    Drive(
      LookupOr(props, "file="), ReadFormat(LookupOr(props, "format=")), ReadInterface(LookupOr(props, "if=")),
      LookupOr(props, "media="), "readonly=on" in props, |props|)
  }

  function ReadShare(props: seq<string>): Share
    requires props != []
  {
    Share(
      props[0], LookupOr(props, "id="), LookupOr(props, "path="), LookupOr(props, "security_model="),
      "readonly=on" in props, |props|)
  }

  function ReadDevice(h: Hardware, props: seq<string>): Hardware
    requires props != []
  {
    if "fsdev=fsdev0" in props then h.(shareDevice := Some(props))
    else if |props| == 2 && props[1] == "netdev=net0" then
      match h.nic
      case None => h
      case Some(nic) => h.(nic := Some(nic.(model := ReadModel(props[0]))))
    else h.(adapter := ReadAdapter(props[0]))
  }

  function ReadNetdev(props: seq<string>): Nic
    requires props != []
  {
    Nic(ReadMode(props[0]), if |props| >= 2 then props[1] else "", None,
        if |props| >= 2 then ReadForwards(props[2..]) else [])
  }

  /** The accelerator of a machine option of two properties. */
  function AccelIn(props: seq<string>): Option<Accel> {
    if |props| == 2 && "accel=" <= props[1] then ReadAccel(props[1][6..]) else None
  }

  /** Read an option whose value is a property list. */
  function AbsorbProps(h: Hardware, flag: Flag, props: seq<string>): Hardware
    requires props != []
  {
    match flag
    case FMachine => h.(machine := Some(props[0]), accel := AccelIn(props))
    case FDevice => ReadDevice(h, props)
    case FDrive => h.(drives := h.drives + [ReadDrive(props)])
    case FFsdev => h.(share := Some(ReadShare(props)))
    case FChardev => h.(chardev := Some(props))
    case FBoot => h.(boot := Lookup(props, "order="))
    case FNetdev => h.(nic := Some(ReadNetdev(props)))
    case _ => h
  }

  /** Read an option whose value is plain text. */
  function AbsorbText(h: Hardware, flag: Flag, text: string): Hardware {
    match flag
    case FCpu => h.(cpu := Some(text))
    case FSmp => h.(vcpus := Some(ReadNumber(text)))
    case FMemory => h.(memoryMb := Some(ReadNumber(text)))
    case FKernel => h.(kernel := Some(text))
    case FInitrd => h.(initrd := Some(text))
    case FDtb => h.(dtb := Some(text))
    case FAppend => h.(append := Some(text))
    case FVnc => h.(vnc := Some(text))
    case FSerial => h.(console := Some(text))
    case FQmp => h.(qmp := Some(text))
    case _ => h
  }

  predicate HasProps(flag: Flag) {
    flag.FMachine? || flag.FDevice? || flag.FDrive? || flag.FFsdev? || flag.FChardev? || flag.FBoot? || flag.FNetdev?
  }

  function Absorb(h: Hardware, opt: Opt): Hardware {
    if opt.value.None? then h
    else if HasProps(opt.flag) then AbsorbProps(h, opt.flag, Split(opt.value.value))
    else AbsorbText(h, opt.flag, opt.value.value)
  }

  function Fold(h: Hardware, opts: seq<Opt>): Hardware
    decreases |opts|
  {
    if opts == [] then h else Fold(Absorb(h, opts[0]), opts[1..])
  }

  function Read(argv: seq<string>): Hardware {
    Fold(NOTHING, Tokens(argv))
  }

  lemma {:induction false} FoldConcat(h: Hardware, xs: seq<Opt>, ys: seq<Opt>)
    ensures Fold(h, xs + ys) == Fold(Fold(h, xs), ys)
    decreases |xs|
  {
    if xs == [] {
      assert xs + ys == ys;
    } else {
      assert (xs + ys)[1..] == xs[1..] + ys;
      FoldConcat(Absorb(h, xs[0]), xs[1..], ys);
    }
  }

  lemma FoldNone(h: Hardware)
    ensures Fold(h, []) == h
  {
  }

  lemma FoldOne(h: Hardware, opt: Opt)
    ensures Fold(h, [opt]) == Absorb(h, opt)
  {
    assert Fold(h, [opt]) == Fold(Absorb(h, opt), [opt][1..]);
  }

  lemma FoldTwo(h: Hardware, x: Opt, y: Opt)
    ensures Fold(h, [x, y]) == Absorb(Absorb(h, x), y)
  {
    FoldOne(Absorb(h, x), y);
    assert [x, y][1..] == [y];
  }

  lemma {:induction false} LookupAt(props: seq<string>, key: string, i: nat, text: string)
    requires i < |props| && props[i] == key + text
    requires forall j :: 0 <= j < i ==> Differs(key, props[j])
    ensures Lookup(props, key) == Some(text)
    decreases i
  {
    if i == 0 {
      assert key <= props[0] && props[0][|key|..] == text;
    } else {
      assert Differs(key, props[0]);
      NotPrefix(key, props[0]);
      forall j | 0 <= j < i - 1
        ensures Differs(key, props[1..][j])
      {
        assert props[1..][j] == props[j + 1];
      }
      LookupAt(props[1..], key, i - 1, text);
    }
  }

  /** The two differ among their first two characters. */
  predicate Differs(key: string, prop: string) {
    |key| >= 2 && |prop| >= 2 && (key[0] != prop[0] || key[1] != prop[1])
  }

  lemma NotPrefix(key: string, prop: string)
    requires Differs(key, prop)
    ensures !(key <= prop) && key != prop
  {
  }

  // ---- Every property list printed is read back ----

  /** A list whose later properties begin with a letter. */
  predicate Lettered(props: seq<string>) {
    props != [] && forall i :: 1 <= i < |props| ==> props[i] != "" && props[i][0] != ','
  }

  lemma FoldProps(h: Hardware, flag: Flag, props: seq<string>)
    requires Lettered(props) && HasProps(flag)
    ensures Fold(h, [PropsOpt(flag, props)]) == AbsorbProps(h, flag, props)
  {
    SplitRender(props);
    FoldOne(h, PropsOpt(flag, props));
  }

  lemma FoldDrive(h: Hardware, props: seq<string>, drive: Drive)
    requires Lettered(props) && ReadDrive(props) == drive
    ensures Fold(h, [PropsOpt(FDrive, props)]) == h.(drives := h.drives + [drive])
  {
    FoldProps(h, FDrive, props);
  }

  lemma DriveLettered(disk: Disk, path: string)
    ensures Lettered(DriveProps(disk, path))
  {
  }

  lemma DriveFile(disk: Disk, path: string)
    ensures Lookup(DriveProps(disk, path), "file=") == Some(path)
  {
    LookupAt(DriveProps(disk, path), "file=", 0, path);
  }

  lemma DriveFormat(disk: Disk, path: string)
    ensures Lookup(DriveProps(disk, path), "format=") == Some(disk.format.Text())
  {
    hide Lookup;
    LookupAt(DriveProps(disk, path), "format=", 1, disk.format.Text());
  }

  lemma DriveInterface(disk: Disk, path: string)
    ensures Lookup(DriveProps(disk, path), "if=") == Some(disk.interface.Text())
  {
    hide Lookup;
    LookupAt(DriveProps(disk, path), "if=", 2, disk.interface.Text());
  }

  lemma DriveMedia(disk: Disk, path: string)
    ensures Lookup(DriveProps(disk, path), "media=") == Some("disk")
  {
    hide Lookup;
    LookupAt(DriveProps(disk, path), "media=", 3, "disk");
  }

  lemma DriveReadonly(disk: Disk, path: string)
    ensures "readonly=on" in DriveProps(disk, path) <==> disk.readonly
  {
    ReadonlyIn(DriveProps(disk, path), 4, disk.readonly);
  }

  lemma DriveCount(disk: Disk, path: string)
    ensures |DriveProps(disk, path)| == if disk.readonly then 5 else 4
  {
  }

  lemma DriveRead(disk: Disk, path: string)
    ensures Lettered(DriveProps(disk, path))
    ensures ReadDrive(DriveProps(disk, path)) ==
      Drive(path, Some(disk.format), Some(disk.interface), "disk", disk.readonly, if disk.readonly then 5 else 4)
  {
    hide DriveProps, Lookup, ReadFormat, ReadInterface;
    WordsRead(Kvm, disk.format, disk.interface, User, E1000, Vga);
    DriveCount(disk, path);
    DriveLettered(disk, path);
    DriveFile(disk, path);
    DriveFormat(disk, path);
    DriveInterface(disk, path);
    DriveMedia(disk, path);
    DriveReadonly(disk, path);
  }

  lemma ReadonlyIn(props: seq<string>, n: nat, readonly: bool)
    requires |props| == (if readonly then n + 1 else n)
    requires readonly ==> props[n] == "readonly=on"
    requires forall j :: 0 <= j < n ==> Differs("readonly=on", props[j])
    ensures "readonly=on" in props <==> readonly
  {
    if !readonly {
      forall j | 0 <= j < |props|
        ensures props[j] != "readonly=on"
      {
        NotPrefix("readonly=on", props[j]);
      }
    }
  }

  lemma CdromRead(path: string)
    ensures Lettered(CdromProps(path))
    ensures ReadDrive(CdromProps(path)) == Drive(path, Some(Raw), None, "cdrom", true, 4)
  {
    var props := CdromProps(path);
    LookupAt(props, "file=", 0, path);
    LookupAt(props, "media=", 1, "cdrom");
    LookupAt(props, "format=", 3, "raw");
    assert props[2] == "readonly=on";
    LookupNone(props, "if=");
  }

  lemma {:induction false} LookupNone(props: seq<string>, key: string)
    requires forall j :: 0 <= j < |props| ==> Differs(key, props[j])
    ensures Lookup(props, key) == None
  {
    if props != [] {
      NotPrefix(key, props[0]);
      LookupNone(props[1..], key);
    }
  }

  lemma ShareRead(path: string, readonly: bool)
    ensures Lettered(ShareProps(path, readonly))
    ensures ReadShare(ShareProps(path, readonly)) ==
      Share("local", "fsdev0", path, "mapped-xattr", readonly, if readonly then 5 else 4)
  {
    hide Lookup;
    var props := ShareProps(path, readonly);
    LookupAt(props, "id=", 1, "fsdev0");
    LookupAt(props, "path=", 2, path);
    LookupAt(props, "security_model=", 3, "mapped-xattr");
    ReadonlyIn(props, 4, readonly);
  }

  lemma NetdevLettered(network: Network)
    ensures Lettered(NetdevProps(network))
  {
    var props := NetdevProps(network);
    forall i | 1 <= i < |props|
      ensures props[i] != "" && props[i][0] != ','
    {
      if i >= 2 {
        assert props[i] == ForwardText(network.hostForwards[i - 2]);
      }
    }
  }

  // ---- What argv is expected to say ----

  function DrivesOf(disks: seq<Disk>, paths: seq<string>): seq<Drive>
    requires |disks| == |paths|
  {
    if disks == [] then []
    else
      var d := disks[0];
      [Drive(paths[0], Some(d.format), Some(d.interface), "disk", d.readonly, if d.readonly then 5 else 4)]
      + DrivesOf(disks[1..], paths[1..])
  }

  function CdromOf(path: Option<string>): seq<Drive> {
    match path case None => [] case Some(p) => [Drive(p, Some(Raw), None, "cdrom", true, 4)]
  }

  function AllSome<T>(xs: seq<T>): (ys: seq<Option<T>>)
    ensures |ys| == |xs| && forall i :: 0 <= i < |xs| ==> ys[i] == Some(xs[i])
  {
    seq(|xs|, i requires 0 <= i < |xs| => Some(xs[i]))
  }

  function NicOf(network: Network): Option<Nic> {
    if network.mode == NoNetwork then None
    else Some(Nic(Some(network.mode), "id=net0", Some(network.model), AllSome(network.hostForwards)))
  }

  function ShareOf(path: Option<string>, options: ArgvOptions): Option<Share> {
    var readonly := options.shareReadonly != Some(false);
    match path
    case None => None
    case Some(p) => Some(Share("local", "fsdev0", p, "mapped-xattr", readonly, if readonly then 5 else 4))
  }

  /** The hardware a spec asks for, on the host paths its names stand for. */
  function HardwareOf(spec: HardwareSpec, options: ArgvOptions, paths: Paths): Hardware
    requires |paths.disks| == |spec.disks|
  {
    var raspi := IsRaspi(spec.machine);
    Hardware(
      Some(spec.machine), Some(options.accel),
      if raspi then None else Some(spec.cpu),
      if raspi then None else Some(spec.vcpus),
      if raspi then None else Some(spec.memoryMb),
      paths.kernel, paths.initrd, paths.dtb, spec.appendCmdline,
      if spec.display == Vnc then Some("127.0.0.1:0,password=on") else None,
      spec.displayDevice,
      DrivesOf(spec.disks, paths.disks) + CdromOf(paths.cdrom),
      ShareOf(paths.share, options),
      if paths.share.None? then None else Some(["virtio-9p-pci", "fsdev=fsdev0", "mount_tag=share"]),
      paths.serial,
      if paths.serial.None? then None else Some("chardev:serialbuf"),
      spec.boot,
      NicOf(spec.network),
      Some("unix:" + options.qmpSocketPath + ",server=on,wait=off"))
  }

  /** A name's path in its store: the real directory joined with the name. */
  function StorePath(host: Host, dir: Option<string>, name: string): string {
    if dir.None? || dir.value !in host.canonical then "" else PathJoin(host.canonical[dir.value], name)
  }

  function StoredAt(host: Host, dir: Option<string>, name: Option<string>): Option<string> {
    match name case None => None case Some(n) => Some(StorePath(host, dir, n))
  }

  /** The properties of the character device behind the serial port. */
  function SerialOf(spec: HardwareSpec, options: ArgvOptions): Option<seq<string>> {
    if !spec.serial then None
    else match options.serialBackend
      case Ringbuf => Some(["ringbuf", "id=serialbuf", "size=" + Decimal(options.serialBufferBytes)])
      case Spool =>
        if options.serialSpoolDir.None? then None
        else
          var dir := match spec.serialSpool
                     case None => options.serialSpoolDir.value
                     case Some(name) => PathJoin(options.serialSpoolDir.value, name);
          Some(["file", "id=serialbuf", "path=" + PathJoin(dir, "serial.log")])
      case Socket => Some(["socket", "id=serialbuf", "path=" + options.serialSocketPath, "server=on", "wait=off"])
  }

  /** The host paths a spec's names stand for. */
  function PathsOf(host: Host, spec: HardwareSpec, options: ArgvOptions): (paths: Paths)
    ensures |paths.disks| == |spec.disks|
  {
    Paths(
      StoredAt(host, options.imageDir, spec.kernel),
      StoredAt(host, options.imageDir, spec.initrd),
      StoredAt(host, options.imageDir, spec.dtb),
      seq(|spec.disks|, i requires 0 <= i < |spec.disks| => StorePath(host, options.imageDir, spec.disks[i].image)),
      StoredAt(host, options.isoDir, spec.cdrom),
      if spec.share then options.hostShareDir else None,
      SerialOf(spec, options))
  }

  lemma {:induction false} DiskPathsAre(host: Host, disks: seq<Disk>, dir: Option<string>)
    requires DiskPaths(host, disks, dir).Success?
    ensures DiskPaths(host, disks, dir).value ==
      seq(|disks|, i requires 0 <= i < |disks| => StorePath(host, dir, disks[i].image))
  {
    if disks != [] {
      DiskPathsAre(host, disks[1..], dir);
    }
  }

  /** The pieces of a successful resolution. */
  lemma ResolveParts(host: Host, spec: HardwareSpec, options: ArgvOptions)
    requires Resolve(host, spec, options).Success?
    ensures var paths := Resolve(host, spec, options).value;
      && ResolveOptional(host, spec.kernel, options.imageDir) == Success(paths.kernel)
      && ResolveOptional(host, spec.initrd, options.imageDir) == Success(paths.initrd)
      && ResolveOptional(host, spec.dtb, options.imageDir) == Success(paths.dtb)
      && DiskPaths(host, spec.disks, options.imageDir) == Success(paths.disks)
      && ResolveOptional(host, spec.cdrom, options.isoDir) == Success(paths.cdrom)
      && SharePath(spec, options) == Success(paths.share)
      && SerialPropsOf(spec, options) == Success(paths.serial)
  {
  }

  lemma StoredPath(host: Host, name: Option<string>, dir: Option<string>)
    requires ResolveOptional(host, name, dir).Success?
    ensures ResolveOptional(host, name, dir).value == StoredAt(host, dir, name)
  {
  }

  lemma SerialPath(spec: HardwareSpec, options: ArgvOptions)
    requires SerialPropsOf(spec, options).Success?
    ensures SerialPropsOf(spec, options).value == SerialOf(spec, options)
  {
    hide Decimal, PathJoin;
  }

  lemma ShareDirectory(spec: HardwareSpec, options: ArgvOptions)
    requires SharePath(spec, options).Success?
    ensures SharePath(spec, options).value == if spec.share then options.hostShareDir else None
  {
  }

  /** A successful resolution yields the paths the names stand for. */
  lemma ResolvedPaths(host: Host, spec: HardwareSpec, options: ArgvOptions)
    requires Resolve(host, spec, options).Success?
    ensures Resolve(host, spec, options).value == PathsOf(host, spec, options)
  {
    hide Resolve, ResolveOptional, StoredAt, SerialOf, SerialPropsOf, SharePath, DiskPaths;
    ResolveParts(host, spec, options);
    StoredPath(host, spec.kernel, options.imageDir);
    StoredPath(host, spec.initrd, options.imageDir);
    StoredPath(host, spec.dtb, options.imageDir);
    StoredPath(host, spec.cdrom, options.isoDir);
    DiskPathsAre(host, spec.disks, options.imageDir);
    ShareDirectory(spec, options);
    SerialPath(spec, options);
  }

  // ---- Reading one segment ----

  lemma FoldOptional(h: Hardware, flag: Flag, value: Option<string>)
    ensures Fold(h, OptionOf(flag, value)) == if value.None? then h else Absorb(h, Setting(flag, value.value))
  {
    if value.Some? {
      FoldOne(h, Setting(flag, value.value));
    }
  }

  lemma FoldSizing(h: Hardware, spec: HardwareSpec)
    ensures Fold(h, SizingOpts(spec)) ==
      if IsRaspi(spec.machine) then h
      else h.(cpu := Some(spec.cpu), vcpus := Some(spec.vcpus), memoryMb := Some(spec.memoryMb))
  {
    hide Decimal;
    if !IsRaspi(spec.machine) {
      var x, y := Setting(FCpu, spec.cpu), Setting(FSmp, Decimal(spec.vcpus));
      var z := Setting(FMemory, Decimal(spec.memoryMb));
      assert SizingOpts(spec) == [x, y] + [z];
      NumberRead(spec.vcpus);
      NumberRead(spec.memoryMb);
      FoldConcat(h, [x, y], [z]);
      FoldTwo(h, x, y);
      FoldOne(Absorb(Absorb(h, x), y), z);
    }
  }

  lemma FoldPathOf(h: Hardware, flag: Flag, value: Option<string>, h': Hardware)
    requires flag in {FKernel, FInitrd, FDtb, FAppend}
    requires h' == (if value.None? then h else AbsorbText(h, flag, value.value))
    ensures Fold(h, OptionOf(flag, value)) == h'
  {
    FoldOptional(h, flag, value);
  }

  /** Two segments in a row. */
  lemma FoldParts(h: Hardware, xs: seq<Opt>, ys: seq<Opt>, h1: Hardware, h2: Hardware)
    requires Fold(h, xs) == h1 && Fold(h1, ys) == h2
    ensures Fold(h, xs + ys) == h2
  {
    FoldConcat(h, xs, ys);
  }

  lemma FoldBoot(h: Hardware, spec: HardwareSpec, paths: Paths)
    requires h.kernel == h.initrd == h.dtb == h.append == None
    ensures Fold(h, BootOpts(spec, paths)) ==
      h.(kernel := paths.kernel, initrd := paths.initrd, dtb := paths.dtb, append := spec.appendCmdline)
  {
    var a, b, c := OptionOf(FKernel, paths.kernel), OptionOf(FInitrd, paths.initrd), OptionOf(FDtb, paths.dtb);
    var h1 := h.(kernel := paths.kernel);
    var h2 := h1.(initrd := paths.initrd);
    var h3 := h2.(dtb := paths.dtb);
    var h4 := h3.(append := spec.appendCmdline);
    assert Fold(h, a) == h1 by { FoldPathOf(h, FKernel, paths.kernel, h1); }
    assert Fold(h1, b) == h2 by { FoldPathOf(h1, FInitrd, paths.initrd, h2); }
    FoldParts(h, a, b, h1, h2);
    assert Fold(h2, c) == h3 by { FoldPathOf(h2, FDtb, paths.dtb, h3); }
    FoldParts(h, a + b, c, h2, h3);
    assert Fold(h3, OptionOf(FAppend, spec.appendCmdline)) == h4 by { FoldPathOf(h3, FAppend, spec.appendCmdline, h4); }
    FoldParts(h, a + b + c, OptionOf(FAppend, spec.appendCmdline), h3, h4);
  }

  lemma FoldFixed(h: Hardware)
    ensures Fold(h, FixedOpts()) == h
  {
    var x, y, z := Opt(FNodefaults, None), Opt(FNographic, None), Opt(FFreeze, None);
    assert FixedOpts() == [x, y] + [z];
    FoldConcat(h, [x, y], [z]);
    FoldTwo(h, x, y);
    FoldOne(h, z);
  }

  lemma FoldVnc(h: Hardware, text: Option<string>)
    requires h.vnc == None
    ensures Fold(h, OptionOf(FVnc, text)) == h.(vnc := text)
  {
    FoldOptional(h, FVnc, text);
  }

  /** A device option that names neither the share nor the NIC is the display adapter. */
  lemma FoldAdapter(h: Hardware, device: string)
    requires CommaFree(device) && Differs("fsdev=fsdev0", device)
    ensures Fold(h, [Setting(FDevice, device)]) == h.(adapter := ReadAdapter(device))
  {
    hide ReadAdapter;
    var props := [device];
    EscapeCommaFree(device);
    assert Setting(FDevice, device) == PropsOpt(FDevice, props);
    NotPrefix("fsdev=fsdev0", device);
    FoldProps(h, FDevice, props);
  }

  lemma FoldAdapterOf(h: Hardware, device: DisplayDevice)
    requires h.adapter == NoAdapter
    ensures Fold(h, OptionOf(FDevice, device.QemuDevice())) == h.(adapter := device)
  {
    hide ReadAdapter;
    WordsRead(Kvm, Raw, Sd, User, E1000, device);
    if device != NoAdapter {
      FoldAdapter(h, device.QemuDevice().value);
    }
  }

  lemma FoldDisplay(h: Hardware, spec: HardwareSpec)
    requires h.vnc == None && h.adapter == NoAdapter
    ensures Fold(h, DisplayOpts(spec)) ==
      h.(vnc := if spec.display == Vnc then Some("127.0.0.1:0,password=on") else None, adapter := spec.displayDevice)
  {
    hide ReadAdapter;
    var text := if spec.display == Vnc then Some("127.0.0.1:0,password=on") else None;
    var h1 := h.(vnc := text);
    var h2 := h1.(adapter := spec.displayDevice);
    assert Fold(h, OptionOf(FVnc, text)) == h1 by { FoldVnc(h, text); }
    assert Fold(h1, OptionOf(FDevice, spec.displayDevice.QemuDevice())) == h2 by {
      FoldAdapterOf(h1, spec.displayDevice);
    }
    FoldParts(h, OptionOf(FVnc, text), OptionOf(FDevice, spec.displayDevice.QemuDevice()), h1, h2);
  }

  lemma FoldDriveOf(h: Hardware, disk: Disk, path: string)
    ensures Fold(h, [PropsOpt(FDrive, DriveProps(disk, path))]) ==
      h.(drives := h.drives + DrivesOf([disk], [path]))
  {
    hide Render, Fold, DriveProps, ReadDrive, Absorb;
    DriveRead(disk, path);
    assert DrivesOf([disk][1..], [path][1..]) == [];
    FoldDrive(h, DriveProps(disk, path), ReadDrive(DriveProps(disk, path)));
  }

  lemma Grouped<T>(a: seq<T>, b: seq<T>, c: seq<T>)
    ensures a + b + c == a + (b + c)
  {
  }

  lemma {:induction false} FoldDrives(h: Hardware, disks: seq<Disk>, paths: seq<string>)
    requires |disks| == |paths|
    ensures Fold(h, DriveOpts(disks, paths)) == h.(drives := h.drives + DrivesOf(disks, paths))
    decreases |disks|
  {
    hide Render, Fold, DriveProps, PropsOpt;
    if disks == [] {
      FoldNone(h);
      assert h.drives + [] == h.drives;
    } else {
      var drive := DrivesOf(disks, paths)[0];
      assert DrivesOf([disks[0]][1..], [paths[0]][1..]) == [] && DrivesOf([disks[0]], [paths[0]]) == [drive];
      var rest := DrivesOf(disks[1..], paths[1..]);
      var h' := h.(drives := h.drives + [drive]);
      FoldDriveOf(h, disks[0], paths[0]);
      FoldDrives(h', disks[1..], paths[1..]);
      FoldConcat(h, [PropsOpt(FDrive, DriveProps(disks[0], paths[0]))], DriveOpts(disks[1..], paths[1..]));
      Grouped(h.drives, [drive], rest);
    }
  }

  lemma FoldCdrom(h: Hardware, path: Option<string>)
    ensures Fold(h, CdromOpts(path)) == h.(drives := h.drives + CdromOf(path))
  {
    if path.Some? {
      CdromRead(path.value);
      FoldDrive(h, CdromProps(path.value), Drive(path.value, Some(Raw), None, "cdrom", true, 4));
    } else {
      assert h.drives + [] == h.drives;
    }
  }

  lemma FoldFsdev(h: Hardware, props: seq<string>, share: Share)
    requires Lettered(props) && share == ReadShare(props)
    ensures Fold(h, [PropsOpt(FFsdev, props)]) == h.(share := Some(share))
  {
    FoldProps(h, FFsdev, props);
  }

  lemma FoldDeviceOfShare(h: Hardware, props: seq<string>)
    requires Lettered(props) && "fsdev=fsdev0" in props
    ensures Fold(h, [PropsOpt(FDevice, props)]) == h.(shareDevice := Some(props))
  {
    FoldProps(h, FDevice, props);
  }

  lemma FoldShareDevice(h: Hardware)
    ensures Fold(h, [PropsOpt(FDevice, ShareDeviceProps())]) ==
      h.(shareDevice := Some(["virtio-9p-pci", "fsdev=fsdev0", "mount_tag=share"]))
  {
    hide Render, Fold;
    var props := ShareDeviceProps();
    assert props[1] == "fsdev=fsdev0";
    FoldDeviceOfShare(h, props);
  }

  lemma FoldSharePair(h: Hardware, fsdev: Opt, device: Opt, h1: Hardware, h2: Hardware)
    requires Fold(h, [fsdev]) == h1 && Fold(h1, [device]) == h2
    ensures Fold(h, [fsdev, device]) == h2
  {
    FoldParts(h, [fsdev], [device], h1, h2);
    assert [fsdev, device] == [fsdev] + [device];
  }

  lemma FoldShareDir(h: Hardware, path: string, readonly: bool)
    ensures Fold(h, [PropsOpt(FFsdev, ShareProps(path, readonly))]) ==
      h.(share := Some(Share("local", "fsdev0", path, "mapped-xattr", readonly, if readonly then 5 else 4)))
  {
    ShareRead(path, readonly);
    FoldFsdev(h, ShareProps(path, readonly), ReadShare(ShareProps(path, readonly)));
  }

  lemma FoldShare(h: Hardware, path: Option<string>, options: ArgvOptions)
    requires h.share == None && h.shareDevice == None
    ensures Fold(h, ShareOpts(path, ShareIsReadonly(options))) ==
      h.(share := ShareOf(path, options),
         shareDevice := if path.None? then None else Some(["virtio-9p-pci", "fsdev=fsdev0", "mount_tag=share"]))
  {
    hide ShareProps, ShareDeviceProps;
    if path.Some? {
      var readonly := ShareIsReadonly(options);
      var h1 := h.(share := ShareOf(path, options));
      var h2 := h1.(shareDevice := Some(["virtio-9p-pci", "fsdev=fsdev0", "mount_tag=share"]));
      FoldShareDir(h, path.value, readonly);
      FoldShareDevice(h1);
      FoldSharePair(
        h, PropsOpt(FFsdev, ShareProps(path.value, readonly)), PropsOpt(FDevice, ShareDeviceProps()), h1, h2);
    }
  }

  lemma FoldChardev(h: Hardware, props: seq<string>, text: string)
    requires Lettered(props)
    ensures Fold(h, [PropsOpt(FChardev, props), Setting(FSerial, text)]) ==
      h.(chardev := Some(props), console := Some(text))
  {
    FoldProps(h, FChardev, props);
    FoldOne(h.(chardev := Some(props)), Setting(FSerial, text));
    FoldConcat(h, [PropsOpt(FChardev, props)], [Setting(FSerial, text)]);
    assert [PropsOpt(FChardev, props), Setting(FSerial, text)]
      == [PropsOpt(FChardev, props)] + [Setting(FSerial, text)];
  }

  lemma FoldSerial(h: Hardware, props: Option<seq<string>>)
    requires h.chardev == None && h.console == None
    requires props.Some? ==> Lettered(props.value)
    ensures Fold(h, SerialOpts(props)) ==
      h.(chardev := props, console := if props.None? then None else Some("chardev:serialbuf"))
  {
    if props.Some? {
      FoldChardev(h, props.value, "chardev:serialbuf");
    }
  }

  lemma FoldOrder(h: Hardware, boot: Option<string>)
    requires h.boot == None
    ensures Fold(h, OrderOpts(boot)) == h.(boot := boot)
  {
    if boot.Some? {
      LookupAt(["order=" + boot.value], "order=", 0, boot.value);
      FoldProps(h, FBoot, ["order=" + boot.value]);
    }
  }

  lemma FoldNetdev(h: Hardware, props: seq<string>)
    requires Lettered(props)
    ensures Fold(h, [PropsOpt(FNetdev, props)]) == h.(nic := Some(ReadNetdev(props)))
  {
    FoldProps(h, FNetdev, props);
  }

  lemma FoldNicDevice(h: Hardware, model: string, netdev: string)
    requires h.nic.Some? && netdev == "netdev=net0" && Differs("fsdev=fsdev0", model)
    ensures Fold(h, [PropsOpt(FDevice, [model, netdev])])
      == h.(nic := Some(h.nic.value.(model := ReadModel(model))))
  {
    hide ReadModel, ReadAdapter;
    var props := [model, netdev];
    NotPrefix("fsdev=fsdev0", model);
    assert Differs("fsdev=fsdev0", netdev);
    NotPrefix("fsdev=fsdev0", netdev);
    assert props[1] == netdev;
    FoldProps(h, FDevice, props);
  }

  lemma NetdevRead(network: Network)
    ensures ReadNetdev(NetdevProps(network)) ==
      Nic(Some(network.mode), "id=net0", None, AllSome(network.hostForwards))
  {
    hide ReadForward, ForwardText, ReadMode;
    var props := NetdevProps(network);
    WordsRead(Kvm, Raw, Sd, network.mode, E1000, Vga);
    assert props[2..] == ForwardTexts(network.hostForwards);
    forall i | 0 <= i < |network.hostForwards|
      ensures ReadForwards(props[2..])[i] == Some(network.hostForwards[i])
    {
      ForwardRead(network.hostForwards[i]);
    }
  }

  lemma FoldNetwork(h: Hardware, network: Network)
    requires h.nic == None
    ensures Fold(h, NetworkOpts(network)) == h.(nic := NicOf(network))
  {
    hide ReadNetdev, ReadModel, NetdevProps;
    if network.mode != NoNetwork {
      var props := NetdevProps(network);
      var model := network.model.Text();
      NetdevLettered(network);
      NetdevRead(network);
      WordsRead(Kvm, Raw, Sd, User, network.model, Vga);
      FoldNetdev(h, props);
      FoldNicDevice(h.(nic := Some(ReadNetdev(props))), model, "netdev=net0");
      FoldConcat(h, [PropsOpt(FNetdev, props)], [PropsOpt(FDevice, [model, "netdev=net0"])]);
      assert NetworkOpts(network) == [PropsOpt(FNetdev, props)] + [PropsOpt(FDevice, [model, "netdev=net0"])];
    }
  }

  // ---- The whole of argv ----

  lemma FoldMachine(h: Hardware, machine: string, accel: Accel)
    ensures Fold(h, [PropsOpt(FMachine, [machine, "accel=" + accel.Text()])])
      == h.(machine := Some(machine), accel := Some(accel))
  {
    hide ReadAccel;
    var props := [machine, "accel=" + accel.Text()];
    WordsRead(accel, Raw, Sd, User, E1000, Vga);
    assert props[1][6..] == accel.Text();
    FoldProps(h, FMachine, props);
  }

  lemma FoldQmp(h: Hardware, text: string)
    ensures Fold(h, [Setting(FQmp, text)]) == h.(qmp := Some(text))
  {
    FoldOne(h, Setting(FQmp, text));
  }

  /** `HardwareOf` as far as the head, the devices and the tail of argv. */
  function HeadOf(spec: HardwareSpec, options: ArgvOptions, paths: Paths): Hardware
    requires |paths.disks| == |spec.disks|
  {
    HardwareOf(spec, options, paths).(
      drives := [], share := None, shareDevice := None, chardev := None, console := None, boot := None, nic := None,
      qmp := None)
  }

  function DevicesOf(spec: HardwareSpec, options: ArgvOptions, paths: Paths): Hardware
    requires |paths.disks| == |spec.disks|
  {
    HardwareOf(spec, options, paths).(boot := None, nic := None, qmp := None)
  }

  lemma FoldHead(spec: HardwareSpec, options: ArgvOptions, paths: Paths)
    requires |paths.disks| == |spec.disks|
    ensures Fold(NOTHING, HeadOpts(spec, options, paths)) == HeadOf(spec, options, paths)
  {
    var props := [spec.machine, "accel=" + options.accel.Text()];
    var m := [PropsOpt(FMachine, props)];
    var goal := HeadOf(spec, options, paths);
    var h1 := NOTHING.(machine := goal.machine, accel := goal.accel);
    var h2 := h1.(cpu := goal.cpu, vcpus := goal.vcpus, memoryMb := goal.memoryMb);
    var h3 := h2.(kernel := goal.kernel, initrd := goal.initrd, dtb := goal.dtb, append := goal.append);
    assert Fold(NOTHING, m) == h1 by { FoldMachine(NOTHING, spec.machine, options.accel); }
    assert Fold(h1, SizingOpts(spec)) == h2 by { FoldSizing(h1, spec); }
    FoldParts(NOTHING, m, SizingOpts(spec), h1, h2);
    assert Fold(h2, BootOpts(spec, paths)) == h3 by { FoldBoot(h2, spec, paths); }
    FoldParts(NOTHING, m + SizingOpts(spec), BootOpts(spec, paths), h2, h3);
    assert Fold(h3, FixedOpts()) == h3 by { FoldFixed(h3); }
    FoldParts(NOTHING, m + SizingOpts(spec) + BootOpts(spec, paths), FixedOpts(), h3, h3);
    assert Fold(h3, DisplayOpts(spec)) == goal by { FoldDisplay(h3, spec); }
    FoldParts(NOTHING, m + SizingOpts(spec) + BootOpts(spec, paths) + FixedOpts(), DisplayOpts(spec), h3, goal);
  }

  lemma FoldDevices(spec: HardwareSpec, options: ArgvOptions, paths: Paths)
    requires |paths.disks| == |spec.disks|
    requires paths.serial.Some? ==> Lettered(paths.serial.value)
    ensures Fold(HeadOf(spec, options, paths), DeviceOpts(spec, options, paths)) == DevicesOf(spec, options, paths)
  {
    var h := HeadOf(spec, options, paths);
    var goal := DevicesOf(spec, options, paths);
    var drives, cdrom := DriveOpts(spec.disks, paths.disks), CdromOpts(paths.cdrom);
    var share := ShareOpts(paths.share, ShareIsReadonly(options));
    var h1 := h.(drives := DrivesOf(spec.disks, paths.disks));
    var h2 := h1.(drives := goal.drives);
    var h3 := h2.(share := goal.share, shareDevice := goal.shareDevice);
    assert Fold(h, drives) == h1 by {
      FoldDrives(h, spec.disks, paths.disks);
      assert [] + DrivesOf(spec.disks, paths.disks) == DrivesOf(spec.disks, paths.disks);
    }
    assert Fold(h1, cdrom) == h2 by { FoldCdrom(h1, paths.cdrom); }
    FoldParts(h, drives, cdrom, h1, h2);
    assert Fold(h2, share) == h3 by { FoldShare(h2, paths.share, options); }
    FoldParts(h, drives + cdrom, share, h2, h3);
    assert Fold(h3, SerialOpts(paths.serial)) == goal by { FoldSerial(h3, paths.serial); }
    FoldParts(h, drives + cdrom + share, SerialOpts(paths.serial), h3, goal);
  }

  lemma FoldTail(spec: HardwareSpec, options: ArgvOptions, paths: Paths)
    requires |paths.disks| == |spec.disks|
    ensures Fold(DevicesOf(spec, options, paths), TailOpts(spec, options)) == HardwareOf(spec, options, paths)
  {
    var h := DevicesOf(spec, options, paths);
    var goal := HardwareOf(spec, options, paths);
    var h1 := h.(boot := spec.boot);
    var h2 := h1.(nic := goal.nic);
    assert Fold(h, OrderOpts(spec.boot)) == h1 by { FoldOrder(h, spec.boot); }
    assert Fold(h1, NetworkOpts(spec.network)) == h2 by { FoldNetwork(h1, spec.network); }
    FoldParts(h, OrderOpts(spec.boot), NetworkOpts(spec.network), h1, h2);
    assert Fold(h2, QmpOpts(options)) == goal by {
      FoldQmp(h2, "unix:" + options.qmpSocketPath + ",server=on,wait=off");
    }
    FoldParts(h, OrderOpts(spec.boot) + NetworkOpts(spec.network), QmpOpts(options), h2, goal);
  }

  lemma ResolvedSerialIsLettered(host: Host, spec: HardwareSpec, options: ArgvOptions)
    requires Resolve(host, spec, options).Success?
    ensures var serial := Resolve(host, spec, options).value.serial;
      serial.Some? ==> Lettered(serial.value)
  {
    assert SerialPropsOf(spec, options) == Success(Resolve(host, spec, options).value.serial);
  }

  ghost predicate AllWellFormed(opts: seq<Opt>) {
    forall opt :: opt in opts ==> WellFormed(opt)
  }

  lemma HeadWellFormed(spec: HardwareSpec, options: ArgvOptions, paths: Paths)
    ensures AllWellFormed(HeadOpts(spec, options, paths))
  {
    assert AllWellFormed(SizingOpts(spec)) && AllWellFormed(BootOpts(spec, paths));
    assert AllWellFormed(FixedOpts()) && AllWellFormed(DisplayOpts(spec));
  }

  lemma WellFormedConcat(xs: seq<Opt>, ys: seq<Opt>)
    requires AllWellFormed(xs) && AllWellFormed(ys)
    ensures AllWellFormed(xs + ys)
  {
  }

  lemma ShareWellFormed(path: Option<string>, readonly: bool)
    ensures AllWellFormed(ShareOpts(path, readonly))
  {
    hide Render;
  }

  lemma SerialWellFormed(props: Option<seq<string>>)
    ensures AllWellFormed(SerialOpts(props))
  {
    hide Render;
  }

  lemma CdromWellFormed(path: Option<string>)
    ensures AllWellFormed(CdromOpts(path))
  {
    hide Render;
  }

  lemma DevicesWellFormed(spec: HardwareSpec, options: ArgvOptions, paths: Paths)
    requires |paths.disks| == |spec.disks|
    ensures AllWellFormed(DeviceOpts(spec, options, paths))
  {
    hide AllWellFormed, DriveOpts, CdromOpts, ShareOpts, SerialOpts;
    var drives, cdrom := DriveOpts(spec.disks, paths.disks), CdromOpts(paths.cdrom);
    var share, serial := ShareOpts(paths.share, ShareIsReadonly(options)), SerialOpts(paths.serial);
    DriveOptsWellFormed(spec.disks, paths.disks);
    CdromWellFormed(paths.cdrom);
    ShareWellFormed(paths.share, ShareIsReadonly(options));
    SerialWellFormed(paths.serial);
    WellFormedConcat(drives, cdrom);
    WellFormedConcat(drives + cdrom, share);
    WellFormedConcat(drives + cdrom + share, serial);
  }

  lemma TailWellFormed(spec: HardwareSpec, options: ArgvOptions)
    ensures AllWellFormed(TailOpts(spec, options))
  {
    assert AllWellFormed(OrderOpts(spec.boot)) && AllWellFormed(NetworkOpts(spec.network));
    assert AllWellFormed(QmpOpts(options));
  }

  lemma OptsWellFormed(spec: HardwareSpec, options: ArgvOptions, paths: Paths)
    requires |paths.disks| == |spec.disks|
    ensures AllWellFormed(Opts(spec, options, paths))
  {
    HeadWellFormed(spec, options, paths);
    DevicesWellFormed(spec, options, paths);
    TailWellFormed(spec, options);
  }

  lemma {:induction false} DriveOptsWellFormed(disks: seq<Disk>, paths: seq<string>)
    requires |disks| == |paths|
    ensures AllWellFormed(DriveOpts(disks, paths))
  {
    if disks != [] {
      DriveOptsWellFormed(disks[1..], paths[1..]);
    }
  }

  /** Reading a generated argv without raw arguments recovers the hardware the spec asked for. */
  lemma ReadRecoversHardware(host: Host, spec: HardwareSpec, options: ArgvOptions)
    requires Argv(host, spec, options).Success? && !HasExtra(spec)
    ensures Read(Argv(host, spec, options).value) == HardwareOf(spec, options, PathsOf(host, spec, options))
  {
    hide PathsOf;
    var paths := PathsOf(host, spec, options);
    ResolvedPaths(host, spec, options);
    var head, devices := HeadOpts(spec, options, paths), DeviceOpts(spec, options, paths);
    var tail := TailOpts(spec, options);
    ResolvedSerialIsLettered(host, spec, options);
    OptsWellFormed(spec, options, paths);
    TokensFlatten(Opts(spec, options, paths));
    assert Argv(host, spec, options).value == Flatten(Opts(spec, options, paths));
    FoldHead(spec, options, paths);
    FoldDevices(spec, options, paths);
    FoldTail(spec, options, paths);
    FoldParts(NOTHING, head, devices, HeadOf(spec, options, paths), DevicesOf(spec, options, paths));
    FoldParts(NOTHING, head + devices, tail, DevicesOf(spec, options, paths), HardwareOf(spec, options, paths));
  }

  /** The folder share is there exactly if the spec asks for it, on the operator's directory, and writable
      exactly if the operator enabled writes. */
  lemma ShareIsReadonlyByDefault(host: Host, spec: HardwareSpec, options: ArgvOptions)
    requires Argv(host, spec, options).Success? && !HasExtra(spec)
    ensures var share := Read(Argv(host, spec, options).value).share;
      && (share.Some? <==> spec.share)
      && (spec.share ==>
            && Some(share.value.path) == options.hostShareDir && share.value.model == "mapped-xattr"
            && (!share.value.readonly <==> options.shareReadonly == Some(false)))
  {
    hide Argv, Read, SharePath;
    ReadRecoversHardware(host, spec, options);
    assert Resolve(host, spec, options).Success? by { ArgvResolves(host, spec, options); }
    ResolveParts(host, spec, options);
    if spec.share {
      ShareConfigured(spec, options);
    }
  }

  lemma ArgvResolves(host: Host, spec: HardwareSpec, options: ArgvOptions)
    requires Argv(host, spec, options).Success?
    ensures Resolve(host, spec, options).Success?
  {
  }

  lemma ShareConfigured(spec: HardwareSpec, options: ArgvOptions)
    requires SharePath(spec, options).Success? && spec.share
    ensures options.hostShareDir.Some?
  {
  }
}
