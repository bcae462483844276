/** The order in which the options of a generated argv come. */
module ArgvOrders {
  import opened Wrappers
  import opened QemuOpts
  import opened HardwareSpecs
  import opened ArgvReaders

  function Flags(opts: seq<Opt>): (flags: seq<Flag>)
    ensures |flags| == |opts|
  {
    seq(|opts|, i requires 0 <= i < |opts| => opts[i].flag)
  }

  function If(present: bool, flags: seq<Flag>): seq<Flag> {
    if present then flags else []
  }

  /** The flags that a spec calls for, in their order: up to the display adapter, and from the drives on. */
  function FlagOrder(spec: HardwareSpec): seq<Flag> {
    HeadOrder(spec) + DeviceOrder(spec)
  }

  function HeadOrder(spec: HardwareSpec): seq<Flag> {
    [FMachine] + If(!IsRaspi(spec.machine), [FCpu, FSmp, FMemory])
    + (If(spec.kernel.Some?, [FKernel]) + If(spec.initrd.Some?, [FInitrd]) + If(spec.dtb.Some?, [FDtb])
       + If(spec.appendCmdline.Some?, [FAppend]))
    + [FNodefaults, FNographic, FFreeze]
    + (If(spec.display == Vnc, [FVnc]) + If(spec.displayDevice != NoAdapter, [FDevice]))
  }

  function DeviceOrder(spec: HardwareSpec): seq<Flag> {
    seq(|spec.disks|, _ => FDrive) + If(spec.cdrom.Some?, [FDrive])
    + If(spec.share, [FFsdev, FDevice]) + If(spec.serial, [FChardev, FSerial])
    + (If(spec.boot.Some?, [FBoot]) + If(spec.network.mode != NoNetwork, [FNetdev, FDevice]) + [FQmp])
  }

  lemma FlagsConcat(xs: seq<Opt>, ys: seq<Opt>)
    ensures Flags(xs + ys) == Flags(xs) + Flags(ys)
  {
  }

  lemma PropsFlag(flag: Flag, props: seq<string>)
    ensures PropsOpt(flag, props).flag == flag
  {
  }

  lemma {:induction false} DriveFlags(disks: seq<Disk>, paths: seq<string>)
    requires |disks| == |paths|
    ensures Flags(DriveOpts(disks, paths)) == seq(|disks|, _ => FDrive)
  {
    hide PropsOpt;
    if disks != [] {
      var first := [PropsOpt(FDrive, DriveProps(disks[0], paths[0]))];
      DriveFlags(disks[1..], paths[1..]);
      FlagsConcat(first, DriveOpts(disks[1..], paths[1..]));
      PropsFlag(FDrive, DriveProps(disks[0], paths[0]));
      assert Flags(first) == [FDrive];
    }
  }

  lemma SegmentFlags(spec: HardwareSpec, options: ArgvOptions, paths: Paths, kernel: Option<string>, flag: Flag)
    ensures Flags([PropsOpt(FMachine, [spec.machine, "accel=" + options.accel.Text()])]) == [FMachine]
    ensures Flags(SizingOpts(spec)) == If(!IsRaspi(spec.machine), [FCpu, FSmp, FMemory])
    ensures Flags(OptionOf(flag, kernel)) == If(kernel.Some?, [flag])
    ensures Flags(FixedOpts()) == [FNodefaults, FNographic, FFreeze]
    ensures Flags(CdromOpts(paths.cdrom)) == If(paths.cdrom.Some?, [FDrive])
    ensures Flags(ShareOpts(paths.share, ShareIsReadonly(options))) == If(paths.share.Some?, [FFsdev, FDevice])
    ensures Flags(SerialOpts(paths.serial)) == If(paths.serial.Some?, [FChardev, FSerial])
    ensures Flags(OrderOpts(spec.boot)) == If(spec.boot.Some?, [FBoot])
    ensures Flags(NetworkOpts(spec.network)) == If(spec.network.mode != NoNetwork, [FNetdev, FDevice])
    ensures Flags(QmpOpts(options)) == [FQmp]
  {
    hide Render, Decimal, IsRaspi, NetdevProps;
  }

  lemma HeadFlags(spec: HardwareSpec, options: ArgvOptions, paths: Paths)
    requires (paths.kernel.Some? <==> spec.kernel.Some?) && (paths.initrd.Some? <==> spec.initrd.Some?)
    requires paths.dtb.Some? <==> spec.dtb.Some?
    ensures Flags(HeadOpts(spec, options, paths)) == HeadOrder(spec)
  {
    hide Flags, If, SizingOpts, OptionOf, FixedOpts, PropsOpt, IsRaspi;
    var m := [PropsOpt(FMachine, [spec.machine, "accel=" + options.accel.Text()])];
    var vnc := if spec.display == Vnc then Some("127.0.0.1:0,password=on") else None;
    var k, i, d := OptionOf(FKernel, paths.kernel), OptionOf(FInitrd, paths.initrd), OptionOf(FDtb, paths.dtb);
    SegmentFlags(spec, options, paths, paths.kernel, FKernel);
    SegmentFlags(spec, options, paths, paths.initrd, FInitrd);
    SegmentFlags(spec, options, paths, paths.dtb, FDtb);
    SegmentFlags(spec, options, paths, spec.appendCmdline, FAppend);
    SegmentFlags(spec, options, paths, vnc, FVnc);
    SegmentFlags(spec, options, paths, spec.displayDevice.QemuDevice(), FDevice);
    FlagsConcat(m, SizingOpts(spec));
    FlagsConcat(k, i);
    FlagsConcat(k + i, d);
    FlagsConcat(k + i + d, OptionOf(FAppend, spec.appendCmdline));
    FlagsConcat(m + SizingOpts(spec), BootOpts(spec, paths));
    FlagsConcat(m + SizingOpts(spec) + BootOpts(spec, paths), FixedOpts());
    FlagsConcat(OptionOf(FVnc, vnc), OptionOf(FDevice, spec.displayDevice.QemuDevice()));
    FlagsConcat(m + SizingOpts(spec) + BootOpts(spec, paths) + FixedOpts(), DisplayOpts(spec));
  }

  lemma DeviceFlags(spec: HardwareSpec, options: ArgvOptions, paths: Paths)
    requires |paths.disks| == |spec.disks|
    requires (paths.cdrom.Some? <==> spec.cdrom.Some?) && (paths.share.Some? <==> spec.share)
    requires paths.serial.Some? <==> spec.serial
    ensures Flags(DeviceOpts(spec, options, paths) + TailOpts(spec, options)) == DeviceOrder(spec)
  {
    hide Flags, If, DriveOpts, CdromOpts, ShareOpts, SerialOpts, OrderOpts, NetworkOpts, QmpOpts;
    var drives, cdrom := DriveOpts(spec.disks, paths.disks), CdromOpts(paths.cdrom);
    var share, serial := ShareOpts(paths.share, ShareIsReadonly(options)), SerialOpts(paths.serial);
    SegmentFlags(spec, options, paths, None, FVnc);
    DriveFlags(spec.disks, paths.disks);
    FlagsConcat(drives, cdrom);
    FlagsConcat(drives + cdrom, share);
    FlagsConcat(drives + cdrom + share, serial);
    FlagsConcat(OrderOpts(spec.boot), NetworkOpts(spec.network));
    FlagsConcat(OrderOpts(spec.boot) + NetworkOpts(spec.network), QmpOpts(options));
    FlagsConcat(DeviceOpts(spec, options, paths), TailOpts(spec, options));
  }

  /** What of a spec decides which paths there are. */
  lemma PathsPresent(host: Host, spec: HardwareSpec, options: ArgvOptions)
    requires Resolve(host, spec, options).Success?
    ensures var paths := PathsOf(host, spec, options);
      && (paths.kernel.Some? <==> spec.kernel.Some?) && (paths.initrd.Some? <==> spec.initrd.Some?)
      && (paths.dtb.Some? <==> spec.dtb.Some?) && (paths.cdrom.Some? <==> spec.cdrom.Some?)
      && (paths.share.Some? <==> spec.share) && (paths.serial.Some? <==> spec.serial)
  {
    hide Resolve, ResolveOptional, DiskPaths, SpoolPath;
    ResolveParts(host, spec, options);
    ResolvedPaths(host, spec, options);
  }

  /** The options of a generated argv come in one order, whatever the spec. */
  lemma ArgvOrder(host: Host, spec: HardwareSpec, options: ArgvOptions)
    requires Argv(host, spec, options).Success? && !HasExtra(spec)
    ensures Flags(Tokens(Argv(host, spec, options).value)) == FlagOrder(spec)
  {
    hide Resolve, PathsOf, HeadOpts, DeviceOpts, TailOpts, Tokens, Flatten, Flags, HeadOrder, DeviceOrder;
    ArgvResolves(host, spec, options);
    var paths := PathsOf(host, spec, options);
    ResolvedPaths(host, spec, options);
    PathsPresent(host, spec, options);
    OptsWellFormed(spec, options, paths);
    TokensFlatten(Opts(spec, options, paths));
    HeadFlags(spec, options, paths);
    DeviceFlags(spec, options, paths);
    FlagsConcat(HeadOpts(spec, options, paths), DeviceOpts(spec, options, paths) + TailOpts(spec, options));
    assert Opts(spec, options, paths)
      == HeadOpts(spec, options, paths) + (DeviceOpts(spec, options, paths) + TailOpts(spec, options));
    assert Argv(host, spec, options).value == Flatten(Opts(spec, options, paths));
  }
}
