/**
 Which specs the argv generator refuses, and why: its checks as one list, in the order in
 which they are met, and what each kind of name is.
 */
module ArgvRefusals {
  import opened Wrappers
  import opened HardwareSpecs
  import opened ArgvReaders

  // ---- Names, blanks and boards ----

  const SMALLS := "abcdefghijklmnopqrstuvwxyz"
  const CAPITALS := "ABCDEFGHIJKLMNOPQRSTUVWXYZ"
  const DIGITS := "0123456789"

  lemma SmallIff(c: char)
    ensures 'a' <= c <= 'z' <==> c in SMALLS
  {
    if 'a' <= c <= 'z' {
      assert SMALLS[c as int - 'a' as int] == c;
    }
  }

  lemma CapitalIff(c: char)
    ensures 'A' <= c <= 'Z' <==> c in CAPITALS
  {
    if 'A' <= c <= 'Z' {
      assert CAPITALS[c as int - 'A' as int] == c;
    }
  }

  lemma DigitIff(c: char)
    ensures '0' <= c <= '9' <==> c in DIGITS
  {
    if '0' <= c <= '9' {
      assert DIGITS[c as int - '0' as int] == c;
    }
  }

  predicate SafeStart(c: char) {
    c in SMALLS || c in CAPITALS || c in DIGITS
  }

  /** A store name is a letter or digit followed by letters, digits, dots, underscores and hyphens, and so
      one path segment in which nothing can end a property. */
  lemma StoreNameIff(name: string)
    ensures IsStoreName(name) <==>
      |name| > 0 && SafeStart(name[0]) && forall i :: 0 <= i < |name| ==> SafeStart(name[i]) || name[i] in "._-"
    ensures IsStoreName(name) ==> !(name in {".", ".."}) && forall c | c in "/\\,=: \0" :: c !in name
  {
    hide IsAlnum, SafeStart;
    forall c: char
      ensures IsAlnum(c) <==> SafeStart(c)
      ensures IsAlnum(c) ==> c !in "/\\,=: \0" && c !in "._-"
    {
      AlnumApart(c);
    }
    forall c: char
      ensures c in "._-" <==> c == '.' || c == '_' || c == '-'
    {
      assert "._-"[0] == '.' && "._-"[1] == '_' && "._-"[2] == '-';
    }
  }

  lemma AlnumApart(c: char)
    ensures IsAlnum(c) <==> SafeStart(c)
    ensures IsAlnum(c) ==> c !in "/\\,=: \0" && c !in "._-"
  {
    SmallIff(c);
    CapitalIff(c);
    DigitIff(c);
  }

  /** The code points with Unicode's White_Space property. */
  const WHITE_SPACE: set<int> := {
    0x09, 0x0a, 0x0b, 0x0c, 0x0d, 0x20, 0x85, 0xa0, 0x1680, 0x2000, 0x2001, 0x2002, 0x2003, 0x2004, 0x2005, 0x2006,
    0x2007, 0x2008, 0x2009, 0x200a, 0x2028, 0x2029, 0x202f, 0x205f, 0x3000}

  lemma WhiteIff(c: char)
    ensures IsWhite(c) <==> c as int in WHITE_SPACE
  {
  }

  /** Blank means nothing but white space. */
  lemma BlankIff(s: string)
    ensures Blank(s) <==> forall i :: 0 <= i < |s| ==> s[i] as int in WHITE_SPACE
  {
    hide IsWhite;
    forall i | 0 <= i < |s|
      ensures IsWhite(s[i]) <==> s[i] as int in WHITE_SPACE
    {
      WhiteIff(s[i]);
    }
  }

  /** The boards without a PCI bus are exactly the six Raspberry Pi machines. */
  lemma RaspiIff(machine: string)
    ensures IsRaspi(machine) <==>
      "raspi" <= machine && machine[5..] in {"0", "1ap", "2b", "3ap", "3b", "4b"}
  {
    if "raspi" <= machine {
      assert machine == "raspi" + machine[5..];
    }
    assert "raspi" + "0" == "raspi0" && "raspi" + "1ap" == "raspi1ap" && "raspi" + "2b" == "raspi2b";
    assert "raspi" + "3ap" == "raspi3ap" && "raspi" + "3b" == "raspi3b" && "raspi" + "4b" == "raspi4b";
    if IsRaspi(machine) {
      assert machine[..5] == "raspi";
    }
  }

  /** A name joined to a directory: the directory, one separator unless it ends in one, and the name. */
  lemma JoinedPath(dir: string, name: string)
    ensures var path := PathJoin(dir, name);
      && dir <= path && path[|path| - |name|..] == name
      && |path| == |dir| + |name| + (if dir != "" && dir[|dir| - 1] != '/' then 1 else 0)
      && (dir != "" ==> path[|path| - |name| - 1] == '/')
  {
  }

  // ---- The checks, in order ----

  function Unless(first: Option<SpecError>, present: bool, error: SpecError): Option<SpecError> {
    if first.Some? then first else if present then Some(error) else None
  }

  function OrElse(first: Option<SpecError>, other: Option<SpecError>): Option<SpecError> {
    if first.Some? then first else other
  }

  /** What is wrong with a reference into a store, if there is one. */
  function RefusedName(host: Host, dir: Option<string>, name: Option<string>): Option<SpecError> {
    var missing := dir.None? || Blank(dir.value);
    var first := Unless(None, name.Some? && missing, StoreNotConfigured);
    var first := Unless(first, name.Some? && !IsStoreName(name.value), BadReference);
    var first := Unless(first, name.Some? && dir.Some? && dir.value !in host.canonical, BadReference);
    Unless(first, name.Some? && StorePath(host, dir, name.value) in host.escaping, BadReference)
  }

  /** What is wrong with the first disk that something is wrong with. */
  function RefusedDisks(host: Host, dir: Option<string>, disks: seq<Disk>): Option<SpecError> {
    if disks == [] then None
    else OrElse(RefusedName(host, dir, Some(disks[0].image)), RefusedDisks(host, dir, disks[1..]))
  }

  function RefusedShare(spec: HardwareSpec, options: ArgvOptions): Option<SpecError> {
    var missing := options.hostShareDir.None? || Blank(options.hostShareDir.value);
    var first := Unless(None, spec.share && missing, ShareNotConfigured);
    Unless(first, spec.share && IsRaspi(spec.machine), ShareOnRaspi)
  }

  function RefusedSerial(spec: HardwareSpec, options: ArgvOptions): Option<SpecError> {
    var spools := spec.serial && options.serialBackend == Spool;
    var missing := options.serialSpoolDir.None? || Blank(options.serialSpoolDir.value);
    var first := Unless(None, spools && missing, SpoolNotConfigured);
    Unless(first, spools && spec.serialSpool.Some? && !IsStoreName(spec.serialSpool.value), BadSpoolName)
  }

  /** The default port range is the unprivileged one. */
  predicate OutOfRange(options: ArgvOptions, port: nat) {
    match options.hostfwdPortRange
    case Some(range) => port < range.low || port > range.high
    case None => port < 1024 || port > 65535
  }

  function RefusedNetwork(network: Network, machine: string, options: ArgvOptions): Option<SpecError> {
    var nic := network.mode != NoNetwork;
    var outside := exists i :: 0 <= i < |network.hostForwards| && OutOfRange(options, network.hostForwards[i].hostPort);
    var first := Unless(None, network.mode != User && |network.hostForwards| > 0, ForwardsNeedUserMode);
    var first := Unless(first, nic && network.model == UsbNet && !IsRaspi(machine), UsbNetNeedsRaspi);
    var first := Unless(first, nic && network.model != UsbNet && IsRaspi(machine), PciNicOnRaspi);
    var first := Unless(first, network.mode == User && outside, ForwardOutOfRange);
    Unless(first, network.mode in {Tap, Bridge} && !options.allowHostNet, HostNetRefused)
  }

  /** The first of the checks up to the display adapter that a spec fails. */
  function RefusedHead(host: Host, spec: HardwareSpec, options: ArgvOptions): Option<SpecError> {
    var images := options.imageDir;
    var tooBig := options.maxMemoryMb.Some? && spec.memoryMb > options.maxMemoryMb.value;
    var tooMany := options.maxVcpus.Some? && spec.vcpus > options.maxVcpus.value;
    var first := Unless(None, tooBig, OverMemoryCap);
    var first := Unless(first, tooMany, OverVcpusCap);
    var first := OrElse(first, RefusedName(host, images, spec.kernel));
    var first := OrElse(first, RefusedName(host, images, spec.initrd));
    var first := OrElse(first, RefusedName(host, images, spec.dtb));
    Unless(first, spec.displayDevice != NoAdapter && IsRaspi(spec.machine), AdapterOnRaspi)
  }

  /** The first of the checks from the drives on that a spec fails. */
  function RefusedDevices(host: Host, spec: HardwareSpec, options: ArgvOptions): Option<SpecError> {
    var raw := spec.extraArgs.Some? && |spec.extraArgs.value| > 0;
    var first := RefusedDisks(host, options.imageDir, spec.disks);
    var first := OrElse(first, RefusedName(host, options.isoDir, spec.cdrom));
    var first := OrElse(first, RefusedShare(spec, options));
    var first := OrElse(first, RefusedSerial(spec, options));
    var first := OrElse(first, RefusedNetwork(spec.network, spec.machine, options));
    Unless(first, raw && !options.allowRawArgs, RawArgsRefused)
  }

  /** The first check that a spec fails. */
  function FirstRefusal(host: Host, spec: HardwareSpec, options: ArgvOptions): Option<SpecError> {
    OrElse(RefusedHead(host, spec, options), RefusedDevices(host, spec, options))
  }

  function ErrorOf<T>(r: Result<T, SpecError>): Option<SpecError> {
    match r case Success(_) => None case Failure(error) => Some(error)
  }

  lemma NameRefused(host: Host, dir: Option<string>, name: Option<string>)
    ensures ErrorOf(ResolveOptional(host, name, dir)) == RefusedName(host, dir, name)
    ensures name.Some? ==> ErrorOf(ResolveInStore(host, name.value, dir)) == RefusedName(host, dir, name)
  {
    hide Blank, IsStoreName, PathJoin;
  }

  lemma {:induction false} DisksRefused(host: Host, dir: Option<string>, disks: seq<Disk>)
    ensures ErrorOf(DiskPaths(host, disks, dir)) == RefusedDisks(host, dir, disks)
  {
    hide RefusedName, ResolveInStore;
    if disks != [] {
      NameRefused(host, dir, Some(disks[0].image));
      DisksRefused(host, dir, disks[1..]);
    }
  }

  lemma ShareRefused(spec: HardwareSpec, options: ArgvOptions)
    ensures ErrorOf(SharePath(spec, options)) == RefusedShare(spec, options)
  {
    hide Blank, IsRaspi;
  }

  lemma SerialRefused(spec: HardwareSpec, options: ArgvOptions)
    ensures ErrorOf(SerialPropsOf(spec, options)) == RefusedSerial(spec, options)
  {
    hide Blank, IsStoreName, SerialProps, PathJoin;
  }

  lemma NetworkRefused(network: Network, machine: string, options: ArgvOptions)
    ensures CheckNetwork(network, machine, options) == RefusedNetwork(network, machine, options)
  {
    hide IsRaspi;
    var range := ForwardRange(options);
    forall port: nat
      ensures OutOfRange(options, port) <==> !(range.low <= port <= range.high)
    {
    }
    forall f | f in network.hostForwards
      ensures exists i :: 0 <= i < |network.hostForwards| && network.hostForwards[i] == f
    {
    }
  }

  lemma HeadRefused(host: Host, spec: HardwareSpec, options: ArgvOptions)
    ensures RefusedHead(host, spec, options).Some? ==>
      ErrorOf(Resolve(host, spec, options)) == RefusedHead(host, spec, options)
    ensures RefusedHead(host, spec, options).None? ==>
      && CheckCaps(spec, options) == None && (spec.displayDevice == NoAdapter || !IsRaspi(spec.machine))
      && ResolveOptional(host, spec.kernel, options.imageDir).Success?
      && ResolveOptional(host, spec.initrd, options.imageDir).Success?
      && ResolveOptional(host, spec.dtb, options.imageDir).Success?
  {
    hide ResolveOptional, DiskPaths, SharePath, SerialPropsOf, CheckNetwork, IsRaspi, RefusedName;
    NameRefused(host, options.imageDir, spec.kernel);
    NameRefused(host, options.imageDir, spec.initrd);
    NameRefused(host, options.imageDir, spec.dtb);
  }

  lemma DevicesRefused(host: Host, spec: HardwareSpec, options: ArgvOptions)
    requires RefusedHead(host, spec, options).None?
    ensures ErrorOf(Resolve(host, spec, options)) == RefusedDevices(host, spec, options)
  {
    hide ResolveOptional, DiskPaths, SharePath, SerialPropsOf, CheckNetwork, CheckCaps, IsRaspi, RefusedName,
      RefusedDisks, RefusedShare, RefusedSerial, RefusedNetwork, RefusedHead;
    HeadRefused(host, spec, options);
    DisksRefused(host, options.imageDir, spec.disks);
    NameRefused(host, options.isoDir, spec.cdrom);
    ShareRefused(spec, options);
    SerialRefused(spec, options);
    NetworkRefused(spec.network, spec.machine, options);
  }

  /** The generator succeeds exactly when a spec passes every check, and otherwise answers with the first
      that it fails. */
  lemma ArgvRefusal(host: Host, spec: HardwareSpec, options: ArgvOptions)
    ensures ErrorOf(Argv(host, spec, options)) == FirstRefusal(host, spec, options)
  {
    hide Resolve, RefusedHead, RefusedDevices, Opts, Flatten;
    HeadRefused(host, spec, options);
    if RefusedHead(host, spec, options).None? {
      DevicesRefused(host, spec, options);
    }
  }

  lemma OptsIgnoreExtra(spec: HardwareSpec, options: ArgvOptions, paths: Paths, extra: Option<seq<string>>)
    requires |paths.disks| == |spec.disks|
    ensures Opts(spec.(extraArgs := extra), options, paths) == Opts(spec, options, paths)
  {
    hide PropsOpt, DriveOpts, CdromOpts, ShareOpts, SerialOpts, OrderOpts, NetworkOpts, QmpOpts, OptionOf, IsRaspi,
      Decimal, FixedOpts;
  }

  lemma ResolveIgnoresExtra(host: Host, spec: HardwareSpec, options: ArgvOptions)
    requires Resolve(host, spec, options).Success?
    ensures Resolve(host, spec.(extraArgs := None), options) == Resolve(host, spec, options)
    ensures HasExtra(spec) ==> options.allowRawArgs
  {
    hide ResolveOptional, DiskPaths, CheckNetwork, IsRaspi, SpoolPath, Blank;
  }

  /** Raw arguments are let through only if the operator allows them, and then they end the argv as they
      are, after everything generated for the spec without them. */
  lemma RawArgsComeLast(host: Host, spec: HardwareSpec, options: ArgvOptions)
    requires Argv(host, spec, options).Success? && spec.extraArgs.Some? && |spec.extraArgs.value| > 0
    ensures options.allowRawArgs
    ensures var plain := Argv(host, spec.(extraArgs := None), options);
      plain.Success? && Argv(host, spec, options).value == plain.value + spec.extraArgs.value
  {
    hide Resolve, Opts, Flatten;
    ResolveIgnoresExtra(host, spec, options);
    OptsIgnoreExtra(spec, options, Resolve(host, spec, options).value, None);
  }
}
