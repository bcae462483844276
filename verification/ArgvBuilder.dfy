/**
 The argv generator as the program runs it: tokens pushed one after the other, property
 lists assembled from parts that are escaped one by one. `BuildArgv` computes `Argv`.
 */
module ArgvBuilders {
  import opened Wrappers
  import opened QemuOpts
  import opened HardwareSpecs

  // ---- Strings as the program assembles them, and the property lists they render ----

  lemma RenderTwo(a: string, b: string)
    ensures Render([a, b]) == Escape(a) + "," + Escape(b)
  {
    assert Render([b]) == Escape(b);
  }

  lemma RenderThree(a: string, b: string, c: string)
    ensures Render([a, b, c]) == Escape(a) + "," + Escape(b) + "," + Escape(c)
  {
    RenderTwo(b, c);
    assert [a, b, c][1..] == [b, c];
  }

  lemma {:induction false} RenderLast(props: seq<string>, last: string)
    requires props != []
    ensures Render(props + [last]) == Render(props) + "," + Escape(last)
    decreases |props|
  {
    if |props| > 1 {
      RenderLast(props[1..], last);
      assert (props + [last])[1..] == props[1..] + [last];
    } else {
      RenderTwo(props[0], last);
      assert props + [last] == [props[0], last];
    }
  }

  // ---- Tokens ----

  lemma {:induction false} FlattenConcat(xs: seq<Opt>, ys: seq<Opt>)
    ensures Flatten(xs + ys) == Flatten(xs) + Flatten(ys)
  {
    if xs == [] {
      assert xs + ys == ys;
    } else {
      assert (xs + ys)[1..] == xs[1..] + ys;
      FlattenConcat(xs[1..], ys);
    }
  }

  /** One more option at the end. */
  lemma FlattenPush(xs: seq<Opt>, opt: Opt)
    ensures Flatten(xs + [opt]) ==
      Flatten(xs) + if opt.value.None? then [opt.flag.Text()] else [opt.flag.Text(), opt.value.value]
  {
    FlattenConcat(xs, [opt]);
    FlattenOne(opt);
  }

  lemma FlattenOne(opt: Opt)
    ensures Flatten([opt]) == if opt.value.None? then [opt.flag.Text()] else [opt.flag.Text(), opt.value.value]
  {
    assert Flatten([opt][1..]) == [];
  }

  lemma FlattenNone()
    ensures Flatten([]) == []
  {
  }

  lemma FlattenTwo(x: Opt, y: Opt)
    requires x.value.Some? && y.value.Some?
    ensures Flatten([x, y]) == [x.flag.Text(), x.value.value, y.flag.Text(), y.value.value]
  {
    FlattenOne(x);
    FlattenPush([x], y);
    assert [x] + [y] == [x, y];
  }

  // ---- The parts of the generator ----

  predicate AllSafe(parts: seq<string>) {
    forall i :: 0 <= i < |parts| ==> CommaFree(parts[i])
  }

  /** A part escaped in its value, then parts that need no escaping. */
  lemma JoinAfter(head: string, prop: string, rest: seq<string>)
    requires head == Escape(prop) && AllSafe(rest)
    ensures Join([head] + rest) == Render([prop] + rest)
  {
    forall i | 0 <= i < |rest|
      ensures rest[i] == Escape(rest[i])
    {
      EscapeCommaFree(rest[i]);
    }
    JoinIsRender([head] + rest, [prop] + rest);
  }

  lemma KeySafe(key: string, value: string)
    requires CommaFree(key) && CommaFree(value)
    ensures CommaFree(key + value)
  {
  }

  function DriveTail(disk: Disk): seq<string> {
    ["format=" + disk.format.Text(), "if=" + disk.interface.Text(), "media=disk"]
    + if disk.readonly then ["readonly=on"] else []
  }

  lemma DriveTailSafe(disk: Disk)
    ensures AllSafe(DriveTail(disk))
  {
    KeySafe("format=", disk.format.Text());
    KeySafe("if=", disk.interface.Text());
  }

  lemma DriveParts(disk: Disk, path: string)
    ensures Join(["file=" + Escape(path)] + DriveTail(disk)) == Render(DriveProps(disk, path))
  {
    hide Escape, Render;
    EscapeKeyValue("file=", path);
    DriveTailSafe(disk);
    JoinAfter("file=" + Escape(path), "file=" + path, DriveTail(disk));
    assert DriveProps(disk, path) == ["file=" + path] + DriveTail(disk);
  }

  function CdromTail(): seq<string> {
    ["media=cdrom", "readonly=on", "format=raw"]
  }

  lemma CdromTailSafe()
    ensures AllSafe(CdromTail())
  {
    assert CommaFree("media=cdrom");
    assert CommaFree("readonly=on");
    assert CommaFree("format=raw");
  }

  lemma CdromParts(path: string)
    ensures Join(["file=" + Escape(path)] + CdromTail()) == Render(CdromProps(path))
  {
    hide Escape, Render;
    EscapeKeyValue("file=", path);
    CdromTailSafe();
    JoinAfter("file=" + Escape(path), "file=" + path, CdromTail());
    assert CdromProps(path) == ["file=" + path] + CdromTail();
  }

  method BuildDriveArgs(host: Host, disk: Disk, imageDir: Option<string>) returns (r: Result<seq<string>, SpecError>)
    ensures r ==
      var path := ResolveInStore(host, disk.image, imageDir);
      if path.Failure? then Failure(path.error)
      else Success(["-drive", Render(DriveProps(disk, path.value))])
  {
    hide Escape, Render;
    var path :- ResolveInStore(host, disk.image, imageDir);
    var parts := ["file=" + Escape(path), "format=" + disk.format.Text(), "if=" + disk.interface.Text(), "media=disk"];
    if disk.readonly {
      parts := parts + ["readonly=on"];
    }
    DriveParts(disk, path);
    assert parts == ["file=" + Escape(path)] + DriveTail(disk);
    return Success(["-drive", Join(parts)]);
  }

  method BuildCdromArgs(host: Host, iso: string, isoDir: Option<string>) returns (r: Result<seq<string>, SpecError>)
    ensures r ==
      var path := ResolveInStore(host, iso, isoDir);
      if path.Failure? then Failure(path.error)
      else Success(["-drive", Render(CdromProps(path.value))])
  {
    hide Escape, Render;
    var path :- ResolveInStore(host, iso, isoDir);
    var parts := ["file=" + Escape(path), "media=cdrom", "readonly=on", "format=raw"];
    CdromParts(path);
    assert parts == ["file=" + Escape(path)] + CdromTail();
    return Success(["-drive", Join(parts)]);
  }

  lemma DecimalSafe(n: nat)
    ensures CommaFree(Decimal(n))
  {
    assert forall c :: c in Decimal(n) ==> '0' <= c <= '9';
  }

  // ---- Folder share ----

  /** Two constant properties, a keyed value, a constant. */
  lemma RenderKeyed(a: string, b: string, key: string, value: string)
    requires CommaFree(a) && CommaFree(b) && CommaFree(key)
    ensures Render([a, b, key + value]) == a + "," + b + "," + (key + Escape(value))
  {
    EscapeCommaFree(a);
    EscapeCommaFree(b);
    EscapeKeyValue(key, value);
    RenderThree(a, b, key + value);
  }

  lemma RenderSafeLast(props: seq<string>, last: string)
    requires props != [] && CommaFree(last)
    ensures Render(props + [last]) == Render(props) + ("," + last)
  {
    RenderLast(props, last);
    EscapeCommaFree(last);
  }

  lemma FsdevStart(path: string)
    ensures Render(["local", "id=fsdev0", "path=" + path]) == "local,id=fsdev0,path=" + Escape(path)
  {
    hide Escape, Render;
    RenderKeyed("local", "id=fsdev0", "path=", path);
    assert "local" + "," + "id=fsdev0" + "," + "path=" == "local,id=fsdev0,path=";
  }

  lemma ModelGlue()
    ensures "," + "security_model=mapped-xattr" == ",security_model=mapped-xattr"
  {
  }

  lemma FsdevModel(path: string)
    ensures Render(["local", "id=fsdev0", "path=" + path, "security_model=mapped-xattr"]) ==
      "local,id=fsdev0,path=" + Escape(path) + ",security_model=mapped-xattr"
  {
    hide Escape, Render;
    FsdevStart(path);
    RenderSafeLast(["local", "id=fsdev0", "path=" + path], "security_model=mapped-xattr");
    ModelGlue();
    assert ["local", "id=fsdev0", "path=" + path] + ["security_model=mapped-xattr"]
      == ["local", "id=fsdev0", "path=" + path, "security_model=mapped-xattr"];
  }

  lemma FsdevReadonly(path: string)
    ensures Render(ShareProps(path, true)) == Render(ShareProps(path, false)) + ",readonly=on"
  {
    hide Escape, Render;
    RenderSafeLast(ShareProps(path, false), "readonly=on");
    assert "," + "readonly=on" == ",readonly=on";
    assert ShareProps(path, true) == ShareProps(path, false) + ["readonly=on"];
  }

  lemma ShareDeviceGlue()
    ensures "virtio-9p-pci" + "," + "fsdev=fsdev0" + "," + "mount_tag=share" ==
      "virtio-9p-pci,fsdev=fsdev0,mount_tag=share"
  {
  }

  lemma RenderSafeThree(a: string, b: string, c: string)
    requires CommaFree(a) && CommaFree(b) && CommaFree(c)
    ensures Render([a, b, c]) == a + "," + b + "," + c
  {
    RenderThree(a, b, c);
    EscapeCommaFree(a);
    EscapeCommaFree(b);
    EscapeCommaFree(c);
  }

  lemma ShareDeviceText()
    ensures Render(ShareDeviceProps()) == "virtio-9p-pci,fsdev=fsdev0,mount_tag=share"
  {
    hide Escape, Render;
    RenderSafeThree("virtio-9p-pci", "fsdev=fsdev0", "mount_tag=share");
    ShareDeviceGlue();
  }

  method BuildShareArgs(spec: HardwareSpec, options: ArgvOptions) returns (r: Result<seq<string>, SpecError>)
    requires spec.share
    ensures r ==
      var path := SharePath(spec, options);
      if path.Failure? then Failure(path.error)
      else Success(Flatten(ShareOpts(path.value, ShareIsReadonly(options))))
  {
    hide Escape, Render;
    if options.hostShareDir.None? || Blank(options.hostShareDir.value) {
      return Failure(ShareNotConfigured);
    }
    if IsRaspi(spec.machine) {
      return Failure(ShareOnRaspi);
    }
    var hostDir := options.hostShareDir.value;
    var fsdev := "local,id=fsdev0,path=" + Escape(hostDir) + ",security_model=mapped-xattr";
    FsdevModel(hostDir);
    assert ShareProps(hostDir, false) == ["local", "id=fsdev0", "path=" + hostDir, "security_model=mapped-xattr"];
    if options.shareReadonly != Some(false) {
      fsdev := fsdev + ",readonly=on";
      FsdevReadonly(hostDir);
    }
    ShareDeviceText();
    FlattenTwo(PropsOpt(FFsdev, ShareProps(hostDir, ShareIsReadonly(options))), PropsOpt(FDevice, ShareDeviceProps()));
    return Success(["-fsdev", fsdev, "-device", "virtio-9p-pci,fsdev=fsdev0,mount_tag=share"]);
  }

  // ---- Serial Port ----

  lemma RingbufText(size: nat)
    ensures Render(SerialProps(Ringbuf, "", size)) == "ringbuf,id=serialbuf,size=" + Decimal(size)
  {
    hide Escape, Render;
    RenderKeyed("ringbuf", "id=serialbuf", "size=", Decimal(size));
    DecimalSafe(size);
    EscapeCommaFree(Decimal(size));
    assert "ringbuf" + "," + "id=serialbuf" + "," + "size=" == "ringbuf,id=serialbuf,size=";
  }

  lemma SpoolText(path: string)
    ensures Render(SerialProps(Spool, path, 0)) == "file,id=serialbuf,path=" + Escape(path)
  {
    hide Escape, Render;
    RenderKeyed("file", "id=serialbuf", "path=", path);
    assert "file" + "," + "id=serialbuf" + "," + "path=" == "file,id=serialbuf,path=";
  }

  lemma SocketStart(path: string)
    ensures Render(["socket", "id=serialbuf", "path=" + path]) == "socket,id=serialbuf,path=" + Escape(path)
  {
    hide Escape, Render;
    RenderKeyed("socket", "id=serialbuf", "path=", path);
    assert "socket" + "," + "id=serialbuf" + "," + "path=" == "socket,id=serialbuf,path=";
  }

  lemma SocketText(path: string)
    ensures Render(SerialProps(Socket, path, 0)) == "socket,id=serialbuf,path=" + Escape(path) + ",server=on,wait=off"
  {
    hide Escape, Render;
    var start := ["socket", "id=serialbuf", "path=" + path];
    SocketStart(path);
    RenderSafeLast(start, "server=on");
    RenderSafeLast(start + ["server=on"], "wait=off");
    assert SerialProps(Socket, path, 0) == start + ["server=on"] + ["wait=off"];
    assert ("," + "server=on") + ("," + "wait=off") == ",server=on,wait=off";
  }

  method BuildSerialArgs(spec: HardwareSpec, options: ArgvOptions) returns (r: Result<seq<string>, SpecError>)
    requires spec.serial
    ensures r ==
      var props := SerialPropsOf(spec, options);
      if props.Failure? then Failure(props.error) else Success(Flatten(SerialOpts(props.value)))
  {
    hide Escape, Render;
    var chardev: string;
    match options.serialBackend {
      case Ringbuf =>
        chardev := "ringbuf,id=serialbuf,size=" + Decimal(options.serialBufferBytes);
        RingbufText(options.serialBufferBytes);
      case Spool =>
        var path :- SpoolPath(options.serialSpoolDir, spec.serialSpool);
        chardev := "file,id=serialbuf,path=" + Escape(path);
        SpoolText(path);
      case Socket =>
        chardev := "socket,id=serialbuf,path=" + Escape(options.serialSocketPath) + ",server=on,wait=off";
        SocketText(options.serialSocketPath);
    }
    FlattenTwo(PropsOpt(FChardev, SerialPropsOf(spec, options).value.value), Setting(FSerial, "chardev:serialbuf"));
    return Success(["-chardev", chardev, "-serial", "chardev:serialbuf"]);
  }

  // ---- Network ----

  lemma ForwardSafe(f: HostForward)
    ensures CommaFree(ForwardText(f))
  {
    hide Escape, Render;
    var head := "hostfwd=" + f.proto.Text();
    KeySafe("hostfwd=", f.proto.Text());
    KeySafe(head, ":127.0.0.1:");
    DecimalSafe(f.hostPort);
    KeySafe(head + ":127.0.0.1:", Decimal(f.hostPort));
    KeySafe(head + ":127.0.0.1:" + Decimal(f.hostPort), "-:");
    DecimalSafe(f.guestPort);
    KeySafe(head + ":127.0.0.1:" + Decimal(f.hostPort) + "-:", Decimal(f.guestPort));
  }

  lemma NetdevParts(forwards: seq<HostForward>)
    ensures Join(["user", "id=net0"] + ForwardTexts(forwards)) == Render(["user", "id=net0"] + ForwardTexts(forwards))
  {
    hide Escape, Render;
    var rest := ["id=net0"] + ForwardTexts(forwards);
    assert CommaFree("id=net0");
    forall i | 0 <= i < |rest|
      ensures CommaFree(rest[i])
    {
      if i > 0 {
        ForwardSafe(forwards[i - 1]);
        assert rest[i] == ForwardText(forwards[i - 1]);
      }
    }
    EscapeCommaFree("user");
    JoinAfter("user", "user", rest);
    assert ["user"] + rest == ["user", "id=net0"] + ForwardTexts(forwards);
  }

  lemma NicText(model: string, mode: string)
    requires CommaFree(mode)
    ensures Render([model, "netdev=net0"]) == Escape(model) + ",netdev=net0"
    ensures Render([mode, "id=net0"]) == Escape(mode) + ",id=net0"
  {
    hide Escape, Render;
    RenderTwo(model, "netdev=net0");
    EscapeCommaFree("netdev=net0");
    assert "," + "netdev=net0" == ",netdev=net0";
    RenderTwo(mode, "id=net0");
    EscapeCommaFree("id=net0");
    assert "," + "id=net0" == ",id=net0";
  }

  method BuildNetworkArgs(network: Network, machine: string, options: ArgvOptions)
      returns (r: Result<seq<string>, SpecError>)
    ensures r ==
      var refusal := CheckNetwork(network, machine, options);
      if refusal.Some? then Failure(refusal.value) else Success(Flatten(NetworkOpts(network)))
  {
    hide Escape, Render, Flatten, Join, ForwardText, IsRaspi;
    if network.mode != User && network.hostForwards != [] {
      return Failure(ForwardsNeedUserMode);
    }
    if network.mode == NoNetwork {
      FlattenNone();
      return Success([]);
    }
    if network.model == UsbNet && !IsRaspi(machine) {
      return Failure(UsbNetNeedsRaspi);
    }
    if network.model != UsbNet && IsRaspi(machine) {
      return Failure(PciNicOnRaspi);
    }
    var device := Escape(network.model.Text()) + ",netdev=net0";
    NicText(network.model.Text(), network.mode.Text());
    FlattenTwo(PropsOpt(FNetdev, NetdevProps(network)), PropsOpt(FDevice, [network.model.Text(), "netdev=net0"]));
    if network.mode == User {
      var range := ForwardRange(options);
      var parts := ["user", "id=net0"];
      for i := 0 to |network.hostForwards|
        invariant parts == ["user", "id=net0"] + ForwardTexts(network.hostForwards[..i])
        invariant forall j :: 0 <= j < i ==> range.low <= network.hostForwards[j].hostPort <= range.high
      {
        var fwd := network.hostForwards[i];
        if fwd.hostPort < range.low || fwd.hostPort > range.high {
          assert fwd in network.hostForwards;
          return Failure(ForwardOutOfRange);
        }
        parts := parts + [ForwardText(fwd)];
        assert ForwardTexts(network.hostForwards[..i + 1])
          == ForwardTexts(network.hostForwards[..i]) + [ForwardText(fwd)];
      }
      assert network.hostForwards[..|network.hostForwards|] == network.hostForwards;
      NetdevParts(network.hostForwards);
      return Success(["-netdev", Join(parts), "-device", device]);
    }
    if !options.allowHostNet {
      return Failure(HostNetRefused);
    }
    assert NetdevProps(network) == [network.mode.Text(), "id=net0"];
    return Success(["-netdev", Escape(network.mode.Text()) + ",id=net0", "-device", device]);
  }

  // ---- The whole argv ----

  /** Options appended to options are tokens appended to tokens. */
  lemma Extend(argv: seq<string>, opts: seq<Opt>, tokens: seq<string>, segment: seq<Opt>)
    requires argv == Flatten(opts) && tokens == Flatten(segment)
    ensures argv + tokens == Flatten(opts + segment)
  {
    FlattenConcat(opts, segment);
  }

  lemma OptionalTokens(flag: Flag, value: Option<string>)
    ensures Flatten(OptionOf(flag, value)) == if value.None? then [] else [flag.Text(), value.value]
  {
    if value.Some? {
      FlattenOne(Setting(flag, value.value));
    }
  }

  lemma SizingTokens(spec: HardwareSpec)
    requires !IsRaspi(spec.machine)
    ensures Flatten(SizingOpts(spec)) == ["-cpu", spec.cpu, "-smp", Decimal(spec.vcpus), "-m", Decimal(spec.memoryMb)]
  {
    var smp := Setting(FSmp, Decimal(spec.vcpus));
    FlattenTwo(Setting(FCpu, spec.cpu), smp);
    FlattenPush([Setting(FCpu, spec.cpu), smp], Setting(FMemory, Decimal(spec.memoryMb)));
    assert SizingOpts(spec) == [Setting(FCpu, spec.cpu), smp] + [Setting(FMemory, Decimal(spec.memoryMb))];
  }

  lemma FixedTokens()
    ensures Flatten(FixedOpts()) == ["-nodefaults", "-nographic", "-S"]
  {
    var first, second := Opt(FNodefaults, None), Opt(FNographic, None);
    FlattenOne(first);
    FlattenPush([first], second);
    FlattenPush([first, second], Opt(FFreeze, None));
    assert [first] + [second] == [first, second];
    assert FixedOpts() == [first, second] + [Opt(FFreeze, None)];
  }

  lemma MachineText(spec: HardwareSpec, accel: Accel)
    ensures Flatten([PropsOpt(FMachine, [spec.machine, "accel=" + accel.Text()])])
      == ["-machine", Escape(spec.machine) + ",accel=" + accel.Text()]
  {
    hide Escape, Render;
    var prop := "accel=" + accel.Text();
    RenderTwo(spec.machine, prop);
    KeySafe("accel=", accel.Text());
    EscapeCommaFree(prop);
    assert "," + prop == ",accel=" + accel.Text();
    assert Escape(spec.machine) + "," + prop == Escape(spec.machine) + ",accel=" + accel.Text();
    FlattenOne(PropsOpt(FMachine, [spec.machine, prop]));
  }

  lemma RenderOne(prop: string)
    ensures Render([prop]) == Escape(prop)
  {
  }

  lemma BootTokens(boot: string)
    ensures Flatten(OrderOpts(Some(boot))) == ["-boot", "order=" + Escape(boot)]
  {
    hide Escape, Render;
    EscapeKeyValue("order=", boot);
    RenderOne("order=" + boot);
    FlattenOne(Setting(FBoot, Render(["order=" + boot])));
  }

  /** Push a flag and its value when there is one. */
  method PushOptional(argv: seq<string>, ghost opts: seq<Opt>, flag: Flag, value: Option<string>)
      returns (r: seq<string>)
    requires argv == Flatten(opts)
    ensures r == Flatten(opts + OptionOf(flag, value))
  {
    r := argv;
    if value.Some? {
      r := r + [flag.Text(), value.value];
    }
    OptionalTokens(flag, value);
    Extend(argv, opts, if value.None? then [] else [flag.Text(), value.value], OptionOf(flag, value));
  }

  /** Regrouping of the segments. */
  lemma Regroup(a: seq<Opt>, b: seq<Opt>, c: seq<Opt>, d: seq<Opt>, e: seq<Opt>)
    ensures a + b + c + d + e == a + (b + c + d + e)
  {
  }

  lemma RegroupThree(a: seq<Opt>, b: seq<Opt>, c: seq<Opt>, d: seq<Opt>)
    ensures a + b + c + d == a + (b + c + d)
  {
  }

  lemma RegroupTwo(a: seq<Opt>, b: seq<Opt>, c: seq<Opt>)
    ensures a + b + c == a + (b + c)
  {
  }

  lemma HeadRegroup(spec: HardwareSpec, options: ArgvOptions, paths: Paths, machine: seq<Opt>, vnc: Option<string>)
    requires machine == [PropsOpt(FMachine, [spec.machine, "accel=" + options.accel.Text()])]
    requires vnc == if spec.display == Vnc then Some("127.0.0.1:0,password=on") else None
    ensures HeadOpts(spec, options, paths) ==
      machine + SizingOpts(spec)
      + OptionOf(FKernel, paths.kernel) + OptionOf(FInitrd, paths.initrd) + OptionOf(FDtb, paths.dtb)
      + OptionOf(FAppend, spec.appendCmdline)
      + FixedOpts() + OptionOf(FVnc, vnc) + OptionOf(FDevice, spec.displayDevice.QemuDevice())
  {
    var start := machine + SizingOpts(spec);
    Regroup(start, OptionOf(FKernel, paths.kernel), OptionOf(FInitrd, paths.initrd), OptionOf(FDtb, paths.dtb),
            OptionOf(FAppend, spec.appendCmdline));
    RegroupTwo(start + BootOpts(spec, paths) + FixedOpts(), OptionOf(FVnc, vnc),
               OptionOf(FDevice, spec.displayDevice.QemuDevice()));
  }

  lemma OptsRegroup(spec: HardwareSpec, options: ArgvOptions, paths: Paths)
    requires |paths.disks| == |spec.disks|
    ensures Opts(spec, options, paths) ==
      HeadOpts(spec, options, paths)
      + DriveOpts(spec.disks, paths.disks) + CdromOpts(paths.cdrom)
      + ShareOpts(paths.share, ShareIsReadonly(options)) + SerialOpts(paths.serial)
      + TailOpts(spec, options)
  {
    var head := HeadOpts(spec, options, paths);
    Regroup(head, DriveOpts(spec.disks, paths.disks), CdromOpts(paths.cdrom),
            ShareOpts(paths.share, ShareIsReadonly(options)), SerialOpts(paths.serial));
  }

  /** One more drive. */
  lemma {:induction false} DriveOptsPush(disks: seq<Disk>, paths: seq<string>, disk: Disk, path: string)
    requires |disks| == |paths|
    ensures DriveOpts(disks + [disk], paths + [path])
      == DriveOpts(disks, paths) + [PropsOpt(FDrive, DriveProps(disk, path))]
  {
    if disks == [] {
      assert disks + [disk] == [disk] && paths + [path] == [path];
      assert DriveOpts([disk][1..], [path][1..]) == [];
    } else {
      assert (disks + [disk])[1..] == disks[1..] + [disk] && (paths + [path])[1..] == paths[1..] + [path];
      DriveOptsPush(disks[1..], paths[1..], disk, path);
    }
  }

  /** The first unusable image decides the refusal. */
  lemma {:induction false} DiskPathsAt(host: Host, disks: seq<Disk>, i: nat, dir: Option<string>)
    requires i < |disks| && DiskPaths(host, disks[..i], dir).Success?
    ensures var path := ResolveInStore(host, disks[i].image, dir);
      if path.Success?
      then DiskPaths(host, disks[..i + 1], dir) == Success(DiskPaths(host, disks[..i], dir).value + [path.value])
      else DiskPaths(host, disks, dir) == Failure(path.error)
    decreases i
  {
    var rest := disks[1..];
    if i > 0 {
      assert disks[..i][1..] == rest[..i - 1] && disks[..i + 1][1..] == rest[..i];
      DiskPathsAt(host, rest, i - 1, dir);
      var first := ResolveInStore(host, disks[0].image, dir).value;
      var done := DiskPaths(host, rest[..i - 1], dir).value;
      assert DiskPaths(host, disks[..i], dir) == Success([first] + done);
      assert forall p: string :: [first] + (done + [p]) == [first] + done + [p];
    } else {
      assert disks[..1][1..] == [];
      assert DiskPaths(host, disks[..1][1..], dir) == Success([]);
      assert forall p: string :: [p] + [] == [] + [p];
    }
  }

  method PushDrives(host: Host, spec: HardwareSpec, options: ArgvOptions, start: seq<string>, ghost opts: seq<Opt>)
    returns (r: Result<seq<string>, SpecError>)
    requires start == Flatten(opts)
    ensures r ==
      var paths := DiskPaths(host, spec.disks, options.imageDir);
      if paths.Failure? then Failure(paths.error) else Success(Flatten(opts + DriveOpts(spec.disks, paths.value)))
  {
    hide Render, Flatten, DiskPaths, ResolveInStore;
    var argv := start;
    ghost var paths: seq<string> := [];
    DiskPathsNone(host, options.imageDir);
    assert spec.disks[..0] == [] && opts + [] == opts;
    for i := 0 to |spec.disks|
      invariant |paths| == i
      invariant DiskPaths(host, spec.disks[..i], options.imageDir) == Success(paths)
      invariant argv == Flatten(opts + DriveOpts(spec.disks[..i], paths))
    {
      DiskPathsAt(host, spec.disks, i, options.imageDir);
      var tokens :- BuildDriveArgs(host, spec.disks[i], options.imageDir);
      ghost var path := ResolveInStore(host, spec.disks[i].image, options.imageDir).value;
      ghost var opt := PropsOpt(FDrive, DriveProps(spec.disks[i], path));
      DriveOptsPush(spec.disks[..i], paths, spec.disks[i], path);
      assert spec.disks[..i + 1] == spec.disks[..i] + [spec.disks[i]];
      FlattenOne(opt);
      Extend(argv, opts + DriveOpts(spec.disks[..i], paths), tokens, [opt]);
      RegroupTwo(opts, DriveOpts(spec.disks[..i], paths), [opt]);
      argv := argv + tokens;
      paths := paths + [path];
    }
    assert spec.disks[..|spec.disks|] == spec.disks;
    return Success(argv);
  }

  lemma DiskPathsNone(host: Host, dir: Option<string>)
    ensures DiskPaths(host, [], dir) == Success([])
  {
  }

  /** What remains of `Resolve` once every path is known: the raw arguments. */
  lemma Resolved(host: Host, spec: HardwareSpec, options: ArgvOptions, paths: Paths)
    requires CheckCaps(spec, options) == None
    requires ResolveOptional(host, spec.kernel, options.imageDir) == Success(paths.kernel)
    requires ResolveOptional(host, spec.initrd, options.imageDir) == Success(paths.initrd)
    requires ResolveOptional(host, spec.dtb, options.imageDir) == Success(paths.dtb)
    requires spec.displayDevice == NoAdapter || !IsRaspi(spec.machine)
    requires DiskPaths(host, spec.disks, options.imageDir) == Success(paths.disks)
    requires ResolveOptional(host, spec.cdrom, options.isoDir) == Success(paths.cdrom)
    requires SharePath(spec, options) == Success(paths.share)
    requires SerialPropsOf(spec, options) == Success(paths.serial)
    requires CheckNetwork(spec.network, spec.machine, options) == None
    ensures Resolve(host, spec, options) ==
      if HasExtra(spec) && !options.allowRawArgs then Failure(RawArgsRefused) else Success(paths)
  {
    hide IsRaspi, DiskPaths, ResolveOptional, CheckNetwork, CheckCaps, SharePath, SerialPropsOf;
  }

  /** Segments that a spec does without. */
  lemma NoSegment(opts: seq<Opt>, spec: HardwareSpec, options: ArgvOptions)
    ensures IsRaspi(spec.machine) ==> opts + SizingOpts(spec) == opts
    ensures opts + CdromOpts(None) == opts
    ensures opts + ShareOpts(None, ShareIsReadonly(options)) == opts
    ensures !spec.share ==> SharePath(spec, options) == Success(None)
    ensures opts + SerialOpts(None) == opts
    ensures !spec.serial ==> SerialPropsOf(spec, options) == Success(None)
    ensures spec.boot.None? ==> opts + OrderOpts(spec.boot) == opts
  {
  }

  lemma NoCdrom(host: Host, dir: Option<string>)
    ensures ResolveOptional(host, None, dir) == Success(None)
  {
  }

  lemma CdromTokens(host: Host, iso: string, dir: Option<string>)
    ensures var path := ResolveInStore(host, iso, dir);
      && ResolveOptional(host, Some(iso), dir)
         == (if path.Failure? then Failure(path.error) else Success(Some(path.value)))
      && (path.Success? ==> Flatten(CdromOpts(Some(path.value))) == ["-drive", Render(CdromProps(path.value))])
  {
    hide Render;
    var path := ResolveInStore(host, iso, dir);
    if path.Success? {
      FlattenOne(PropsOpt(FDrive, CdromProps(path.value)));
    }
  }

  lemma HeadNeedsNoDevices(spec: HardwareSpec, options: ArgvOptions, p: Paths, q: Paths)
    requires p.kernel == q.kernel && p.initrd == q.initrd && p.dtb == q.dtb
    ensures HeadOpts(spec, options, p) == HeadOpts(spec, options, q)
  {
  }

  /** The refusals and paths up to the display adapter. */
  ghost function HeadPaths(host: Host, spec: HardwareSpec, options: ArgvOptions): Result<Paths, SpecError> {
    var _ :- Guard(CheckCaps(spec, options));
    var kernel :- ResolveOptional(host, spec.kernel, options.imageDir);
    var initrd :- ResolveOptional(host, spec.initrd, options.imageDir);
    var dtb :- ResolveOptional(host, spec.dtb, options.imageDir);
    if spec.displayDevice != NoAdapter && IsRaspi(spec.machine) then Failure(AdapterOnRaspi)
    else Success(Paths(kernel, initrd, dtb, [], None, None, None))
  }

  /** The generator up to the display adapter. */
  method BuildHead(host: Host, spec: HardwareSpec, options: ArgvOptions) returns (r: Result<seq<string>, SpecError>)
    ensures r ==
      var paths := HeadPaths(host, spec, options);
      if paths.Failure? then Failure(paths.error) else Success(Flatten(HeadOpts(spec, options, paths.value)))
  {
    hide Escape, Render, Flatten, IsRaspi, Decimal, ResolveOptional, CheckCaps, HeadOpts, SizingOpts, OptionOf;
    if CheckCaps(spec, options).Some? {
      return Failure(CheckCaps(spec, options).value);
    }
    var raspi := IsRaspi(spec.machine);
    ghost var machine := [PropsOpt(FMachine, [spec.machine, "accel=" + options.accel.Text()])];
    ghost var opts := machine;
    var argv := ["-machine", Escape(spec.machine) + ",accel=" + options.accel.Text()];
    MachineText(spec, options.accel);
    if !raspi {
      SizingTokens(spec);
      Extend(argv, opts, ["-cpu", spec.cpu, "-smp", Decimal(spec.vcpus), "-m", Decimal(spec.memoryMb)],
        SizingOpts(spec));
      argv := argv + ["-cpu", spec.cpu, "-smp", Decimal(spec.vcpus), "-m", Decimal(spec.memoryMb)];
    } else {
      NoSegment(opts, spec, options);
    }
    opts := opts + SizingOpts(spec);
    var kernel :- ResolveOptional(host, spec.kernel, options.imageDir);
    argv := PushOptional(argv, opts, FKernel, kernel);
    opts := opts + OptionOf(FKernel, kernel);
    var initrd :- ResolveOptional(host, spec.initrd, options.imageDir);
    argv := PushOptional(argv, opts, FInitrd, initrd);
    opts := opts + OptionOf(FInitrd, initrd);
    var dtb :- ResolveOptional(host, spec.dtb, options.imageDir);
    argv := PushOptional(argv, opts, FDtb, dtb);
    opts := opts + OptionOf(FDtb, dtb);
    argv := PushOptional(argv, opts, FAppend, spec.appendCmdline);
    opts := opts + OptionOf(FAppend, spec.appendCmdline);
    FixedTokens();
    Extend(argv, opts, ["-nodefaults", "-nographic", "-S"], FixedOpts());
    argv := argv + ["-nodefaults", "-nographic", "-S"];
    opts := opts + FixedOpts();
    var vnc := if spec.display == Vnc then Some("127.0.0.1:0,password=on") else None;
    argv := PushOptional(argv, opts, FVnc, vnc);
    opts := opts + OptionOf(FVnc, vnc);
    if spec.displayDevice.QemuDevice().Some? && raspi {
      return Failure(AdapterOnRaspi);
    }
    argv := PushOptional(argv, opts, FDevice, spec.displayDevice.QemuDevice());
    opts := opts + OptionOf(FDevice, spec.displayDevice.QemuDevice());
    HeadRegroup(spec, options, Paths(kernel, initrd, dtb, [], None, None, None), machine, vnc);
    return Success(argv);
  }

  /** The generator from the boot order to the QMP socket. */
  method BuildTail(spec: HardwareSpec, options: ArgvOptions, start: seq<string>, ghost before: seq<Opt>)
    returns (r: Result<seq<string>, SpecError>)
    requires start == Flatten(before)
    ensures r ==
      var refusal := CheckNetwork(spec.network, spec.machine, options);
      if refusal.Some? then Failure(refusal.value) else Success(Flatten(before + TailOpts(spec, options)))
  {
    hide Escape, Render, Flatten, CheckNetwork, OrderOpts, NetworkOpts, IsRaspi;
    var argv := start;
    ghost var opts := before;
    if spec.boot.Some? {
      BootTokens(spec.boot.value);
      Extend(argv, opts, ["-boot", "order=" + Escape(spec.boot.value)], OrderOpts(spec.boot));
      argv := argv + ["-boot", "order=" + Escape(spec.boot.value)];
    } else {
      NoSegment(opts, spec, options);
    }
    opts := opts + OrderOpts(spec.boot);
    var nic :- BuildNetworkArgs(spec.network, spec.machine, options);
    Extend(argv, opts, nic, NetworkOpts(spec.network));
    argv := argv + nic;
    opts := opts + NetworkOpts(spec.network);
    FlattenOne(QmpOpts(options)[0]);
    Extend(argv, opts, ["-qmp", "unix:" + options.qmpSocketPath + ",server=on,wait=off"], QmpOpts(options));
    argv := argv + ["-qmp", "unix:" + options.qmpSocketPath + ",server=on,wait=off"];
    opts := opts + QmpOpts(options);
    RegroupThree(before, OrderOpts(spec.boot), NetworkOpts(spec.network), QmpOpts(options));
    return Success(argv);
  }

  /** The generator. */
  method BuildArgv(host: Host, spec: HardwareSpec, options: ArgvOptions) returns (r: Result<seq<string>, SpecError>)
    ensures r == Argv(host, spec, options)
  {
    hide Escape, Render, Flatten, IsRaspi, DiskPaths, ResolveInStore, ResolveOptional, CheckNetwork, CheckCaps,
      SharePath, SerialPropsOf, ShareOpts, SerialOpts, CdromOpts, DriveOpts, HeadOpts, TailOpts, Opts, ShareIsReadonly;
    NoCdrom(host, options.isoDir);
    var argv :- BuildHead(host, spec, options);
    ghost var start := HeadPaths(host, spec, options).value;
    ghost var opts := HeadOpts(spec, options, start);
    argv :- PushDrives(host, spec, options, argv, opts);
    ghost var disks := DiskPaths(host, spec.disks, options.imageDir).value;
    opts := opts + DriveOpts(spec.disks, disks);
    ghost var cdrom: Option<string> := None;
    if spec.cdrom.Some? {
      CdromTokens(host, spec.cdrom.value, options.isoDir);
      var tokens :- BuildCdromArgs(host, spec.cdrom.value, options.isoDir);
      cdrom := Some(ResolveInStore(host, spec.cdrom.value, options.isoDir).value);
      Extend(argv, opts, tokens, CdromOpts(cdrom));
      argv := argv + tokens;
    } else {
      NoSegment(opts, spec, options);
    }
    opts := opts + CdromOpts(cdrom);
    ghost var share: Option<string> := None;
    if spec.share {
      var tokens :- BuildShareArgs(spec, options);
      share := SharePath(spec, options).value;
      Extend(argv, opts, tokens, ShareOpts(share, ShareIsReadonly(options)));
      argv := argv + tokens;
    } else {
      NoSegment(opts, spec, options);
    }
    opts := opts + ShareOpts(share, ShareIsReadonly(options));
    ghost var serial: Option<seq<string>> := None;
    if spec.serial {
      var tokens :- BuildSerialArgs(spec, options);
      serial := SerialPropsOf(spec, options).value;
      Extend(argv, opts, tokens, SerialOpts(serial));
      argv := argv + tokens;
    } else {
      NoSegment(opts, spec, options);
    }
    opts := opts + SerialOpts(serial);
    argv :- BuildTail(spec, options, argv, opts);
    opts := opts + TailOpts(spec, options);
    ghost var paths := start.(disks := disks, cdrom := cdrom, share := share, serial := serial);
    HeadNeedsNoDevices(spec, options, start, paths);
    OptsRegroup(spec, options, paths);
    assert opts == Opts(spec, options, paths);
    Resolved(host, spec, options, paths);
    if HasExtra(spec) {
      if !options.allowRawArgs {
        return Failure(RawArgsRefused);
      }
      return Success(argv + spec.extraArgs.value);
    }
    assert argv + [] == argv;
    return Success(argv);
  }

}
