/** Specs that generate the same argv ask for the same hardware. */
module ArgvInjectives {
  import opened Wrappers
  import opened HardwareSpecs
  import opened ArgvReaders

  lemma PathJoinInjective(dir: string, x: string, y: string)
    ensures PathJoin(dir, x) == PathJoin(dir, y) <==> x == y
  {
    var prefix := if dir == "" || dir[|dir| - 1] == '/' then dir else dir + "/";
    assert PathJoin(dir, x) == prefix + x && PathJoin(dir, y) == prefix + y;
    assert (prefix + x)[|prefix|..] == x && (prefix + y)[|prefix|..] == y;
  }

  lemma ResolveInjective(host: Host, x: string, y: string, dir: Option<string>)
    requires ResolveInStore(host, x, dir).Success? && ResolveInStore(host, x, dir) == ResolveInStore(host, y, dir)
    ensures x == y
  {
    PathJoinInjective(host.canonical[dir.value], x, y);
  }

  lemma ResolveOptionalInjective(host: Host, x: Option<string>, y: Option<string>, dir: Option<string>)
    requires ResolveOptional(host, x, dir).Success? && ResolveOptional(host, x, dir) == ResolveOptional(host, y, dir)
    ensures x == y
  {
    if x.Some? && y.Some? {
      ResolveInjective(host, x.value, y.value, dir);
    }
  }

  lemma SpoolPathInjective(dir: Option<string>, x: Option<string>, y: Option<string>)
    requires SpoolPath(dir, x).Success? && SpoolPath(dir, x) == SpoolPath(dir, y)
    ensures x == y
  {
    if x.Some? && y.Some? {
      var u, v := PathJoin(dir.value, x.value), PathJoin(dir.value, y.value);
      NameEnd(dir.value, x.value);
      NameEnd(dir.value, y.value);
      var n := |u|;
      assert |v| == n;
      assert (u + "/" + "serial.log")[..n] == u && (v + "/" + "serial.log")[..n] == v;
      PathJoinInjective(dir.value, x.value, y.value);
    } else if x.Some? {
      NameEnd(dir.value, x.value);
    } else if y.Some? {
      NameEnd(dir.value, y.value);
    }
  }

  /** A path that ends in a store name does not end in a separator. */
  lemma NameEnd(dir: string, name: string)
    requires IsStoreName(name)
    ensures var path := PathJoin(dir, name);
      path != "" && PathJoin(path, "serial.log") == path + "/" + "serial.log" && |path| >= |dir| + 1
  {
    assert name[|name| - 1] in name;
    assert PathJoin(dir, name)[|PathJoin(dir, name)| - 1] == name[|name| - 1];
  }

  /** The text of a forward fixes its protocol and both ports. */
  lemma ForwardInjective(x: HostForward, y: HostForward)
    requires ForwardText(x) == ForwardText(y)
    ensures x == y
  {
    ForwardRead(x);
    ForwardRead(y);
  }

  lemma {:induction false} DrivesInjective(host: Host, x: seq<Disk>, y: seq<Disk>, dir: Option<string>)
    requires DiskPaths(host, x, dir).Success? && DiskPaths(host, y, dir).Success?
    requires DrivesOf(x, DiskPaths(host, x, dir).value) == DrivesOf(y, DiskPaths(host, y, dir).value)
    ensures x == y
  {
    var p, q := DiskPaths(host, x, dir).value, DiskPaths(host, y, dir).value;
    DrivesCount(x, p);
    DrivesCount(y, q);
    if x != [] {
      var dx, dy := DrivesOf(x, p), DrivesOf(y, q);
      assert dx[0] == dy[0] && dx[1..] == dy[1..];
      ResolveInjective(host, x[0].image, y[0].image, dir);
      assert p[1..] == DiskPaths(host, x[1..], dir).value && q[1..] == DiskPaths(host, y[1..], dir).value;
      DrivesInjective(host, x[1..], y[1..], dir);
      assert x == [x[0]] + x[1..] && y == [y[0]] + y[1..];
    }
  }

  /** Disks come first and the CD-ROM, the only drive without an interface, last. */
  lemma {:induction false} DrivesCount(disks: seq<Disk>, paths: seq<string>)
    requires |disks| == |paths|
    ensures |DrivesOf(disks, paths)| == |disks|
    ensures forall i :: 0 <= i < |disks| ==> DrivesOf(disks, paths)[i].interface.Some?
  {
    if disks != [] {
      DrivesCount(disks[1..], paths[1..]);
    }
  }

  lemma LeadingDisks(disks: seq<Drive>, c: Option<string>)
    requires forall i :: 0 <= i < |disks| ==> disks[i].interface.Some?
    ensures var all := disks + CdromOf(c);
      forall i :: 0 <= i < |all| ==> (all[i].interface.Some? <==> i < |disks|)
  {
    var all := disks + CdromOf(c);
    forall i | 0 <= i < |all|
      ensures all[i].interface.Some? <==> i < |disks|
    {
      if i < |disks| {
        assert all[i] == disks[i];
      } else {
        assert all[i] == CdromOf(c)[0];
      }
    }
  }

  lemma SameLength(a: seq<Drive>, b: seq<Drive>, all: seq<Drive>)
    requires |a| <= |all| && |b| <= |all|
    requires forall i :: 0 <= i < |all| ==> (all[i].interface.Some? <==> i < |a|)
    requires forall i :: 0 <= i < |all| ==> (all[i].interface.Some? <==> i < |b|)
    ensures |a| == |b|
  {
    var n := if |a| < |b| then |a| else |b|;
    assert n < |all| ==> (all[n].interface.Some? <==> n < |a|) && (all[n].interface.Some? <==> n < |b|);
  }

  lemma DrivesSplit(a: seq<Drive>, c: Option<string>, b: seq<Drive>, d: Option<string>)
    requires forall i :: 0 <= i < |a| ==> a[i].interface.Some?
    requires forall i :: 0 <= i < |b| ==> b[i].interface.Some?
    requires a + CdromOf(c) == b + CdromOf(d)
    ensures a == b && c == d
  {
    LeadingDisks(a, c);
    LeadingDisks(b, d);
    SameLength(a, b, a + CdromOf(c));
    assert a == (a + CdromOf(c))[..|a|] && b == (b + CdromOf(d))[..|b|];
    assert CdromOf(c) == (a + CdromOf(c))[|a|..] && CdromOf(d) == (b + CdromOf(d))[|b|..];
    CdromInjective(c, d);
  }

  lemma CdromInjective(c: Option<string>, d: Option<string>)
    ensures CdromOf(c) == CdromOf(d) <==> c == d
  {
    if c.Some? && d.Some? && CdromOf(c) == CdromOf(d) {
      assert CdromOf(c)[0].path == c.value && CdromOf(d)[0].path == d.value;
    }
  }

  /** Agreement on everything argv is generated from. */
  ghost predicate SameHardware(x: HardwareSpec, y: HardwareSpec, options: ArgvOptions) {
    && x.machine == y.machine
    && (!IsRaspi(x.machine) ==> x.cpu == y.cpu && x.vcpus == y.vcpus && x.memoryMb == y.memoryMb)
    && x.kernel == y.kernel && x.initrd == y.initrd && x.dtb == y.dtb && x.appendCmdline == y.appendCmdline
    && x.display == y.display && x.displayDevice == y.displayDevice
    && x.disks == y.disks && x.cdrom == y.cdrom
    && x.share == y.share
    && x.serial == y.serial && (x.serial && options.serialBackend == Spool ==> x.serialSpool == y.serialSpool)
    && x.boot == y.boot
    && SameNetwork(x.network, y.network)
  }

  ghost predicate SameNetwork(x: Network, y: Network) {
    x.mode == y.mode && (x.mode != NoNetwork ==> x.model == y.model && x.hostForwards == y.hostForwards)
  }

  lemma NicInjective(x: Network, y: Network)
    requires NicOf(x) == NicOf(y)
    ensures SameNetwork(x, y)
  {
    if x.mode != NoNetwork {
      var s, t := AllSome(x.hostForwards), AllSome(y.hostForwards);
      forall i | 0 <= i < |x.hostForwards|
        ensures x.hostForwards[i] == y.hostForwards[i]
      {
        assert s[i] == t[i];
      }
    }
  }

  lemma SerialInjective(x: HardwareSpec, y: HardwareSpec, options: ArgvOptions)
    requires SerialPropsOf(x, options).Success? && SerialPropsOf(x, options) == SerialPropsOf(y, options)
    ensures x.serial == y.serial && (x.serial && options.serialBackend == Spool ==> x.serialSpool == y.serialSpool)
  {
    if x.serial && y.serial && options.serialBackend == Spool {
      var p := SpoolPath(options.serialSpoolDir, x.serialSpool).value;
      var q := SpoolPath(options.serialSpoolDir, y.serialSpool).value;
      var a, b := SerialProps(Spool, p, 0), SerialProps(Spool, q, 0);
      assert a[2] == "path=" + p && b[2] == "path=" + q;
      assert a[2][5..] == p && b[2][5..] == q;
      SpoolPathInjective(options.serialSpoolDir, x.serialSpool, y.serialSpool);
    }
  }

  /** Argv printing loses nothing it prints: on one host and under one set of options, two specs
      with the same argv agree on every field that argv is generated from. */
  lemma ArgvDeterminesHardware(host: Host, options: ArgvOptions, x: HardwareSpec, y: HardwareSpec)
    requires Argv(host, x, options).Success? && !HasExtra(x) && !HasExtra(y)
    requires Argv(host, x, options) == Argv(host, y, options)
    ensures SameHardware(x, y, options)
  {
    hide PathsOf, HardwareOf;
    var p, q := Resolve(host, x, options).value, Resolve(host, y, options).value;
    ReadRecoversHardware(host, x, options);
    ReadRecoversHardware(host, y, options);
    ResolvedPaths(host, x, options);
    ResolvedPaths(host, y, options);
    HardwareDeterminesSpec(host, options, x, y, p, q);
  }

  lemma HardwareDeterminesSpec(host: Host, options: ArgvOptions, x: HardwareSpec, y: HardwareSpec, p: Paths, q: Paths)
    requires Resolve(host, x, options) == Success(p) && Resolve(host, y, options) == Success(q)
    requires HardwareOf(x, options, p) == HardwareOf(y, options, q)
    ensures SameHardware(x, y, options)
  {
    ResolveParts(host, x, options);
    ResolveParts(host, y, options);
    ResolveOptionalInjective(host, x.kernel, y.kernel, options.imageDir);
    ResolveOptionalInjective(host, x.initrd, y.initrd, options.imageDir);
    ResolveOptionalInjective(host, x.dtb, y.dtb, options.imageDir);
    DrivesCount(x.disks, p.disks);
    DrivesCount(y.disks, q.disks);
    DrivesSplit(DrivesOf(x.disks, p.disks), p.cdrom, DrivesOf(y.disks, q.disks), q.cdrom);
    DrivesInjective(host, x.disks, y.disks, options.imageDir);
    ResolveOptionalInjective(host, x.cdrom, y.cdrom, options.isoDir);
    SerialInjective(x, y, options);
    NicInjective(x.network, y.network);
  }
}
