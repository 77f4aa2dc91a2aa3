/**
 * What the monitoring loop promises, stated on the projections of the
 * trace: which adb commands it issues and in what order, what it decides
 * from their replies, what it shows in the window and how long it sleeps.
 */
module MonitorProofs {
  import opened Wrappers
  import opened Text
  import opened Config
  import opened Adb
  import opened Trace
  import opened Monitor

  /** `t` adds no sleep, no status, no verdict and no logcat dump to `h`. */
  predicate Quiet(h: seq<Event>, t: seq<Event>) {
    Sleeps(t) == Sleeps(h) && Publications(t) == Publications(h)
    && Verdicts(t) == Verdicts(h) && Dumps(t) == Dumps(h)
  }

  /** `adb connect` for every device of the registry, in order. */
  function Connects(ds: seq<Device>): (cs: seq<AdbCommand>)
    ensures |cs| == |ds| && forall j :: 0 <= j < |ds| ==> cs[j] == Connect(ds[j].address)
  {
    seq(|ds|, j requires 0 <= j < |ds| => Connect(ds[j].address))
  }

  function PublishedNames(ps: seq<Status>): (names: seq<string>)
    ensures |names| == |ps| && forall j :: 0 <= j < |ps| ==> names[j] == ps[j].name
  {
    seq(|ps|, j requires 0 <= j < |ps| => ps[j].name)
  }

  function Fives(k: nat): (s: seq<nat>)
    ensures |s| == k && forall j :: 0 <= j < k ==> s[j] == CHECK_INTERVAL
  {
    seq(k, _ => CHECK_INTERVAL)
  }

  /** The sleeps of one cycle over n devices: 5 after each device, 5 between two, then 30. */
  function CycleSleeps(n: nat): seq<nat> {
    Fives(if n == 0 then 0 else 2 * n - 1) + [CYCLE_DELAY]
  }

  // ---------------------------------------------------------------------------
  // The single operations

  /** run_adb_command makes exactly one attempt and records its reply; a failure is logged. */
  lemma RunSingleAttempt(sh: Shell, h: seq<Event>, c: AdbCommand)
    ensures var reply := sh.run(h, c); var o := Run(sh, h, c);
      h < o.trace && o.trace[|h|] == Ran(c, reply)
      && o.value == RunValue(reply)
      && Commands(o.trace) == Commands(h) + [c]
      && Runs(o.trace) == Runs(h) + [(c, reply)]
      && Logs(o.trace) == Logs(h) + (if reply.SubprocessError? then [CommandFailed(c, reply.reason)] else [])
      && Quiet(h, o.trace)
  {
    var reply := sh.run(h, c);
    var h1 := h + [Ran(c, reply)];
    ProjectEvent(h, Ran(c, reply));
    if reply.SubprocessError? {
      ProjectEvent(h1, Logged(CommandFailed(c, reply.reason)));
    }
  }

  /** What a single command adds, as later stages use it. */
  lemma RunShape(sh: Shell, h: seq<Event>, c: AdbCommand)
    ensures var t := Run(sh, h, c).trace;
      h < t && Commands(t) == Commands(h) + [c] && Quiet(h, t)
  {
    RunSingleAttempt(sh, h, c);
  }

  lemma QuietTrans(a: seq<Event>, b: seq<Event>, c: seq<Event>)
    requires Quiet(a, b) && Quiet(b, c)
    ensures Quiet(a, c)
  {
  }

  /** check_package_status: true exactly when the stripped output is `package:<name>`. */
  lemma CheckPackageShape(sh: Shell, h: seq<Event>, ip: string, package: string)
    ensures var reply := sh.run(h, ListPackages(ip, package));
      var o := CheckPackage(sh, h, ip, package);
      h < o.trace
      && (o.value <==> reply.Completed? && Strip(reply.stdout) == "package:" + package)
      && Commands(o.trace) == Commands(h) + [ListPackages(ip, package)]
      && Runs(o.trace) == Runs(h) + [(ListPackages(ip, package), reply)]
      && Quiet(h, o.trace)
  {
    RunSingleAttempt(sh, h, ListPackages(ip, package));
  }

  /** check_gc_service_status: true exactly when the dump finished with some non-blank output. */
  lemma CheckGcShape(sh: Shell, h: seq<Event>, ip: string, timeout: nat)
    ensures var reply := sh.dump(h, LogcatDump(ip, GC_LOG_TAG), timeout);
      var o := CheckGc(sh, h, ip, timeout);
      h < o.trace && o.trace[|h|] == RanTimed(LogcatDump(ip, GC_LOG_TAG), timeout, reply)
      && (o.value <==> reply.Dumped? && !AllSpace(reply.stdout))
      && (reply.TimeoutExpired? ==> !o.value)
      && Commands(o.trace) == Commands(h) + [LogcatDump(ip, GC_LOG_TAG)]
      && Dumps(o.trace) == Dumps(h) + [reply]
      && Runs(o.trace) == Runs(h)
      && Sleeps(o.trace) == Sleeps(h) && Publications(o.trace) == Publications(h)
      && Verdicts(o.trace) == Verdicts(h)
  {
    var reply := sh.dump(h, LogcatDump(ip, GC_LOG_TAG), timeout);
    ProjectEvent(h, RanTimed(LogcatDump(ip, GC_LOG_TAG), timeout, reply));
  }

  /** auto_restart_services logs the restart, then reboots the device and does nothing else. */
  lemma AutoRestartShape(sh: Shell, h: seq<Event>, ip: string)
    ensures var t := AutoRestart(sh, h, ip);
      |h| + 1 < |t| && t[|h|] == Logged(AutoRestarting(ip))
      && Commands(t) == Commands(h) + [Reboot(ip)]
      && Quiet(h, t)
  {
    var h0 := h + [Logged(AutoRestarting(ip))];
    ProjectEvent(h, Logged(AutoRestarting(ip)));
    RunShape(sh, h0, Reboot(ip));
    assert Run(sh, h0, Reboot(ip)).trace[|h|] == h0[|h|];
  }

  /**
   * restart_gc_services stops Pokemon Go, sleeps 5 seconds, then starts the
   * GC launcher: the sleep sits between the two commands.
   */
  lemma RestartGcShape(sh: Shell, h: seq<Event>, ip: string)
    ensures var t := RestartGc(sh, h, ip);
      Commands(t) == Commands(h) + [ForceStop(ip, POKEMON_GO), StartActivity(ip, GC_ACTIVITY)]
      && Sleeps(t) == Sleeps(h) + [SETTLE_DELAY]
      && Publications(t) == Publications(h) && Verdicts(t) == Verdicts(h) && Dumps(t) == Dumps(h)
    ensures var t := RestartGc(sh, h, ip);
      exists k :: |h| <= k < |t| && t[k] == Slept(SETTLE_DELAY)
        && Commands(t[..k]) == Commands(h) + [ForceStop(ip, POKEMON_GO)]
        && Commands(t[k + 1..]) == [StartActivity(ip, GC_ACTIVITY)]
  {
    var h0 := Run(sh, h, ForceStop(ip, POKEMON_GO)).trace;
    var h1 := h0 + [Slept(SETTLE_DELAY)];
    RunShape(sh, h, ForceStop(ip, POKEMON_GO));
    RunShape(sh, h1, StartActivity(ip, GC_ACTIVITY));
    RunSleepRun(h, h0, Run(sh, h1, StartActivity(ip, GC_ACTIVITY)).trace,
      ForceStop(ip, POKEMON_GO), StartActivity(ip, GC_ACTIVITY), SETTLE_DELAY);
  }

  /** One command, a sleep of s seconds, then one more command. */
  lemma RunSleepRun(h: seq<Event>, h0: seq<Event>, t: seq<Event>, c1: AdbCommand, c2: AdbCommand, s: nat)
    requires h < h0 && Commands(h0) == Commands(h) + [c1] && Quiet(h, h0)
    requires h0 + [Slept(s)] < t && Commands(t) == Commands(h0 + [Slept(s)]) + [c2] && Quiet(h0 + [Slept(s)], t)
    ensures Commands(t) == Commands(h) + [c1, c2] && Sleeps(t) == Sleeps(h) + [s]
      && Publications(t) == Publications(h) && Verdicts(t) == Verdicts(h) && Dumps(t) == Dumps(h)
    ensures exists k ::
      |h| <= k < |t| && t[k] == Slept(s)
      && Commands(t[..k]) == Commands(h) + [c1] && Commands(t[k + 1..]) == [c2]
  {
    var h1 := h0 + [Slept(s)];
    ProjectEvent(h0, Slept(s));
    assert Commands(h1) == Commands(h0) && Sleeps(h1) == Sleeps(h0) + [s];
    assert Commands(h) + [c1] + [c2] == Commands(h) + [c1, c2];
    var k := |h0|;
    assert t[k] == h1[k] == Slept(s);
    assert t[..k] == h0;
    var rest := t[k + 1..];
    assert t == h1 + rest;
    ProjectAppend(h1, rest);
    assert Commands(rest) == Commands(t)[|Commands(h1)|..] == [c2];
    assert |h| <= k < |t| && Commands(t[..k]) == Commands(h) + [c1];
  }

  /** One connect: the command, its reply and the log line of the result. */
  lemma ConnectOneShape(sh: Shell, ip: string, h: seq<Event>)
    ensures var t := ConnectOne(sh, ip, h);
      h <= t && Commands(t) == Commands(h) + [Connect(ip)] && Quiet(h, t)
  {
    var o := Run(sh, h, Connect(ip));
    RunShape(sh, h, Connect(ip));
    ProjectEvent(o.trace, Logged(Connected(ip, o.value)));
  }

  lemma {:induction false} IterateOneCommand(pass: (nat, seq<Event>) -> seq<Event>, i: nat, n: nat, h: seq<Event>, cs: seq<AdbCommand>)
    requires i <= n && |cs| == n
    requires forall j: nat, t: seq<Event> :: i <= j < n ==> Commands(pass(j, t)) == Commands(t) + [cs[j]]
    ensures Commands(Iterate(pass, i, n, h)) == Commands(h) + cs[i..]
    decreases n - i
  {
    if i < n {
      var t1 := pass(i, h);
      IterateOneCommand(pass, i + 1, n, t1, cs);
      assert cs[i..] == [cs[i]] + cs[i + 1..];
      assert (Commands(h) + [cs[i]]) + cs[i + 1..] == Commands(h) + ([cs[i]] + cs[i + 1..]);
    }
  }

  lemma {:induction false} IterateQuiet(pass: (nat, seq<Event>) -> seq<Event>, i: nat, n: nat, h: seq<Event>)
    requires i <= n
    requires forall j: nat, t: seq<Event> :: i <= j < n ==> t <= pass(j, t) && Quiet(t, pass(j, t))
    ensures h <= Iterate(pass, i, n, h) && Quiet(h, Iterate(pass, i, n, h))
    decreases n - i
  {
    if i < n {
      var t1 := pass(i, h);
      IterateQuiet(pass, i + 1, n, t1);
      PrefixTrans(h, t1, Iterate(pass, i, n, h));
    }
  }

  /** The connect loop connects to every device from the i-th on, in registry order. */
  lemma ConnectShape(sh: Shell, ds: seq<Device>, i: nat, h: seq<Event>)
    requires i <= |ds|
    ensures var t := ConnectFrom(sh, ds, i, h);
      h <= t && Commands(t) == Commands(h) + Connects(ds)[i..] && Quiet(h, t)
  {
    var pass := ConnectPass(sh, ds);
    forall j: nat, t: seq<Event> | i <= j < |ds|
      ensures Commands(pass(j, t)) == Commands(t) + [Connects(ds)[j]]
      ensures t <= pass(j, t) && Quiet(t, pass(j, t))
    {
      ConnectOneShape(sh, ds[j].address, t);
    }
    IterateOneCommand(pass, i, |ds|, h, Connects(ds));
    IterateQuiet(pass, i, |ds|, h);
  }

  /** The first half of reset_adb_server: after its log line, kill-server then start-server. */
  lemma RestartServerShape(sh: Shell, h: seq<Event>)
    ensures var t := RestartServer(sh, h);
      |h| < |t| && t[|h|] == Logged(ResettingServer)
      && Commands(t) == Commands(h) + [KillServer, StartServer]
      && Quiet(h, t)
  {
    var h0 := h + [Logged(ResettingServer)];
    var h1 := Run(sh, h0, KillServer).trace;
    var t := Run(sh, h1, StartServer).trace;
    LogIsQuiet(h, ResettingServer);
    RunShape(sh, h0, KillServer);
    RunShape(sh, h1, StartServer);
    TwoRuns(h, h0, h1, t, KillServer, StartServer);
  }

  /** A log line other than a verdict issues nothing and changes no other projection. */
  lemma LogIsQuiet(h: seq<Event>, entry: LogEntry)
    requires !entry.VerdictReported?
    ensures Commands(h + [Logged(entry)]) == Commands(h) && Quiet(h, h + [Logged(entry)])
  {
    ProjectEvent(h, Logged(entry));
  }

  /** One event that issues nothing, then two traces that each issue one command. */
  lemma TwoRuns(h: seq<Event>, h0: seq<Event>, h1: seq<Event>, t: seq<Event>, c1: AdbCommand, c2: AdbCommand)
    requires |h0| == |h| + 1 && h <= h0 && Commands(h0) == Commands(h) && Quiet(h, h0)
    requires h0 < h1 && Commands(h1) == Commands(h0) + [c1] && Quiet(h0, h1)
    requires h1 < t && Commands(t) == Commands(h1) + [c2] && Quiet(h1, t)
    ensures |h| < |t| && t[|h|] == h0[|h|]
    ensures Commands(t) == Commands(h) + [c1, c2] && Quiet(h, t)
  {
    QuietTrans(h, h0, h1);
    QuietTrans(h, h1, t);
    PrefixTrans(h0, h1, t);
  }

  /**
   * reset_adb_server: kill the server, start it, then connect to every
   * device in registry order; it neither sleeps nor reports anything.
   */
  lemma ResetShape(sh: Shell, ds: seq<Device>, h: seq<Event>)
    ensures var t := ResetServer(sh, ds, h);
      |h| < |t| && t[|h|] == Logged(ResettingServer)
      && Commands(t) == Commands(h) + [KillServer, StartServer] + Connects(ds)
      && Quiet(h, t)
  {
    var r := RestartServer(sh, h);
    var t := ResetServer(sh, ds, h);
    RestartServerShape(sh, h);
    ConnectShape(sh, ds, 0, r);
    QuietTrans(h, r, t);
    assert Connects(ds)[0..] == Connects(ds);
    assert t[|h|] == r[|h|];
  }

  // ---------------------------------------------------------------------------
  // One device

  /**
   * The probes of a device: the Pokemon Go query, the GC launcher query and
   * the logcat dump, in that order; they neither sleep nor report.
   */
  lemma ProbeCommands(sh: Shell, h: seq<Event>, ip: string)
    ensures var t := ProbeDevice(sh, h, ip).trace;
      h < t
      && Commands(t) == Commands(h) + [ListPackages(ip, POKEMON_GO), ListPackages(ip, GOCHEATS), LogcatDump(ip, GC_LOG_TAG)]
      && Sleeps(t) == Sleeps(h) && Publications(t) == Publications(h) && Verdicts(t) == Verdicts(h)
  {
    var p := CheckPackage(sh, h, ip, POKEMON_GO);
    var g := CheckPackage(sh, p.trace, ip, GOCHEATS);
    CheckPackageShape(sh, h, ip, POKEMON_GO);
    CheckPackageShape(sh, p.trace, ip, GOCHEATS);
    CheckGcShape(sh, g.trace, ip, LOGCAT_TIMEOUT);
  }

  /** Each probe result is taken from its own recorded reply. */
  lemma ProbeShape(sh: Shell, h: seq<Event>, ip: string)
    ensures var o := ProbeDevice(sh, h, ip); var r := Runs(o.trace); var k := |Runs(h)|;
      |r| == k + 2 && Runs(h) <= r
      && r[k].0 == ListPackages(ip, POKEMON_GO) && r[k + 1].0 == ListPackages(ip, GOCHEATS)
      && o.value.pokemonGo == PackageListed(RunValue(r[k].1), POKEMON_GO)
      && o.value.gocheats == PackageListed(RunValue(r[k + 1].1), GOCHEATS)
      && |Dumps(o.trace)| == |Dumps(h)| + 1 && Dumps(h) <= Dumps(o.trace)
      && o.value.gc == GcActive(Dumps(o.trace)[|Dumps(h)|])
  {
    var p := CheckPackage(sh, h, ip, POKEMON_GO);
    var g := CheckPackage(sh, p.trace, ip, GOCHEATS);
    CheckPackageShape(sh, h, ip, POKEMON_GO);
    CheckPackageShape(sh, p.trace, ip, GOCHEATS);
    CheckGcShape(sh, g.trace, ip, LOGCAT_TIMEOUT);
  }

  /** After the probes: the verdict is logged, and the device rebooted exactly when it is not running. */
  lemma ReactShape(sh: Shell, h: seq<Event>, d: Device, pr: Probe)
    ensures var t := React(sh, h, d, pr); var v := Decide(pr.pokemonGo, pr.gocheats, pr.gc);
      h < t
      && Commands(t) == Commands(h) + (if v == ServicesRunning then [] else [Reboot(d.address)])
      && Verdicts(t) == Verdicts(h) + [(d.name, v)]
      && Dumps(t) == Dumps(h) && Sleeps(t) == Sleeps(h) && Publications(t) == Publications(h)
  {
    var v := Decide(pr.pokemonGo, pr.gocheats, pr.gc);
    var h1 := h + [Logged(VerdictReported(d.name, v))];
    ProjectEvent(h, Logged(VerdictReported(d.name, v)));
    if v != ServicesRunning {
      AutoRestartShape(sh, h1, d.address);
    }
  }

  lemma ClosingProjections(ds: seq<Device>, i: nat, pr: Probe)
    requires i < |ds|
    ensures var c := Closing(ds, i, pr);
      Commands(c) == [] && Verdicts(c) == [] && Dumps(c) == []
      && Publications(c) == [Status(ds[i].name, pr.pokemonGo, pr.gc)]
      && Sleeps(c) == if i + 1 < |ds| then [CHECK_INTERVAL, CHECK_INTERVAL] else [CHECK_INTERVAL]
  {
    var c := Closing(ds, i, pr);
    ProjectEvent([], c[0]);
    ProjectEvent([c[0]], c[1]);
    assert [c[0]] == [] + [c[0]];
    if |c| == 3 {
      ProjectEvent([c[0], c[1]], c[2]);
      assert c == [c[0], c[1]] + [c[2]];
    } else {
      assert c == [c[0]] + [c[1]];
    }
  }

  /** The first part of a device check, up to the verdict and the possible reboot: its commands. */
  lemma DecidedCommands(sh: Shell, ds: seq<Device>, i: nat, h: seq<Event>)
    requires i < |ds|
    ensures var pr := DeviceProbe(sh, ds, i, h); var t := React(sh, pr.trace, ds[i], pr.value);
      var ip := ds[i].address; var p := pr.value;
      h < t
      && Commands(t) == Commands(h) + [ListPackages(ip, POKEMON_GO), ListPackages(ip, GOCHEATS), LogcatDump(ip, GC_LOG_TAG)]
        + (if p.pokemonGo || p.gocheats then [] else [Reboot(ip)])
  {
    var d := ds[i];
    var e := Logged(Checking(i + 1, |ds|, d.name, d.address));
    var pr := DeviceProbe(sh, ds, i, h);
    var p := pr.value;
    var rs := if p.pokemonGo || p.gocheats then [] else [Reboot(d.address)];
    assert pr == ProbeDevice(sh, h + [e], d.address);
    ProjectEvent(h, e);
    ProbeCommands(sh, h + [e], d.address);
    ReactShape(sh, pr.trace, d, p);
    assert Commands(React(sh, pr.trace, d, p)) == Commands(pr.trace) + rs;
    ChainCommands(h, h + [e], pr.trace, React(sh, pr.trace, d, p),
      [ListPackages(d.address, POKEMON_GO), ListPackages(d.address, GOCHEATS), LogcatDump(d.address, GC_LOG_TAG)], rs);
  }

  lemma ChainCommands(h: seq<Event>, h0: seq<Event>, t1: seq<Event>, t2: seq<Event>, ps: seq<AdbCommand>, rs: seq<AdbCommand>)
    requires h < h0 && h0 < t1 && t1 <= t2 && Commands(h0) == Commands(h)
    requires Commands(t1) == Commands(h0) + ps && Commands(t2) == Commands(t1) + rs
    ensures h < t2 && Commands(t2) == Commands(h) + ps + rs
  {
    PrefixTrans(h, h0, t1);
    PrefixTrans(h, t1, t2);
  }

  /** The first part of a device check logs one verdict and neither sleeps nor pushes a status. */
  lemma DecidedReports(sh: Shell, ds: seq<Device>, i: nat, h: seq<Event>)
    requires i < |ds|
    ensures var pr := DeviceProbe(sh, ds, i, h); var t := React(sh, pr.trace, ds[i], pr.value);
      var p := pr.value;
      h < t && Verdicts(t) == Verdicts(h) + [(ds[i].name, Decide(p.pokemonGo, p.gocheats, p.gc))]
      && Publications(t) == Publications(h) && Sleeps(t) == Sleeps(h)
  {
    var d := ds[i];
    var h0 := h + [Logged(Checking(i + 1, |ds|, d.name, d.address))];
    var pr := DeviceProbe(sh, ds, i, h);
    ProjectEvent(h, Logged(Checking(i + 1, |ds|, d.name, d.address)));
    ProbeCommands(sh, h0, d.address);
    ReactShape(sh, pr.trace, d, pr.value);
  }

  /**
   * One pass of the device loop issues both package queries and then the
   * dump, and reboots the device exactly when neither package check passed.
   */
  lemma CheckDeviceCommands(sh: Shell, ds: seq<Device>, i: nat, h: seq<Event>)
    requires i < |ds|
    ensures var p := DeviceProbe(sh, ds, i, h).value; var ip := ds[i].address;
      Commands(CheckDevice(sh, ds, i, h)) == Commands(h)
        + [ListPackages(ip, POKEMON_GO), ListPackages(ip, GOCHEATS), LogcatDump(ip, GC_LOG_TAG)]
        + (if p.pokemonGo || p.gocheats then [] else [Reboot(ip)])
  {
    var pr := DeviceProbe(sh, ds, i, h);
    DecidedCommands(sh, ds, i, h);
    ClosingProjections(ds, i, pr.value);
    ProjectAppend(React(sh, pr.trace, ds[i], pr.value), Closing(ds, i, pr.value));
  }

  /**
   * One pass of the device loop logs one verdict and pushes exactly one
   * status, holding the Pokemon Go package check and the GC log check.
   */
  lemma CheckDeviceReports(sh: Shell, ds: seq<Device>, i: nat, h: seq<Event>)
    requires i < |ds|
    ensures var p := DeviceProbe(sh, ds, i, h).value; var t := CheckDevice(sh, ds, i, h);
      Verdicts(t) == Verdicts(h) + [(ds[i].name, Decide(p.pokemonGo, p.gocheats, p.gc))]
      && Publications(t) == Publications(h) + [Status(ds[i].name, p.pokemonGo, p.gc)]
  {
    var pr := DeviceProbe(sh, ds, i, h);
    DecidedReports(sh, ds, i, h);
    ClosingProjections(ds, i, pr.value);
    ProjectAppend(React(sh, pr.trace, ds[i], pr.value), Closing(ds, i, pr.value));
  }

  /** One pass sleeps 5 seconds, and 5 more unless it is the last device. */
  lemma CheckDeviceSleeps(sh: Shell, ds: seq<Device>, i: nat, h: seq<Event>)
    requires i < |ds|
    ensures Sleeps(CheckDevice(sh, ds, i, h)) == Sleeps(h) + if i + 1 < |ds| then [CHECK_INTERVAL, CHECK_INTERVAL] else [CHECK_INTERVAL]
  {
    var pr := DeviceProbe(sh, ds, i, h);
    DecidedReports(sh, ds, i, h);
    ClosingProjections(ds, i, pr.value);
    ProjectAppend(React(sh, pr.trace, ds[i], pr.value), Closing(ds, i, pr.value));
  }

  /**
   * Trace t extends h; its last n events are the status pushed to the window
   * and then sleeps only, and everything before the status leaves commands
   * and verdicts as they end up and publications as they were in h.
   */
  predicate StatusThenSleeps(h: seq<Event>, t: seq<Event>, n: nat) {
    0 < n && |h| < |t| - n && t[|t| - n].Published?
    && Commands(t[..|t| - n]) == Commands(t) && Verdicts(t[..|t| - n]) == Verdicts(t)
    && Publications(t[..|t| - n]) == Publications(h)
    && forall j :: |t| - n < j < |t| ==> t[j] == Slept(CHECK_INTERVAL)
  }

  /** The status is pushed only after the verdict and any reboot: only sleeps follow it. */
  lemma CheckDevicePublishesAfterDeciding(sh: Shell, ds: seq<Device>, i: nat, h: seq<Event>)
    requires i < |ds|
    ensures StatusThenSleeps(h, CheckDevice(sh, ds, i, h), if i + 1 < |ds| then 3 else 2)
  {
    var pr := DeviceProbe(sh, ds, i, h);
    var r := React(sh, pr.trace, ds[i], pr.value);
    var c := Closing(ds, i, pr.value);
    DecidedReports(sh, ds, i, h);
    ClosingProjections(ds, i, pr.value);
    ClosingShape(ds, i, pr.value);
    PublishedThenSleeps(h, r, c);
    assert CheckDevice(sh, ds, i, h) == r + c;
  }

  lemma ClosingShape(ds: seq<Device>, i: nat, pr: Probe)
    requires i < |ds|
    ensures var c := Closing(ds, i, pr);
      |c| == (if i + 1 < |ds| then 3 else 2) && c[0].Published?
      && forall j :: 0 < j < |c| ==> c[j] == Slept(CHECK_INTERVAL)
  {
  }

  /** A decided trace r followed by a status and sleeps only. */
  lemma PublishedThenSleeps(h: seq<Event>, r: seq<Event>, c: seq<Event>)
    requires h < r && Publications(r) == Publications(h)
    requires |c| > 0 && c[0].Published? && Commands(c) == [] && Verdicts(c) == []
    requires forall j :: 0 < j < |c| ==> c[j] == Slept(CHECK_INTERVAL)
    ensures StatusThenSleeps(h, r + c, |c|)
  {
    ProjectAppend(r, c);
    var t := r + c;
    assert t[..|t| - |c|] == r;
  }

  // ---------------------------------------------------------------------------
  // One cycle

  lemma PrefixTrans<T>(a: seq<T>, b: seq<T>, c: seq<T>)
    requires a <= b && b <= c
    ensures a <= c && c[..|a|] == a
  {
    assert c[..|a|] == c[..|b|][..|a|];
  }

  /** The sleeps of pass j of n: 5 seconds, and 5 more unless it is the last. */
  function PassSleeps(j: nat, n: nat): seq<nat> {
    if j + 1 < n then [CHECK_INTERVAL, CHECK_INTERVAL] else [CHECK_INTERVAL]
  }

  lemma {:induction false} IterateNames(pass: (nat, seq<Event>) -> seq<Event>, i: nat, n: nat, h: seq<Event>, names: seq<string>)
    requires i <= n && |names| == n
    requires forall j: nat, t: seq<Event> :: i <= j < n ==>
      PublishedNames(Publications(pass(j, t))) == PublishedNames(Publications(t)) + [names[j]]
    ensures PublishedNames(Publications(Iterate(pass, i, n, h))) == PublishedNames(Publications(h)) + names[i..]
    decreases n - i
  {
    if i < n {
      IterateNames(pass, i + 1, n, pass(i, h), names);
      assert names[i..] == [names[i]] + names[i + 1..];
    }
  }

  /** The sleeps of passes i, i + 1, ..., n - 1. */
  function LoopSleeps(i: nat, n: nat): seq<nat>
    decreases n - i
  {
    if i >= n then [] else PassSleeps(i, n) + LoopSleeps(i + 1, n)
  }

  lemma {:induction false} IterateSleeps(pass: (nat, seq<Event>) -> seq<Event>, i: nat, n: nat, h: seq<Event>)
    requires forall j: nat, t: seq<Event> :: i <= j < n ==> Sleeps(pass(j, t)) == Sleeps(t) + PassSleeps(j, n)
    ensures Sleeps(Iterate(pass, i, n, h)) == Sleeps(h) + LoopSleeps(i, n)
    decreases n - i
  {
    if i < n {
      var t1 := pass(i, h);
      IterateSleeps(pass, i + 1, n, t1);
      SeqAssoc(Sleeps(h), PassSleeps(i, n), LoopSleeps(i + 1, n));
    }
  }

  lemma SeqAssoc<T>(a: seq<T>, b: seq<T>, c: seq<T>)
    ensures (a + b) + c == a + (b + c)
  {
  }

  /** From the i-th of n devices on, the loop sleeps 5 seconds 2(n - i) - 1 times. */
  lemma {:induction false} LoopSleepsAreFives(i: nat, n: nat)
    ensures LoopSleeps(i, n) == Fives(if i < n then 2 * (n - i) - 1 else 0)
    decreases n - i
  {
    if i < n {
      LoopSleepsAreFives(i + 1, n);
      var m := if i + 1 < n then 2 * (n - i - 1) - 1 else 0;
      assert |PassSleeps(i, n)| + m == 2 * (n - i) - 1;
      assert PassSleeps(i, n) + Fives(m) == Fives(2 * (n - i) - 1);
    }
  }

  /** The device loop pushes one status per device, in the order of the device list. */
  lemma CheckFromNames(sh: Shell, ds: seq<Device>, i: nat, h: seq<Event>)
    requires i <= |ds|
    ensures PublishedNames(Publications(CheckFrom(sh, ds, i, h))) == PublishedNames(Publications(h)) + Names(ds)[i..]
  {
    var pass := Pass(sh, ds);
    forall j: nat, t: seq<Event> | i <= j < |ds|
      ensures PublishedNames(Publications(pass(j, t))) == PublishedNames(Publications(t)) + [Names(ds)[j]]
    {
      CheckDeviceReports(sh, ds, j, t);
    }
    IterateNames(pass, i, |ds|, h, Names(ds));
  }

  /** The device loop sleeps 5 seconds after each device and 5 more between two devices. */
  lemma CheckFromSleeps(sh: Shell, ds: seq<Device>, i: nat, h: seq<Event>)
    requires i <= |ds|
    ensures Sleeps(CheckFrom(sh, ds, i, h)) == Sleeps(h) + Fives(if i < |ds| then 2 * (|ds| - i) - 1 else 0)
  {
    var pass := Pass(sh, ds);
    forall j: nat, t: seq<Event> | i <= j < |ds|
      ensures Sleeps(pass(j, t)) == Sleeps(t) + PassSleeps(j, |ds|)
    {
      CheckDeviceSleeps(sh, ds, j, t);
    }
    IterateSleeps(pass, i, |ds|, h);
    LoopSleepsAreFives(i, |ds|);
  }

  /** The commands of one device pass whose verdict is `v`. */
  function DeviceCommands(ip: string, v: Verdict): seq<AdbCommand> {
    [ListPackages(ip, POKEMON_GO), ListPackages(ip, GOCHEATS), LogcatDump(ip, GC_LOG_TAG)]
      + (if v == ServicesRunning then [] else [Reboot(ip)])
  }

  /** The commands of the device loop over `ds`, whose verdicts were `vs`, device by device. */
  function LoopCommands(ds: seq<Device>, vs: seq<(string, Verdict)>): seq<AdbCommand> {
    if ds == [] || vs == [] then []
    else DeviceCommands(ds[0].address, vs[0].1) + LoopCommands(ds[1..], vs[1..])
  }

  /** The verdicts logged on the way from `h` to `u`. */
  function VerdictsSince(h: seq<Event>, u: seq<Event>): seq<(string, Verdict)> {
    if |Verdicts(h)| <= |Verdicts(u)| then Verdicts(u)[|Verdicts(h)|..] else []
  }

  /** The verdicts `vs` are one per device of `ds`, in the same order. */
  predicate VerdictsFor(vs: seq<(string, Verdict)>, ds: seq<Device>) {
    |vs| == |ds| && forall k :: 0 <= k < |ds| ==> vs[k].0 == ds[k].name
  }

  /** From `t` to `u` one verdict on `d` is logged, and the commands are those of its pass. */
  predicate OnePass(t: seq<Event>, u: seq<Event>, d: Device) {
    Verdicts(t) <= Verdicts(u) && |Verdicts(u)| == |Verdicts(t)| + 1
    && Verdicts(u)[|Verdicts(t)|].0 == d.name
    && Commands(u) == Commands(t) + DeviceCommands(d.address, Verdicts(u)[|Verdicts(t)|].1)
  }

  /** Verdict lists: one verdict for d followed by one per device of rest. */
  lemma ConsVerdicts(vh: seq<(string, Verdict)>, vt: seq<(string, Verdict)>, vu: seq<(string, Verdict)>, d: Device, rest: seq<Device>)
    requires vh <= vt && |vt| == |vh| + 1 && vt[|vh|].0 == d.name
    requires vt <= vu && VerdictsFor(vu[|vt|..], rest)
    ensures vh <= vu && vu[|vh|..] == [vt[|vh|]] + vu[|vt|..]
    ensures VerdictsFor(vu[|vh|..], [d] + rest)
  {
    PrefixTrans(vh, vt, vu);
    var vs, vs1 := vu[|vh|..], vu[|vt|..];
    assert vs == [vt[|vh|]] + vs1;
    forall k | 0 <= k < |[d] + rest| ensures vs[k].0 == ([d] + rest)[k].name {
      if k > 0 { assert vs[k] == vs1[k - 1] && ([d] + rest)[k] == rest[k - 1]; }
    }
  }

  lemma {:induction false} IterateCommands(pass: (nat, seq<Event>) -> seq<Event>, ds: seq<Device>, i: nat, h: seq<Event>)
    requires i <= |ds|
    requires forall j: nat, t: seq<Event> :: i <= j < |ds| ==> OnePass(t, pass(j, t), ds[j])
    ensures var u := Iterate(pass, i, |ds|, h); var vs := VerdictsSince(h, u);
      Verdicts(h) <= Verdicts(u) && VerdictsFor(vs, ds[i..])
      && Commands(u) == Commands(h) + LoopCommands(ds[i..], vs)
    decreases |ds| - i
  {
    var u := Iterate(pass, i, |ds|, h);
    if i == |ds| {
      assert ds[i..] == [];
    } else {
      var t1 := pass(i, h);
      assert OnePass(h, t1, ds[i]);
      IterateCommands(pass, ds, i + 1, t1);
      assert u == Iterate(pass, i + 1, |ds|, t1);
      var w := Verdicts(t1)[|Verdicts(h)|];
      var vs1 := VerdictsSince(t1, u);
      var rest := ds[i + 1..];
      ConsVerdicts(Verdicts(h), Verdicts(t1), Verdicts(u), ds[i], rest);
      assert ds[i..] == [ds[i]] + rest;
      assert LoopCommands(ds[i..], VerdictsSince(h, u)) == DeviceCommands(ds[i].address, w.1) + LoopCommands(rest, vs1);
      SeqAssoc(Commands(h), DeviceCommands(ds[i].address, w.1), LoopCommands(rest, vs1));
    }
  }

  /** A device pass logs one verdict, for that device, and issues exactly that device's block of commands. */
  lemma CheckDeviceOnePass(sh: Shell, ds: seq<Device>, i: nat, h: seq<Event>)
    requires i < |ds|
    ensures OnePass(h, CheckDevice(sh, ds, i, h), ds[i])
  {
    CheckDeviceCommands(sh, ds, i, h);
    CheckDeviceReports(sh, ds, i, h);
  }

  /**
   * The device loop visits every device in order: two package queries and
   * the GC dump at its address, then a reboot exactly when the verdict
   * logged for it is not "running".
   */
  lemma CheckFromCommands(sh: Shell, ds: seq<Device>, i: nat, h: seq<Event>)
    requires i <= |ds|
    ensures var u := CheckFrom(sh, ds, i, h); var vs := VerdictsSince(h, u);
      Verdicts(h) <= Verdicts(u) && VerdictsFor(vs, ds[i..])
      && Commands(u) == Commands(h) + LoopCommands(ds[i..], vs)
  {
    var pass := Pass(sh, ds);
    forall j: nat, t: seq<Event> | i <= j < |ds|
      ensures OnePass(t, pass(j, t), ds[j])
    {
      CheckDeviceOnePass(sh, ds, j, t);
    }
    IterateCommands(pass, ds, i, h);
  }

  // ---------------------------------------------------------------------------
  // One cycle and many

  /** A cycle ends by logging the wait and sleeping 30 seconds. */
  lemma CycleEnds(sh: Shell, ds: seq<Device>, h: seq<Event>)
    ensures var t := Cycle(sh, ds, h);
      |t| >= 2 && t[|t| - 2] == Logged(Waiting(CYCLE_DELAY)) && t[|t| - 1] == Slept(CYCLE_DELAY)
  {
    var l := CheckFrom(sh, ds, 0, ResetServer(sh, ds, h));
    assert Cycle(sh, ds, h) == l + WAIT;
  }

  lemma WaitProjections()
    ensures Commands(WAIT) == [] && Verdicts(WAIT) == [] && Publications(WAIT) == [] && Sleeps(WAIT) == [CYCLE_DELAY]
  {
    ProjectEvent([], WAIT[0]);
    ProjectEvent([WAIT[0]], WAIT[1]);
    assert [WAIT[0]] == [] + [WAIT[0]];
    assert WAIT == [WAIT[0]] + [WAIT[1]];
  }

  /** After the reset, a cycle runs the device loop's commands and logs its verdicts. */
  lemma TailCommands(sh: Shell, ds: seq<Device>, r: seq<Event>)
    ensures var u := CheckFrom(sh, ds, 0, r) + WAIT; var vs := VerdictsSince(r, u);
      Verdicts(r) <= Verdicts(u) && VerdictsFor(vs, ds)
      && Commands(u) == Commands(r) + LoopCommands(ds, vs)
  {
    var l := CheckFrom(sh, ds, 0, r);
    CheckFromCommands(sh, ds, 0, r);
    assert ds[0..] == ds;
    WaitProjections();
    ProjectAppend(l, WAIT);
    assert Commands(l + WAIT) == Commands(l) && Verdicts(l + WAIT) == Verdicts(l);
  }

  lemma TailNames(sh: Shell, ds: seq<Device>, r: seq<Event>)
    ensures PublishedNames(Publications(CheckFrom(sh, ds, 0, r) + WAIT)) == PublishedNames(Publications(r)) + Names(ds)
  {
    var l := CheckFrom(sh, ds, 0, r);
    CheckFromNames(sh, ds, 0, r);
    WaitProjections();
    ProjectAppend(l, WAIT);
    assert Names(ds)[0..] == Names(ds);
    assert Publications(l + WAIT) == Publications(l);
  }

  lemma TailSleeps(sh: Shell, ds: seq<Device>, r: seq<Event>)
    ensures Sleeps(CheckFrom(sh, ds, 0, r) + WAIT) == Sleeps(r) + CycleSleeps(|ds|)
  {
    var l := CheckFrom(sh, ds, 0, r);
    var m := if |ds| == 0 then 0 else 2 * |ds| - 1;
    CheckFromSleeps(sh, ds, 0, r);
    WaitProjections();
    ProjectAppend(l, WAIT);
    SeqAssoc(Sleeps(r), Fives(m), [CYCLE_DELAY]);
  }

  /**
   * A cycle kills the adb server, starts it, connects to every device in
   * registry order, and then, device by device in the same order, queries
   * both packages, dumps the GC log and reboots exactly when the verdict
   * logged for that device is not "running".
   */
  lemma CycleCommands(sh: Shell, ds: seq<Device>, h: seq<Event>)
    ensures var t := Cycle(sh, ds, h); var vs := VerdictsSince(h, t);
      Verdicts(h) <= Verdicts(t) && VerdictsFor(vs, ds)
      && Commands(t) == Commands(h) + [KillServer, StartServer] + Connects(ds) + LoopCommands(ds, vs)
  {
    var r := ResetServer(sh, ds, h);
    ResetShape(sh, ds, h);
    TailCommands(sh, ds, r);
  }

  /** A cycle pushes exactly one status per device, in registry order. */
  lemma CycleNames(sh: Shell, ds: seq<Device>, h: seq<Event>)
    ensures PublishedNames(Publications(Cycle(sh, ds, h))) == PublishedNames(Publications(h)) + Names(ds)
  {
    var r := ResetServer(sh, ds, h);
    ResetShape(sh, ds, h);
    TailNames(sh, ds, r);
  }

  /** The sleeps of a cycle over n devices. */
  lemma CycleSleepsShape(sh: Shell, ds: seq<Device>, h: seq<Event>)
    ensures Sleeps(Cycle(sh, ds, h)) == Sleeps(h) + CycleSleeps(|ds|)
  {
    var r := ResetServer(sh, ds, h);
    ResetShape(sh, ds, h);
    TailSleeps(sh, ds, r);
  }

  lemma {:induction false} SumFives(k: nat)
    ensures Sum(Fives(k)) == CHECK_INTERVAL * k
  {
    if k > 0 {
      assert Fives(k)[1..] == Fives(k - 1);
      SumFives(k - 1);
    }
  }

  /** One cycle over n devices sleeps 5n + 5(n - 1) + 30 seconds (30 when there is no device). */
  lemma CycleSleepTotal(n: nat)
    ensures Sum(CycleSleeps(n)) == CHECK_INTERVAL * n + CHECK_INTERVAL * (if n == 0 then 0 else n - 1) + CYCLE_DELAY
  {
    var m := if n == 0 then 0 else 2 * n - 1;
    SumAppend(Fives(m), [CYCLE_DELAY]);
    SumFives(m);
  }

  lemma {:induction false} RepeatSleepTotal(step: seq<Event> -> seq<Event>, k: nat, h: seq<Event>, per: nat)
    requires forall t :: Sum(Sleeps(step(t))) == Sum(Sleeps(t)) + per
    ensures Sum(Sleeps(Repeat(step, k, h))) == Sum(Sleeps(h)) + k * per
  {
    if k > 0 {
      RepeatSleepTotal(step, k - 1, h, per);
      assert (k - 1) * per + per == k * per;
    }
  }

  /** k cycles of monitor_devices sleep k times the time of one cycle. */
  lemma CyclesSleepTotal(sh: Shell, ds: seq<Device>, k: nat, h: seq<Event>)
    ensures Sum(Sleeps(Cycles(sh, ds, k, h))) == Sum(Sleeps(h)) + k * Sum(CycleSleeps(|ds|))
  {
    var step := (t: seq<Event>) => Cycle(sh, ds, t);
    forall t ensures Sum(Sleeps(step(t))) == Sum(Sleeps(t)) + Sum(CycleSleeps(|ds|)) {
      CycleSleepsShape(sh, ds, t);
      SumAppend(Sleeps(t), CycleSleeps(|ds|));
    }
    RepeatSleepTotal(step, k, h, Sum(CycleSleeps(|ds|)));
    assert Cycles(sh, ds, k, h) == Repeat(step, k, h);
  }

  /** The c-th block of n names after the first `start`. */
  function Block(s: seq<string>, start: nat, n: nat, c: nat): seq<string> {
    if start + c * n + n <= |s| then s[start + c * n .. start + c * n + n] else []
  }

  /** The names in the c-th block of n statuses pushed after the first `start`. */
  function RoundNames(ps: seq<Status>, start: nat, n: nat, c: nat): seq<string> {
    Block(PublishedNames(ps), start, n, c)
  }

  lemma BlockOfPrefix(s: seq<string>, t: seq<string>, start: nat, n: nat, c: nat)
    requires start + c * n + n <= |s|
    ensures Block(s + t, start, n, c) == Block(s, start, n, c)
  {
    assert (s + t)[start + c * n .. start + c * n + n] == s[start + c * n .. start + c * n + n];
  }

  lemma BlockAtEnd(s: seq<string>, t: seq<string>, start: nat, c: nat)
    requires start + c * |t| == |s|
    ensures Block(s + t, start, |t|, c) == t
  {
    assert (s + t)[|s| .. |s| + |t|] == t;
  }

  lemma {:induction false} MulMono(c: nat, k: nat, n: nat)
    requires c < k
    ensures c * n + n <= k * n
    decreases k - c
  {
    assert (c + 1) * n == c * n + n;
    if c + 1 < k {
      MulMono(c + 1, k, n);
    }
  }

  lemma {:induction false} RepeatNames(step: seq<Event> -> seq<Event>, k: nat, h: seq<Event>, names: seq<string>)
    requires forall t :: PublishedNames(Publications(step(t))) == PublishedNames(Publications(t)) + names
    ensures |Publications(Repeat(step, k, h))| == |Publications(h)| + k * |names|
    ensures forall c :: 0 <= c < k ==> RoundNames(Publications(Repeat(step, k, h)), |Publications(h)|, |names|, c) == names
  {
    if k > 0 {
      var before := Repeat(step, k - 1, h);
      RepeatNames(step, k - 1, h, names);
      var p := Publications(step(before));
      var q := Publications(before);
      var b := |Publications(h)|;
      var n := |names|;
      var qs := PublishedNames(q);
      assert PublishedNames(p) == qs + names;
      assert |q| == b + (k - 1) * n;
      assert |p| == b + k * n by {
        assert k * n == (k - 1) * n + n;
      }
      forall c | 0 <= c < k
        ensures RoundNames(p, b, n, c) == names
      {
        if c < k - 1 {
          MulMono(c, k - 1, n);
          BlockOfPrefix(qs, names, b, n, c);
          assert RoundNames(q, b, n, c) == names;
        } else {
          BlockAtEnd(qs, names, b, c);
        }
      }
    }
  }

  /** Over k cycles, every cycle pushes one status per device, in registry order. */
  lemma CyclesNames(sh: Shell, ds: seq<Device>, k: nat, h: seq<Event>)
    ensures |Publications(Cycles(sh, ds, k, h))| == |Publications(h)| + k * |ds|
    ensures forall c :: 0 <= c < k ==> RoundNames(Publications(Cycles(sh, ds, k, h)), |Publications(h)|, |ds|, c) == Names(ds)
  {
    var step := (t: seq<Event>) => Cycle(sh, ds, t);
    forall t ensures PublishedNames(Publications(step(t))) == PublishedNames(Publications(t)) + Names(ds) {
      CycleNames(sh, ds, t);
    }
    RepeatNames(step, k, h, Names(ds));
    assert Cycles(sh, ds, k, h) == Repeat(step, k, h);
  }
}
