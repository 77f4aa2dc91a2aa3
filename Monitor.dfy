/**
 * The monitoring side of DeviceMonitorApp. Each operation is specified by
 * a function giving the events it appends to what happened before it,
 * and the class performs the operation step by step on its `trace` field.
 */
module Monitor {
  import opened Wrappers
  import opened Text
  import opened Config
  import opened ConfigProofs
  import opened Adb
  import opened Trace

  /** Seconds slept after each device, and again between two devices. */
  const CHECK_INTERVAL: nat := 5
  /** Seconds slept after a full cycle over the devices. */
  const CYCLE_DELAY: nat := 30
  /** Seconds between stopping Pokemon Go and starting the GC launcher. */
  const SETTLE_DELAY: nat := 5

  /** The value an operation returns together with the trace after it. */
  datatype Outcome<+T> = Outcome(value: T, trace: seq<Event>)

  // ---------------------------------------------------------------------------
  // The operations as functions of the shell and of the trace `h` before them

  /** run_adb_command: one attempt, stdout stripped; an error is logged and gives None. */
  function Run(sh: Shell, h: seq<Event>, c: AdbCommand): Outcome<Option<string>> {
    var reply := sh.run(h, c);
    var h1 := h + [Ran(c, reply)];
    match reply
    case Completed(_) => Outcome(RunValue(reply), h1)
    case SubprocessError(reason) => Outcome(RunValue(reply), h1 + [Logged(CommandFailed(c, reason))])
  }

  function CheckPackage(sh: Shell, h: seq<Event>, ip: string, package: string): Outcome<bool> {
    var o := Run(sh, h, ListPackages(ip, package));
    Outcome(PackageListed(o.value, package), o.trace)
  }

  function CheckGc(sh: Shell, h: seq<Event>, ip: string, timeout: nat): Outcome<bool> {
    var c := LogcatDump(ip, GC_LOG_TAG);
    var reply := sh.dump(h, c, timeout);
    Outcome(GcActive(reply), h + [RanTimed(c, timeout, reply)])
  }

  function AutoRestart(sh: Shell, h: seq<Event>, ip: string): seq<Event> {
    Run(sh, h + [Logged(AutoRestarting(ip))], Reboot(ip)).trace
  }

  function RestartGc(sh: Shell, h: seq<Event>, ip: string): seq<Event> {
    var h1 := Run(sh, h, ForceStop(ip, POKEMON_GO)).trace + [Slept(SETTLE_DELAY)];
    Run(sh, h1, StartActivity(ip, GC_ACTIVITY)).trace
  }

  /** One `adb connect`, its reply logged. */
  function ConnectOne(sh: Shell, ip: string, h: seq<Event>): seq<Event> {
    var o := Run(sh, h, Connect(ip));
    o.trace + [Logged(Connected(ip, o.value))]
  }

  /** The body of the connect loop of reset_adb_server as a value. */
  function ConnectPass(sh: Shell, ds: seq<Device>): (nat, seq<Event>) -> seq<Event> {
    (i: nat, h: seq<Event>) => if i < |ds| then ConnectOne(sh, ds[i].address, h) else h
  }

  /** Connecting to the devices from the i-th on. */
  function ConnectFrom(sh: Shell, ds: seq<Device>, i: nat, h: seq<Event>): seq<Event> {
    Iterate(ConnectPass(sh, ds), i, |ds|, h)
  }

  lemma ConnectFromStep(sh: Shell, ds: seq<Device>, i: nat, before: seq<Event>, after: seq<Event>)
    requires i < |ds| && after == ConnectOne(sh, ds[i].address, before)
    ensures ConnectFrom(sh, ds, i + 1, after) == ConnectFrom(sh, ds, i, before)
  {
    assert ConnectPass(sh, ds)(i, before) == after;
  }

  lemma ConnectFromEnd(sh: Shell, ds: seq<Device>, i: nat, h: seq<Event>)
    requires i >= |ds|
    ensures ConnectFrom(sh, ds, i, h) == h
  {
  }

  /** The first half of reset_adb_server: the log line, then kill-server and start-server. */
  function RestartServer(sh: Shell, h: seq<Event>): seq<Event> {
    var h1 := Run(sh, h + [Logged(ResettingServer)], KillServer).trace;
    Run(sh, h1, StartServer).trace
  }

  function ResetServer(sh: Shell, ds: seq<Device>, h: seq<Event>): seq<Event> {
    ConnectFrom(sh, ds, 0, RestartServer(sh, h))
  }

  /** What the three probes of a device reported. */
  datatype Probe = Probe(pokemonGo: bool, gocheats: bool, gc: bool)

  /** Both package checks, then the GC log check, as monitor_devices runs them. */
  function ProbeDevice(sh: Shell, h: seq<Event>, ip: string): Outcome<Probe> {
    var p := CheckPackage(sh, h, ip, POKEMON_GO);
    var g := CheckPackage(sh, p.trace, ip, GOCHEATS);
    var gc := CheckGc(sh, g.trace, ip, LOGCAT_TIMEOUT);
    Outcome(Probe(p.value, g.value, gc.value), gc.trace)
  }

  /** The verdict message, then the automatic restart unless the services run. */
  function React(sh: Shell, h: seq<Event>, d: Device, pr: Probe): seq<Event> {
    var v := Decide(pr.pokemonGo, pr.gocheats, pr.gc);
    var h1 := h + [Logged(VerdictReported(d.name, v))];
    if v == ServicesRunning then h1 else AutoRestart(sh, h1, d.address)
  }

  /** What the probes of the i-th device report, once its "Checking" line is logged. */
  function DeviceProbe(sh: Shell, ds: seq<Device>, i: nat, h: seq<Event>): Outcome<Probe>
    requires i < |ds|
  {
    ProbeDevice(sh, h + [Logged(Checking(i + 1, |ds|, ds[i].name, ds[i].address))], ds[i].address)
  }

  /** What follows the verdict: the status pushed to the window, then the pacing sleeps. */
  function Closing(ds: seq<Device>, i: nat, pr: Probe): seq<Event>
    requires i < |ds|
  {
    var status := Published(Status(ds[i].name, pr.pokemonGo, pr.gc));
    if i + 1 < |ds| then [status, Slept(CHECK_INTERVAL), Slept(CHECK_INTERVAL)]
    else [status, Slept(CHECK_INTERVAL)]
  }

  /** One pass of the device loop of monitor_devices, for the i-th device. */
  function CheckDevice(sh: Shell, ds: seq<Device>, i: nat, h: seq<Event>): seq<Event>
    requires i < |ds|
  {
    var pr := DeviceProbe(sh, ds, i, h);
    React(sh, pr.trace, ds[i], pr.value) + Closing(ds, i, pr.value)
  }

  /** The body of the device loop as a value: pass i on trace h, nothing past the last device. */
  function Pass(sh: Shell, ds: seq<Device>): (nat, seq<Event>) -> seq<Event> {
    (i: nat, h: seq<Event>) => if i < |ds| then CheckDevice(sh, ds, i, h) else h
  }

  /** Passes i, i + 1, ..., n - 1 of a loop body, in that order. */
  function Iterate(pass: (nat, seq<Event>) -> seq<Event>, i: nat, n: nat, h: seq<Event>): seq<Event>
    decreases n - i
  {
    if i >= n then h else Iterate(pass, i + 1, n, pass(i, h))
  }

  /** The device loop of monitor_devices, from the i-th device on. */
  function CheckFrom(sh: Shell, ds: seq<Device>, i: nat, h: seq<Event>): seq<Event> {
    Iterate(Pass(sh, ds), i, |ds|, h)
  }

  lemma CheckFromStep(sh: Shell, ds: seq<Device>, i: nat, before: seq<Event>, after: seq<Event>)
    requires i < |ds| && after == CheckDevice(sh, ds, i, before)
    ensures CheckFrom(sh, ds, i + 1, after) == CheckFrom(sh, ds, i, before)
  {
    assert Pass(sh, ds)(i, before) == after;
  }

  lemma CheckFromEnd(sh: Shell, ds: seq<Device>, i: nat, h: seq<Event>)
    requires i >= |ds|
    ensures CheckFrom(sh, ds, i, h) == h
  {
  }

  /** The end of a cycle: the wait is logged, then slept. */
  const WAIT := [Logged(Waiting(CYCLE_DELAY)), Slept(CYCLE_DELAY)]

  /** One iteration of the endless loop of monitor_devices. */
  function Cycle(sh: Shell, ds: seq<Device>, h: seq<Event>): seq<Event> {
    CheckFrom(sh, ds, 0, ResetServer(sh, ds, h)) + WAIT
  }

  /** k applications of a step to a trace. */
  function Repeat(step: seq<Event> -> seq<Event>, k: nat, h: seq<Event>): seq<Event> {
    if k == 0 then h else step(Repeat(step, k - 1, h))
  }

  /** The first k iterations of the endless loop of monitor_devices. */
  function Cycles(sh: Shell, ds: seq<Device>, k: nat, h: seq<Event>): seq<Event> {
    Repeat(h => Cycle(sh, ds, h), k, h)
  }

  lemma CyclesStep(sh: Shell, ds: seq<Device>, k: nat, h: seq<Event>, before: seq<Event>, after: seq<Event>)
    requires before == Cycles(sh, ds, k, h) && after == Cycle(sh, ds, before)
    ensures after == Cycles(sh, ds, k + 1, h)
  {
  }

  // ---------------------------------------------------------------------------
  // The application

  class DeviceMonitorApp {
    const devices: seq<Device>
    const logConfig: map<string, LogValue>
    const shell: Shell
    /** Everything the application has done so far. */
    var trace: seq<Event>

    /** __init__: the registry and log settings come from the configuration file. */
    constructor (file: ConfigFile, shell: Shell)
      requires ParseConfig(file).Ok?
      ensures devices == ParseConfig(file).value.devices && logConfig == ParseConfig(file).value.logConfig
      ensures Distinct(Names(devices))
      ensures this.shell == shell && trace == []
    {
      var config := LoadConfig(file);
      ConfiguredNamesDistinct(file);
      devices := config.value.devices;
      logConfig := config.value.logConfig;
      this.shell := shell;
      trace := [];
    }

    method Log(entry: LogEntry)
      modifies this
      ensures trace == old(trace) + [Logged(entry)]
    {
      trace := trace + [Logged(entry)];
    }

    method Sleep(seconds: nat)
      modifies this
      ensures trace == old(trace) + [Slept(seconds)]
    {
      trace := trace + [Slept(seconds)];
    }

    method UpdateDeviceStatus(name: string, pokemonGo: bool, gc: bool)
      modifies this
      ensures trace == old(trace) + [Published(Status(name, pokemonGo, gc))]
    {
      trace := trace + [Published(Status(name, pokemonGo, gc))];
    }

    method RunAdbCommand(c: AdbCommand) returns (result: Option<string>)
      modifies this
      ensures result == Run(shell, old(trace), c).value
      ensures trace == Run(shell, old(trace), c).trace
    {
      var reply := shell.run(trace, c);
      trace := trace + [Ran(c, reply)];
      match reply
      case Completed(stdout) =>
        result := Some(Strip(stdout));
      case SubprocessError(reason) =>
        Log(CommandFailed(c, reason));
        result := None;
    }

    method CheckPackageStatus(ip: string, package: string) returns (listed: bool)
      modifies this
      ensures listed == CheckPackage(shell, old(trace), ip, package).value
      ensures trace == CheckPackage(shell, old(trace), ip, package).trace
    {
      var result := RunAdbCommand(ListPackages(ip, package));
      listed := result == Some("package:" + package);
    }

    method CheckGcServiceStatus(ip: string, timeout: nat) returns (active: bool)
      modifies this
      ensures active == CheckGc(shell, old(trace), ip, timeout).value
      ensures trace == CheckGc(shell, old(trace), ip, timeout).trace
    {
      var command := LogcatDump(ip, GC_LOG_TAG);
      var reply := shell.dump(trace, command, timeout);
      trace := trace + [RanTimed(command, timeout, reply)];
      match reply
      case Dumped(stdout) =>
        var output := Strip(stdout);
        active := output != [];
      case TimeoutExpired =>
        active := false;
    }

    method ResetAdbServer()
      modifies this
      ensures trace == ResetServer(shell, devices, old(trace))
    {
      Log(ResettingServer);
      var _ := RunAdbCommand(KillServer);
      var _ := RunAdbCommand(StartServer);
      ghost var start := trace;
      var i := 0;
      while i < |devices|
        invariant 0 <= i <= |devices|
        invariant ConnectFrom(shell, devices, i, trace) == ConnectFrom(shell, devices, 0, start)
      {
        ghost var before := trace;
        var ip := devices[i].address;
        var connectResult := RunAdbCommand(Connect(ip));
        Log(Connected(ip, connectResult));
        ConnectFromStep(shell, devices, i, before, trace);
        i := i + 1;
      }
      ConnectFromEnd(shell, devices, i, trace);
    }

    method RestartGcServices(ip: string)
      modifies this
      ensures trace == RestartGc(shell, old(trace), ip)
    {
      var _ := RunAdbCommand(ForceStop(ip, POKEMON_GO));
      Sleep(SETTLE_DELAY);
      var _ := RunAdbCommand(StartActivity(ip, GC_ACTIVITY));
    }

    method AutoRestartServices(ip: string)
      modifies this
      ensures trace == AutoRestart(shell, old(trace), ip)
    {
      Log(AutoRestarting(ip));
      var _ := RunAdbCommand(Reboot(ip));
    }

    /** The three checks of a device in monitor_devices: both packages, then the GC log. */
    method RunProbes(ip: string) returns (pokemonGoStatus: bool, gocheatsStatus: bool, gcStatus: bool)
      modifies this
      ensures Probe(pokemonGoStatus, gocheatsStatus, gcStatus) == ProbeDevice(shell, old(trace), ip).value
      ensures trace == ProbeDevice(shell, old(trace), ip).trace
    {
      pokemonGoStatus := CheckPackageStatus(ip, POKEMON_GO);
      gocheatsStatus := CheckPackageStatus(ip, GOCHEATS);
      gcStatus := CheckGcServiceStatus(ip, LOGCAT_TIMEOUT);
    }

    /** The verdict of monitor_devices: logged, then the reboot unless either package is listed. */
    method ReportVerdict(device: Device, pokemonGoStatus: bool, gocheatsStatus: bool, gcStatus: bool)
      modifies this
      ensures trace == React(shell, old(trace), device, Probe(pokemonGoStatus, gocheatsStatus, gcStatus))
    {
      if pokemonGoStatus || gocheatsStatus {
        Log(VerdictReported(device.name, ServicesRunning));
      } else {
        if gcStatus {
          Log(VerdictReported(device.name, AppearsFrozen));
        } else {
          Log(VerdictReported(device.name, NotRunning));
        }
        AutoRestartServices(device.address);
      }
    }

    /** One pass of the device loop of monitor_devices, for the device at `index`. */
    method CheckDeviceAt(index: nat)
      requires index < |devices|
      modifies this
      ensures trace == CheckDevice(shell, devices, index, old(trace))
    {
      var device := devices[index];
      var currentDeviceIndex := index + 1;
      Log(Checking(currentDeviceIndex, |devices|, device.name, device.address));
      var pokemonGoStatus, gocheatsStatus, gcStatus := RunProbes(device.address);
      ghost var probe := Probe(pokemonGoStatus, gocheatsStatus, gcStatus);
      assert Outcome(probe, trace) == DeviceProbe(shell, devices, index, old(trace));
      ReportVerdict(device, pokemonGoStatus, gocheatsStatus, gcStatus);
      ghost var decided := trace;
      ghost var status := Published(Status(device.name, pokemonGoStatus, gcStatus));
      UpdateDeviceStatus(device.name, pokemonGoStatus, gcStatus);
      Sleep(CHECK_INTERVAL);
      assert trace == decided + [status, Slept(CHECK_INTERVAL)];
      if currentDeviceIndex < |devices| {
        Sleep(CHECK_INTERVAL);
        assert trace == decided + [status, Slept(CHECK_INTERVAL), Slept(CHECK_INTERVAL)];
      }
    }

    /** One iteration of the endless loop of monitor_devices. */
    method MonitorCycle()
      modifies this
      ensures trace == Cycle(shell, devices, old(trace))
    {
      ResetAdbServer();
      ghost var start := trace;
      var totalDevices := |devices|;
      var currentDeviceIndex := 0;
      while currentDeviceIndex < totalDevices
        invariant 0 <= currentDeviceIndex <= totalDevices
        invariant CheckFrom(shell, devices, currentDeviceIndex, trace) == CheckFrom(shell, devices, 0, start)
      {
        ghost var before := trace;
        CheckDeviceAt(currentDeviceIndex);
        CheckFromStep(shell, devices, currentDeviceIndex, before, trace);
        currentDeviceIndex := currentDeviceIndex + 1;
      }
      CheckFromEnd(shell, devices, currentDeviceIndex, trace);
      Log(Waiting(CYCLE_DELAY));
      Sleep(CYCLE_DELAY);
      assert trace == CheckFrom(shell, devices, 0, start) + WAIT;
    }

    /** monitor_devices, stopped after `cycles` iterations of its endless loop. */
    method MonitorDevices(cycles: nat)
      modifies this
      ensures trace == Cycles(shell, devices, cycles, old(trace))
    {
      ghost var start := trace;
      var k := 0;
      while k < cycles
        invariant 0 <= k <= cycles
        invariant trace == Cycles(shell, devices, k, start)
      {
        ghost var before := trace;
        MonitorCycle();
        CyclesStep(shell, devices, k, start, before, trace);
        k := k + 1;
      }
    }
  }
}
