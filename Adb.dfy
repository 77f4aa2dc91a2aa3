/**
 * The adb commands the monitor issues, the replies it can get back, and
 * the three decisions it takes from those replies: whether a package is
 * installed, whether the GC service is writing to its log, and which
 * verdict a device gets.
 */
module Adb {
  import opened Wrappers
  import opened Text

  const POKEMON_GO: string := "com.nianticlabs.pokemongo"
  const GOCHEATS: string := "com.gocheats.launcher"
  const GC_ACTIVITY: string := "com.gocheats.launcher/com.gocheats.launcher.MainActivity"
  /** The logcat tag the GC service writes under. */
  const GC_LOG_TAG: string := "Exeggcute"
  /** Seconds the logcat dump may take before it counts as frozen. */
  const LOGCAT_TIMEOUT: nat := 10

  datatype AdbCommand =
    | KillServer
    | StartServer
    | Connect(ip: string)
    | ListPackages(ip: string, package: string)
    | ForceStop(ip: string, package: string)
    | StartActivity(ip: string, component: string)
    | Reboot(ip: string)
    | LogcatDump(ip: string, tag: string)

  /** A command addressed to one device with `adb -s <ip>`. */
  predicate OnDevice(c: AdbCommand) {
    !(c.KillServer? || c.StartServer? || c.Connect?)
  }

  /** What follows `adb -s <ip> ` in the line of a device command. */
  function Action(c: AdbCommand): string {
    match c
    case ListPackages(_, p) => "shell pm list packages " + p
    case ForceStop(_, p) => "shell am force-stop " + p
    case StartActivity(_, a) => "shell am start -n " + a
    case Reboot(_) => "reboot"
    case LogcatDump(_, tag) => "logcat -d -s " + tag
    case _ => ""
  }

  /** The shell command line the monitor hands to the shell for `c`. */
  function CommandLine(c: AdbCommand): string {
    match c
    case KillServer => "adb kill-server"
    case StartServer => "adb start-server"
    case Connect(ip) => "adb connect " + ip
    case _ => "adb -s " + c.ip + " " + Action(c)
  }

  /** Two words joined by a space split back apart when the first has no whitespace. */
  lemma SplitAtSpace(x1: string, y1: string, x2: string, y2: string)
    requires NoSpace(x1) && NoSpace(x2) && x1 + " " + y1 == x2 + " " + y2
    ensures x1 == x2 && y1 == y2
  {
    var s := x1 + " " + y1;
    assert s[|x1|] == ' ' && s[|x2|] == ' ';
    SkipTokenIs(s, 0, |x1|);
    SkipTokenIs(s, 0, |x2|);
    assert x1 == s[..|x1|] == x2;
    assert y1 == s[|x1| + 1..] == y2;
  }

  /** The action text determines the device command, given its address. */
  lemma ActionInjective(c1: AdbCommand, c2: AdbCommand)
    requires OnDevice(c1) && OnDevice(c2) && c1.ip == c2.ip && Action(c1) == Action(c2)
    ensures c1 == c2
  {
    var a := Action(c1);
    match c1
    case ListPackages(_, p) =>
      assert a[0] == 's' && a[6] == 'p';
      assert p == a[23..];
    case ForceStop(_, p) =>
      assert a[0] == 's' && a[6] == 'a' && a[9] == 'f';
      assert p == a[20..];
    case StartActivity(_, x) =>
      assert a[0] == 's' && a[6] == 'a' && a[9] == 's';
      assert x == a[18..];
    case Reboot(_) =>
      assert a[0] == 'r';
    case LogcatDump(_, tag) =>
      assert a[0] == 'l';
      assert tag == a[13..];
  }

  /** The fifth character of a command line tells the four kinds of line apart. */
  function LineKey(c: AdbCommand): char {
    match c
    case KillServer => 'k'
    case StartServer => 's'
    case Connect(_) => 'c'
    case _ => '-'
  }

  lemma LineShape(c: AdbCommand)
    ensures var s := CommandLine(c); |s| > 4 && s[4] == LineKey(c)
    ensures c.Connect? ==> CommandLine(c)[12..] == c.ip
    ensures OnDevice(c) ==> CommandLine(c)[7..] == c.ip + " " + Action(c)
  {
    var s := CommandLine(c);
    if c.Connect? {
      assert s == "adb connect " + c.ip;
    } else if OnDevice(c) {
      assert s == "adb -s " + (c.ip + " " + Action(c));
    }
  }

  /**
   * Different commands have different lines, as long as device addresses
   * hold no whitespace; so an oracle asked with the command sees exactly
   * what the shell would see.
   */
  lemma CommandLineInjective(c1: AdbCommand, c2: AdbCommand)
    requires OnDevice(c1) ==> NoSpace(c1.ip)
    requires OnDevice(c2) ==> NoSpace(c2.ip)
    ensures CommandLine(c1) == CommandLine(c2) <==> c1 == c2
  {
    if CommandLine(c1) == CommandLine(c2) {
      LineShape(c1);
      LineShape(c2);
      if OnDevice(c1) {
        SplitAtSpace(c1.ip, Action(c1), c2.ip, Action(c2));
        ActionInjective(c1, c2);
      }
    }
  }

  /** What an untimed `subprocess.run` gives back: the captured stdout, or the error it raised. */
  datatype RunReply = Completed(stdout: string) | SubprocessError(reason: string)

  /** What the timed logcat dump gives back: the captured stdout, or a timeout. */
  datatype DumpReply = Dumped(stdout: string) | TimeoutExpired

  /** The value run_adb_command returns for a reply: the stripped stdout, or None. */
  function RunValue(reply: RunReply): (r: Option<string>)
    ensures r.None? <==> reply.SubprocessError?
    ensures r.Some? ==> NoEdgeSpace(r.value) && (r.value == [] <==> AllSpace(reply.stdout))
    ensures r.Some? ==> exists a, b :: AllSpace(a) && AllSpace(b) && reply.stdout == a + r.value + b
  {
    match reply
    case Completed(out) =>
      StrippedIsFramed(out);
      Some(Strip(out))
    case SubprocessError(_) => None
  }

  function PackageLine(package: string): string {
    "package:" + package
  }

  /** check_package_status: the whole (stripped) output is the one line `package:<name>`. */
  predicate PackageListed(result: Option<string>, package: string) {
    result == Some(PackageLine(package))
  }

  /** check_gc_service_status: the dump finished and printed something besides whitespace. */
  function GcActive(reply: DumpReply): (active: bool)
    ensures active <==> reply.Dumped? && !AllSpace(reply.stdout)
  {
    match reply
    case Dumped(out) => Strip(out) != []
    case TimeoutExpired => false
  }

  datatype Verdict = ServicesRunning | AppearsFrozen | NotRunning

  /**
   * The verdict on a device: running when either package is reported, and
   * otherwise frozen or not running depending only on the GC log.
   */
  function Decide(pokemonGo: bool, gocheats: bool, gc: bool): (v: Verdict)
    ensures v == ServicesRunning <==> pokemonGo || gocheats
    ensures v == AppearsFrozen <==> !pokemonGo && !gocheats && gc
    ensures v == NotRunning <==> !pokemonGo && !gocheats && !gc
  {
    if pokemonGo || gocheats then ServicesRunning
    else if gc then AppearsFrozen
    else NotRunning
  }

  lemma PackageLineHasNoEdgeSpace(package: string)
    requires package == [] || !IsSpace(package[|package| - 1])
    ensures NoEdgeSpace(PackageLine(package))
  {
    var m := PackageLine(package);
    assert m[0] == 'p';
    if package != [] { assert m[|m| - 1] == package[|package| - 1]; }
  }

  /**
   * A package is reported exactly when the command completed and its stdout
   * is `package:<name>` with nothing but whitespace around it.
   */
  lemma PackageListedIff(reply: RunReply, package: string)
    requires package == [] || !IsSpace(package[|package| - 1])
    ensures PackageListed(RunValue(reply), package) <==>
      reply.Completed? && exists a, b :: AllSpace(a) && AllSpace(b) && reply.stdout == a + PackageLine(package) + b
  {
    if reply.Completed? {
      var out := reply.stdout;
      var m := PackageLine(package);
      if Strip(out) == m {
        StrippedIsFramed(out);
      }
      forall a, b | AllSpace(a) && AllSpace(b) && out == a + m + b
        ensures Strip(out) == m
      {
        PackageLineHasNoEdgeSpace(package);
        StripOfPadded(a, m, b);
      }
    }
  }

  /**
   * `pm list packages` matches by substring, so a second package whose name
   * contains the one asked for makes the check report it missing.
   */
  lemma ExtraPackageHidesListed(package: string, other: string)
    ensures !PackageListed(Some(PackageLine(package) + "\n" + PackageLine(other)), package)
  {
    var s := PackageLine(package) + "\n" + PackageLine(other);
    assert |s| > |PackageLine(package)|;
  }
}
