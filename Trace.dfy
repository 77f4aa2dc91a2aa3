/**
 * What the monitor does to the outside world, as a sequence of events:
 * each adb command with the reply it got, each sleep, each status pushed
 * to the window, and each log line. The shell that answers commands is an
 * oracle that may look at everything that happened before.
 */
module Trace {
  import opened Wrappers
  import opened Adb

  /** The two labels of a device row: the Pokemon Go package check and the GC log check. */
  datatype Status = Status(name: string, pokemonGo: bool, gc: bool)

  datatype LogEntry =
    | ResettingServer
    | Connected(ip: string, result: Option<string>)
    | CommandFailed(command: AdbCommand, reason: string)
    | Checking(index: nat, total: nat, name: string, ip: string)
    | VerdictReported(name: string, verdict: Verdict)
    | AutoRestarting(ip: string)
    | Waiting(seconds: nat)

  datatype Event =
    | Ran(command: AdbCommand, reply: RunReply)
    | RanTimed(command: AdbCommand, timeout: nat, result: DumpReply)
    | Slept(seconds: nat)
    | Published(status: Status)
    | Logged(entry: LogEntry)

  /**
   * The device side: the reply to a command given everything that happened
   * before it, so the same command may be answered differently each time;
   * likewise for the timed dump, which also receives its timeout. The shell
   * is asked with the command itself rather than its line CommandLine(c):
   * Adb.CommandLineInjective shows that the two carry the same information.
   */
  datatype Shell = Shell(
    run: (seq<Event>, AdbCommand) -> RunReply,
    dump: (seq<Event>, AdbCommand, nat) -> DumpReply)

  function CommandOf(e: Event): seq<AdbCommand> {
    match e
    case Ran(c, _) => [c]
    case RanTimed(c, _, _) => [c]
    case _ => []
  }

  function SleepOf(e: Event): seq<nat> {
    if e.Slept? then [e.seconds] else []
  }

  function PublicationOf(e: Event): seq<Status> {
    if e.Published? then [e.status] else []
  }

  function LogOf(e: Event): seq<LogEntry> {
    if e.Logged? then [e.entry] else []
  }

  function VerdictOf(e: Event): seq<(string, Verdict)> {
    if e.Logged? && e.entry.VerdictReported? then [(e.entry.name, e.entry.verdict)] else []
  }

  function RunOf(e: Event): seq<(AdbCommand, RunReply)> {
    if e.Ran? then [(e.command, e.reply)] else []
  }

  function DumpOf(e: Event): seq<DumpReply> {
    if e.RanTimed? then [e.result] else []
  }

  /** The concatenation of f over the events, in order. */
  function Collect<T>(es: seq<Event>, f: Event -> seq<T>): (r: seq<T>)
    ensures es == [] ==> r == []
  {
    if es == [] then [] else f(es[0]) + Collect(es[1..], f)
  }

  lemma {:induction false} CollectAppend<T>(a: seq<Event>, b: seq<Event>, f: Event -> seq<T>)
    ensures Collect(a + b, f) == Collect(a, f) + Collect(b, f)
  {
    if a == [] {
      assert a + b == b;
    } else {
      assert (a + b)[1..] == a[1..] + b;
      CollectAppend(a[1..], b, f);
    }
  }

  lemma CollectOne<T>(e: Event, f: Event -> seq<T>)
    ensures Collect([e], f) == f(e)
  {
    assert [e][1..] == [];
  }

  /** Every adb command issued, in order. */
  function Commands(es: seq<Event>): seq<AdbCommand> { Collect(es, CommandOf) }
  /** Every sleep, in seconds, in order. */
  function Sleeps(es: seq<Event>): seq<nat> { Collect(es, SleepOf) }
  /** Every status pushed to the window, in order. */
  function Publications(es: seq<Event>): seq<Status> { Collect(es, PublicationOf) }
  function Logs(es: seq<Event>): seq<LogEntry> { Collect(es, LogOf) }
  function Verdicts(es: seq<Event>): seq<(string, Verdict)> { Collect(es, VerdictOf) }
  /** Every untimed command with the reply it got. */
  function Runs(es: seq<Event>): seq<(AdbCommand, RunReply)> { Collect(es, RunOf) }
  /** Every reply of the timed logcat dump. */
  function Dumps(es: seq<Event>): seq<DumpReply> { Collect(es, DumpOf) }

  function Sum(s: seq<nat>): nat {
    if s == [] then 0 else s[0] + Sum(s[1..])
  }

  lemma {:induction false} SumAppend(a: seq<nat>, b: seq<nat>)
    ensures Sum(a + b) == Sum(a) + Sum(b)
  {
    if a == [] {
      assert a + b == b;
    } else {
      assert (a + b)[1..] == a[1..] + b;
      SumAppend(a[1..], b);
    }
  }

  /** Every projection of a concatenation is the concatenation of the projections. */
  lemma ProjectAppend(a: seq<Event>, b: seq<Event>)
    ensures Commands(a + b) == Commands(a) + Commands(b)
    ensures Sleeps(a + b) == Sleeps(a) + Sleeps(b)
    ensures Publications(a + b) == Publications(a) + Publications(b)
    ensures Logs(a + b) == Logs(a) + Logs(b)
    ensures Verdicts(a + b) == Verdicts(a) + Verdicts(b)
    ensures Runs(a + b) == Runs(a) + Runs(b)
    ensures Dumps(a + b) == Dumps(a) + Dumps(b)
  {
    CollectAppend(a, b, CommandOf);
    CollectAppend(a, b, SleepOf);
    CollectAppend(a, b, PublicationOf);
    CollectAppend(a, b, LogOf);
    CollectAppend(a, b, VerdictOf);
    CollectAppend(a, b, RunOf);
    CollectAppend(a, b, DumpOf);
  }

  /** The projections of a trace extended by one event. */
  lemma ProjectEvent(a: seq<Event>, e: Event)
    ensures Commands(a + [e]) == Commands(a) + CommandOf(e)
    ensures Sleeps(a + [e]) == Sleeps(a) + SleepOf(e)
    ensures Publications(a + [e]) == Publications(a) + PublicationOf(e)
    ensures Logs(a + [e]) == Logs(a) + LogOf(e)
    ensures Verdicts(a + [e]) == Verdicts(a) + VerdictOf(e)
    ensures Runs(a + [e]) == Runs(a) + RunOf(e)
    ensures Dumps(a + [e]) == Dumps(a) + DumpOf(e)
  {
    ProjectAppend(a, [e]);
    CollectOne(e, CommandOf);
    CollectOne(e, SleepOf);
    CollectOne(e, PublicationOf);
    CollectOne(e, LogOf);
    CollectOne(e, VerdictOf);
    CollectOne(e, RunOf);
    CollectOne(e, DumpOf);
  }
}
