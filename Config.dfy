/**
 * load_config: the line-oriented `KEY VALUE` configuration reader of the
 * device monitor. Device entries go to an insertion-ordered registry,
 * `LOG_` keys to a logging map that starts with four defaults.
 */
module Config {
  import opened Wrappers
  import opened Text

  datatype Device = Device(name: string, address: string)

  /** A logging setting: `LOG_MAX_SIZE` and the numeric defaults are integers, the rest strings. */
  datatype LogValue = StrValue(s: string) | IntValue(n: int)

  datatype Config = Config(devices: seq<Device>, logConfig: map<string, LogValue>)

  /** What opening and reading the configuration file gives. */
  datatype ConfigFile =
    | Missing                    // open() raises FileNotFoundError
    | Unreadable                 // any other OSError or a decoding error while reading
    | Lines(lines: seq<string>)  // the lines as file iteration yields them

  /** The exceptions that leave load_config (none of them is caught there). */
  datatype ConfigError =
    | NotEnoughValues(got: nat)   // `key, value = ...` on a one-field line
    | InvalidLiteral(text: string) // int() on a LOG_MAX_SIZE value that is not an integer
    | ReadFailed                  // the file exists but cannot be read

  /** What one accepted line assigns. */
  datatype Entry = DeviceEntry(name: string, address: string) | LogEntry(key: string, value: LogValue)

  const LOG_PREFIX := "LOG_"
  const MAX_SIZE_KEY := "LOG_MAX_SIZE"

  const DEFAULT_LOG_CONFIG: map<string, LogValue> := map[
    "LOG_PATH" := StrValue("logs/device_monitor.log"),
    "LOG_LEVEL" := StrValue("INFO"),
    MAX_SIZE_KEY := IntValue(5 * 1024 * 1024),
    "LOG_BACKUP_COUNT" := IntValue(2)
  ]

  function InitialConfig(): Config {
    Config([], DEFAULT_LOG_CONFIG)
  }

  // ---------------------------------------------------------------------------
  // The device registry as an insertion-ordered dict

  function Names(ds: seq<Device>): (r: seq<string>)
    ensures |r| == |ds| && forall i :: 0 <= i < |ds| ==> r[i] == ds[i].name
  {
    seq(|ds|, i requires 0 <= i < |ds| => ds[i].name)
  }

  predicate Distinct<T(==)>(s: seq<T>) {
    forall i, j :: 0 <= i < j < |s| ==> s[i] != s[j]
  }

  /** devices.get(name) */
  function Lookup(ds: seq<Device>, name: string): Option<string> {
    if ds == [] then None
    else if ds[0].name == name then Some(ds[0].address)
    else Lookup(ds[1..], name)
  }

  /**
   * devices[name] = address: an existing name keeps its position and takes
   * the new address, a new name goes to the end.
   */
  function Insert(ds: seq<Device>, name: string, address: string): (r: seq<Device>)
    ensures Names(r) == if name in Names(ds) then Names(ds) else Names(ds) + [name]
    ensures forall k :: Lookup(r, k) == if k == name then Some(address) else Lookup(ds, k)
  {
    if ds == [] then [Device(name, address)]
    else if ds[0].name == name then
      var r := [Device(name, address)] + ds[1..];
      assert Names(r) == Names(ds);
      r
    else
      var tail := Insert(ds[1..], name, address);
      var r := [ds[0]] + tail;
      assert Names(ds) == [ds[0].name] + Names(ds[1..]);
      assert Names(r) == [ds[0].name] + Names(tail);
      assert r[1..] == tail;
      r
  }

  lemma {:induction false} InsertKeepsDistinct(ds: seq<Device>, name: string, address: string)
    requires Distinct(Names(ds))
    ensures Distinct(Names(Insert(ds, name, address)))
  {
    var n := Names(ds);
    if name !in n {
      assert forall i :: 0 <= i < |n| ==> (n + [name])[i] == n[i];
    }
  }

  // ---------------------------------------------------------------------------
  // One line

  /** `line.startswith("#") or not line.strip()`: the raw line is tested, so an indented `#` is not a comment. */
  function IsSkipped(line: string): (b: bool)
    ensures b <==> "#" <= line || AllSpace(line)
  {
    "#" <= line || Strip(line) == []
  }

  /** What a line does: nothing, one assignment, or the exception it raises. */
  function LineEffect(line: string): (r: Result<Option<Entry>, ConfigError>)
    ensures r == Ok(None) <==> IsSkipped(line)
    ensures r.Ok? && r.value.Some? && r.value.value.DeviceEntry? ==>
      !(LOG_PREFIX <= r.value.value.name)
    ensures r.Ok? && r.value.Some? && r.value.value.LogEntry? ==>
      LOG_PREFIX <= r.value.value.key
      && (r.value.value.key == MAX_SIZE_KEY <==> r.value.value.value.IntValue?)
  {
    if IsSkipped(line) then Ok(None)
    else
      var parts := SplitOnce(Strip(line));
      if |parts| != 2 then Err(NotEnoughValues(|parts|))
      else
        var key, value := parts[0], parts[1];
        if LOG_PREFIX <= key then
          if key == MAX_SIZE_KEY then
            match ParseInt(value)
            case None => Err(InvalidLiteral(value))
            case Some(n) => Ok(Some(LogEntry(key, IntValue(n))))
          else Ok(Some(LogEntry(key, StrValue(value))))
        else Ok(Some(DeviceEntry(key, value)))
  }

  function Apply(c: Config, e: Entry): Config {
    match e
    case DeviceEntry(name, address) => c.(devices := Insert(c.devices, name, address))
    case LogEntry(key, value) => c.(logConfig := c.logConfig[key := value])
  }

  type Effect = Result<Option<Entry>, ConfigError>

  /** The effect of every line of a file, in order. */
  function Effects(ls: seq<string>): (es: seq<Effect>)
    ensures |es| == |ls| && forall i :: 0 <= i < |ls| ==> es[i] == LineEffect(ls[i])
  {
    seq(|ls|, i requires 0 <= i < |ls| => LineEffect(ls[i]))
  }

  lemma EffectsAppend(a: seq<string>, b: seq<string>)
    ensures Effects(a + b) == Effects(a) + Effects(b)
  {
  }

  /** One turn of the loop over the file; an exception ends the reading for good. */
  function Step(r: Result<Config, ConfigError>, e: Effect): Result<Config, ConfigError> {
    match r
    case Err(_) => r
    case Ok(c) =>
      match e
      case Err(x) => Err(x)
      case Ok(None) => r
      case Ok(Some(en)) => Ok(Apply(c, en))
  }

  function Fold(r: Result<Config, ConfigError>, es: seq<Effect>): Result<Config, ConfigError> {
    if es == [] then r else Step(Fold(r, es[..|es| - 1]), es[|es| - 1])
  }

  /** The result of load_config for a file that opened and read as `ls`. */
  function ParseLines(ls: seq<string>): Result<Config, ConfigError> {
    Fold(Ok(InitialConfig()), Effects(ls))
  }

  function ParseConfig(file: ConfigFile): Result<Config, ConfigError> {
    match file
    case Missing => Ok(InitialConfig())
    case Unreadable => Err(ReadFailed)
    case Lines(ls) => ParseLines(ls)
  }

  lemma {:induction false} FoldAppend(r: Result<Config, ConfigError>, a: seq<Effect>, b: seq<Effect>)
    ensures Fold(r, a + b) == Fold(Fold(r, a), b)
    decreases |b|
  {
    if b == [] {
      assert a + b == a;
    } else {
      assert (a + b)[..|a + b| - 1] == a + b[..|b| - 1];
      FoldAppend(r, a, b[..|b| - 1]);
    }
  }

  lemma {:induction false} FoldError(e: ConfigError, es: seq<Effect>)
    ensures Fold(Err(e), es) == Err(e)
    decreases |es|
  {
    if es != [] {
      FoldError(e, es[..|es| - 1]);
    }
  }

  /** Reading one more line is one more Step. */
  lemma ParsePrefixStep(ls: seq<string>, i: nat)
    requires i < |ls|
    ensures ParseLines(ls[..i + 1]) == Step(ParseLines(ls[..i]), LineEffect(ls[i]))
  {
    var es := Effects(ls[..i + 1]);
    assert es[..i] == Effects(ls[..i]);
  }

  /** Once a prefix has raised, the whole file raises the same exception. */
  lemma ErrorIsFinal(ls: seq<string>, i: nat)
    requires i <= |ls| && ParseLines(ls[..i]).Err?
    ensures ParseLines(ls) == ParseLines(ls[..i])
  {
    assert ls == ls[..i] + ls[i..];
    EffectsAppend(ls[..i], ls[i..]);
    FoldAppend(Ok(InitialConfig()), Effects(ls[..i]), Effects(ls[i..]));
    FoldError(ParseLines(ls[..i]).error, Effects(ls[i..]));
  }

  /**
   * load_config: reads the lines one by one, updating the two maps in place.
   * A missing file gives no devices and the default logging settings.
   */
  method LoadConfig(file: ConfigFile) returns (r: Result<Config, ConfigError>)
    ensures r == ParseConfig(file)
    ensures file.Missing? ==> r == Ok(Config([], DEFAULT_LOG_CONFIG))
    ensures file.Unreadable? ==> r == Err(ReadFailed)
  {
    var devices: seq<Device> := [];
    var logConfig := DEFAULT_LOG_CONFIG;
    match file {
      case Missing =>
        return Ok(Config([], logConfig));
      case Unreadable =>
        return Err(ReadFailed);
      case Lines(lines) =>
        var i := 0;
        while i < |lines|
          invariant 0 <= i <= |lines|
          invariant ParseLines(lines[..i]) == Ok(Config(devices, logConfig))
        {
          var line := lines[i];
          ParsePrefixStep(lines, i);
          if !("#" <= line || Strip(line) == []) {
            var parts := SplitOnce(Strip(line));
            if |parts| != 2 {
              assert LineEffect(line) == Err(NotEnoughValues(|parts|));
              r := Err(NotEnoughValues(|parts|));
              ErrorIsFinal(lines, i + 1);
              return;
            }
            var key, value := parts[0], parts[1];
            if LOG_PREFIX <= key {
              if key == MAX_SIZE_KEY {
                var n := ParseInt(value);
                if n.None? {
                  assert LineEffect(line) == Err(InvalidLiteral(value));
                  r := Err(InvalidLiteral(value));
                  ErrorIsFinal(lines, i + 1);
                  return;
                }
                assert LineEffect(line) == Ok(Some(LogEntry(key, IntValue(n.value))));
                logConfig := logConfig[key := IntValue(n.value)];
              } else {
                assert LineEffect(line) == Ok(Some(LogEntry(key, StrValue(value))));
                logConfig := logConfig[key := StrValue(value)];
              }
            } else {
              assert LineEffect(line) == Ok(Some(DeviceEntry(key, value)));
              devices := Insert(devices, key, value);
            }
          } else {
            assert LineEffect(line) == Ok(None);
          }
          i := i + 1;
        }
        assert lines[..i] == lines;
        return Ok(Config(devices, logConfig));
    }
  }
}
