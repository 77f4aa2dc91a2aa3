# Device monitor: a Dafny model of its monitoring engine

`device_monitor.py` is a small desktop tool that watches a handful of Android
devices over `adb`. It reads a registry of devices and logging settings from
`devices.config`. Then it loops forever. In each cycle it resets the adb server,
connects to every device, and checks each device in registry order: are
Pokémon Go or the GoCheats launcher installed, and has the GC service written
anything to its `Exeggcute` log. Unless either package is reported, it reboots
the device. It pushes one status line per device to the window and sleeps
between devices and between cycles. An operator can also ask for a "Restart
GC" on a device: force-stop Pokémon Go, wait, start the launcher.

The model has these modules:

- `Wrappers` holds `Option` and `Result`.
- `Text` holds the parts of Python's `str` the code depends on: `strip()`,
  `split(maxsplit=1)`, and `int()` over ASCII digits with PEP 515 underscores.
  It also proves a round trip through `str(n)`.
- `Config` holds `load_config`. It is an imperative method, `LoadConfig`,
  over the lines of the file, proved equal to a fold over their effects
  (`ParseLines`). `ConfigProofs` proves what that fold promises:
  - skipped lines;
  - routing of `LOG_` keys;
  - first-appearance order of devices;
  - later lines winning;
  - defaults;
  - the first bad line deciding the error.
- `Adb` holds the commands the monitor issues and the replies a shell can give.
  It also holds the three probe predicates and the verdict.
- `Trace` holds what the application does, as a sequence of events: commands
  run with their replies, log entries, sleeps, status pushes. It also holds
  the projections of that sequence: `Commands`, `Sleeps`, `Publications`,
  `Verdicts`, `Runs` and `Dumps`.
- `Monitor` holds a specification function for each operation of
  `DeviceMonitorApp`. Each one maps the history so far to the history after
  the operation. The module also holds the class `DeviceMonitorApp`. Its
  methods mutate a `trace` field and are proved to produce exactly what the
  specification functions say.
- `MonitorProofs` holds what those functions promise:
  - single attempts;
  - exact-match and non-empty tests;
  - reboot iff neither package is reported;
  - one status per device in registry order, pushed after the decision;
  - the command order of a cycle;
  - the sleep pattern of a cycle and its total of 5n + 5·max(n−1, 0) + 30
    seconds;
  - one status per device in every one of k cycles.

The shell and the devices are an oracle, `Trace.Shell`. It holds two functions
from the history so far and a command: one for an untimed `subprocess.run`,
and one for the timed logcat dump. A reply can therefore differ from call to
call. The command is passed as an `Adb.AdbCommand` value rather than as its
text. `Adb.CommandLine` gives the exact shell text the source builds for each
command, and `Adb.CommandLineInjective` shows that distinct commands have
distinct texts whenever the device addresses hold no whitespace, so keying
the oracle on the value loses nothing for such registries.

## Model

| member | source | states |
|---|---|---|
| Text.Strip | device_monitor.py:46-48 | `line.strip()`: the result is a slice of the input with only whitespace cut from both ends; no whitespace is left at either end; it is empty iff the input is all whitespace |
| Text.SplitOnce | device_monitor.py:48 | `split(maxsplit=1)`: at most two parts; none iff the input is all whitespace; the first part is a non-empty run without whitespace; a second part starts with a non-whitespace character |
| Text.SplitOnceOfPair | device_monitor.py:48 | `key<gap>value` splits into exactly `[key, value]`, for a non-empty key without whitespace, a whitespace gap and a value starting with non-whitespace; whitespace inside the value is kept |
| Text.SplitOnceOfToken | device_monitor.py:48 | a single token splits into one part |
| Text.StripOfPadded | device_monitor.py:48 | whitespace around a core that has no whitespace at its ends is stripped back to that core |
| Text.ParseIntOfDecimal | device_monitor.py:50 | `int(str(n)) == n` for every integer n, negative ones included, with no limit on the digit count (see Left out) |
| Text.ParseIntOfPadded | device_monitor.py:50 | `int()` accepts `str.isspace()` whitespace, an optional `+` or `-`, a digit run (single underscores between digits allowed) and such whitespace, and returns the signed value of the digits (see Left out for U+001C to U+001F) |
| Text.ParseIntIsPadded | device_monitor.py:50 | every text the model's `int()` accepts has exactly that shape, and the result is the signed value of its digits |
| Text.ParseIntOfStripped | device_monitor.py:50 | on a text with no whitespace at either end, `int()` trims nothing and reads the text as it is |
| Text.SecondPartIsStripped | device_monitor.py:48-50 | the value that `line.strip().split(maxsplit=1)` hands to `int()` has no whitespace at either end, so `int()` trims nothing from it |
| Text.ParseIntRejectsUnits | device_monitor.py:50 | a size written with its unit, `5MB` or `5 MB`, raises ValueError |
| Text.ParseIntRejectsEmpty | device_monitor.py:50 | an empty text and a bare sign raise ValueError |
| Text.ParseIntRejectsLiterals | device_monitor.py:50 | a hexadecimal literal `0x10` and doubled underscores `1__0` raise ValueError |
| Config.Insert | device_monitor.py:52 | `devices[key] = value` on an insertion-ordered dict: a known name keeps its position; a new name is appended; the lookup changes for that name only |
| Config.InsertKeepsDistinct | device_monitor.py:52 | insertion keeps the device names distinct |
| Config.IsSkipped | device_monitor.py:46-47 | a line is skipped iff the raw line starts with `#` or is all whitespace |
| Config.LineEffect | device_monitor.py:46-52 | a line has no effect iff it is skipped; a device entry never has a `LOG_` name; a logging entry always has a `LOG_` key, and its value is an integer iff the key is `LOG_MAX_SIZE` |
| Config.FoldAppend | device_monitor.py:45-52 | reading `a + b` is reading `a` and then `b` |
| Config.ErrorIsFinal | device_monitor.py:43-53 | once a line raises, later lines change nothing |
| Config.LoadConfig | device_monitor.py:37-56 | the loop over the lines returns exactly `ParseConfig(file)`; a missing file gives no devices and the default log settings; an unreadable file gives an error |
| ConfigProofs.ParseFailsAtFirstBadLine | device_monitor.py:45-52 | reading fails iff some line raises, and then the error is that of the first such line |
| ConfigProofs.SkippedLineChangesNothing | device_monitor.py:46-47 | inserting a comment or blank line anywhere leaves the result unchanged |
| ConfigProofs.ConfiguredNamesDistinct | device_monitor.py:37-56 | whatever `load_config` returns, a missing file included, names each device once |
| ConfigProofs.ParsedDevices | device_monitor.py:49-52 | the registry names are the non-`LOG_` keys without duplicates, kept distinct; each one maps to the address of its last line |
| ConfigProofs.DevicesInFirstAppearanceOrder | device_monitor.py:38-52 | the registry holds exactly the device keys of the file, ordered by where each first appears |
| ConfigProofs.ParsedLogConfig | device_monitor.py:39-50 | the log settings hold the four defaults plus every `LOG_` key of the file; each maps to its last value in the file, or else to its default |
| ConfigProofs.RoutingIsSeparate | device_monitor.py:49-52 | no device name starts with `LOG_` and every logging key does |
| ConfigProofs.MaxSizeIsAlwaysInteger | device_monitor.py:39-50 | after a successful read `LOG_MAX_SIZE` is present and is an integer |
| ConfigProofs.LaterLineWins | device_monitor.py:52 | a device line not overridden later decides that device's address |
| ConfigProofs.LineSplitsAtFirstSpace | device_monitor.py:48-52 | a padded `key gap value` line becomes a logging entry (integer or string) or a device entry, by its key, or raises the `int()` error |
| ConfigProofs.OneTokenLineFails | device_monitor.py:48 | a one-token line raises "not enough values to unpack (expected 2, got 1)" |
| ConfigProofs.MaxSizeLineIsInteger | device_monitor.py:50 | `LOG_MAX_SIZE <n>` is stored as the integer n |
| ConfigProofs.IndentedCommentIsADevice | device_monitor.py:46 | an indented `# spare` line is read as device `#` with address `spare` |
| Adb.RunValue | device_monitor.py:153-158 | the result is None iff the command raised a `SubprocessError`; otherwise it is stdout with only whitespace cut from both ends, has no edge whitespace, and is empty iff stdout was all whitespace |
| Adb.CommandLineInjective | device_monitor.py:74-167 | the command texts built at lines 74, 75, 78, 131, 132, 140, 161 and 167 are equal iff the commands are, for addresses without whitespace |
| Adb.PackageListedIff | device_monitor.py:160-163 | for a package name that does not end in whitespace, the package counts as listed iff the command completed and its stdout is `package:<name>` with only whitespace around it |
| Adb.ExtraPackageHidesListed | device_monitor.py:161-163 | an output that lists a second matching package does not count as listing the package |
| Adb.GcActive | device_monitor.py:169-181 | the GC service counts as active iff the dump finished and printed something other than whitespace; a timeout counts as inactive |
| Adb.Decide | device_monitor.py:202-208 | running iff either package is listed; otherwise frozen iff the GC log is active, and not running iff it is not |
| Monitor.DeviceMonitorApp.constructor | device_monitor.py:27-30 | when `load_config` succeeds on the file, the application starts with exactly the registry and log settings it returns, distinct device names and an empty history |
| Monitor.DeviceMonitorApp.Log | device_monitor.py:118-127 | appends one log entry to the history |
| Monitor.DeviceMonitorApp.UpdateDeviceStatus | device_monitor.py:143-150 | appends one status push (name, Pokémon Go flag, GC flag) |
| Monitor.DeviceMonitorApp.RunAdbCommand | device_monitor.py:152-158 | returns and records exactly what the single-attempt `Run` specifies |
| Monitor.DeviceMonitorApp.CheckPackageStatus | device_monitor.py:160-163 | returns and records exactly `CheckPackage` |
| Monitor.DeviceMonitorApp.CheckGcServiceStatus | device_monitor.py:165-181 | returns and records exactly `CheckGc`, the timed dump |
| Monitor.DeviceMonitorApp.ResetAdbServer | device_monitor.py:72-80 | the loop over the registry produces exactly `ResetServer` |
| Monitor.DeviceMonitorApp.RestartGcServices | device_monitor.py:129-136 | produces exactly `RestartGc` |
| Monitor.DeviceMonitorApp.AutoRestartServices | device_monitor.py:138-141 | produces exactly `AutoRestart` |
| Monitor.DeviceMonitorApp.RunProbes | device_monitor.py:195-199 | returns the three results of `ProbeDevice` and records its history |
| Monitor.DeviceMonitorApp.ReportVerdict | device_monitor.py:201-209 | produces exactly `React`: the logged verdict, then a reboot unless a package was listed |
| Monitor.DeviceMonitorApp.CheckDeviceAt | device_monitor.py:190-218 | one pass of the device loop produces exactly `CheckDevice` |
| Monitor.DeviceMonitorApp.MonitorCycle | device_monitor.py:184-222 | one iteration of the endless loop produces exactly `Cycle` |
| Monitor.DeviceMonitorApp.MonitorDevices | device_monitor.py:183-222 | k iterations produce exactly `Cycles(k)` |
| MonitorProofs.RunSingleAttempt | device_monitor.py:152-158 | one command, one recorded reply, no retry; the value is `RunValue` of that reply; a failure adds one log entry; nothing is slept or pushed |
| MonitorProofs.CheckPackageShape | device_monitor.py:160-163 | the package check issues one `pm list packages` and is true iff its stripped output is exactly `package:<name>` |
| MonitorProofs.CheckGcShape | device_monitor.py:165-181 | the GC check issues one `logcat -d -s Exeggcute` with its timeout, and is true iff the dump printed non-whitespace; a timeout gives false |
| MonitorProofs.AutoRestartShape | device_monitor.py:138-141 | the automatic action logs and then issues exactly one `reboot` |
| MonitorProofs.RestartGcShape | device_monitor.py:129-136 | the manual restart issues force-stop, sleeps 5 seconds, then issues `am start`, in that order and nothing else |
| MonitorProofs.ConnectShape | device_monitor.py:77-80 | the connect loop issues `adb connect` for every device in registry order and neither sleeps nor pushes |
| MonitorProofs.RestartServerShape | device_monitor.py:73-75 | the reset logs first, then kills and starts the adb server |
| MonitorProofs.ResetShape | device_monitor.py:72-80 | the reset logs first, then issues kill-server, start-server and one connect per device in order, and nothing else |
| MonitorProofs.ProbeCommands | device_monitor.py:195-199 | probing a device issues the two package queries and then the dump, and nothing else |
| MonitorProofs.ProbeShape | device_monitor.py:195-199 | the three probe results are exactly the predicates over the replies recorded for those three commands |
| MonitorProofs.ReactShape | device_monitor.py:202-209 | the verdict is logged and a reboot follows iff the verdict is not "running" |
| MonitorProofs.CheckDeviceCommands | device_monitor.py:190-209 | a device pass issues two package queries, one dump, then a reboot iff neither package was listed |
| MonitorProofs.CheckDeviceReports | device_monitor.py:190-212 | a device pass logs one verdict and pushes one status, carrying the probe results for that device |
| MonitorProofs.CheckDeviceSleeps | device_monitor.py:214-218 | a device pass sleeps 5 seconds, plus 5 more unless it is the last device |
| MonitorProofs.CheckDevicePublishesAfterDeciding | device_monitor.py:202-218 | the status push comes after every command and verdict of the pass; only the sleeps follow it |
| MonitorProofs.CheckDeviceOnePass | device_monitor.py:190-209 | a device pass logs one verdict, for that device, and issues two package queries and the dump at its address, then a reboot iff that verdict is not "running" |
| MonitorProofs.CheckFromNames | device_monitor.py:190-212 | the device loop pushes one status per device, in registry order |
| MonitorProofs.CheckFromSleeps | device_monitor.py:190-218 | the device loop sleeps 5 seconds 2n−1 times over n devices, and not at all when there are none |
| MonitorProofs.CheckFromCommands | device_monitor.py:190-209 | the device loop logs one verdict per device in registry order and issues, device by device, two package queries and the dump at its address, then a reboot iff its verdict is not "running" |
| MonitorProofs.TailCommands | device_monitor.py:190-222 | after the reset, a cycle issues exactly the device loop's blocks and logs one verdict per device in registry order |
| MonitorProofs.CycleEnds | device_monitor.py:220-222 | a cycle ends with the waiting log entry and the 30-second sleep |
| MonitorProofs.CycleCommands | device_monitor.py:185-209 | a cycle issues kill-server, start-server, the connects in registry order, then for each device in registry order its two package queries and dump, followed by a reboot exactly when the verdict logged for it is not "running"; nothing else |
| MonitorProofs.CycleNames | device_monitor.py:185-212 | a cycle pushes exactly one status per device, in registry order |
| MonitorProofs.CycleSleepsShape | device_monitor.py:185-222 | the sleeps of a cycle over n devices are 2n−1 (or 0) sleeps of 5 seconds, then 30 |
| MonitorProofs.CycleSleepTotal | device_monitor.py:214-222 | a cycle over n devices sleeps 5n + 5·max(n−1, 0) + 30 seconds in all |
| MonitorProofs.CyclesSleepTotal | device_monitor.py:183-222 | k cycles sleep k times the single-cycle total |
| MonitorProofs.CyclesNames | device_monitor.py:183-212 | k cycles push k·n statuses, and every block of n is the registry's names in order |

## Left out

- The tkinter window is not modelled: `setup_ui`, `add_logo`, the labels and the "Restart GC" button. A status update is a `Published` event, and the button is the `RestartGcServices` method.
- `configure_logging` and the module-level `logging.basicConfig` are not modelled. The log settings are only read and stored.
- Log messages are `LogEntry` values, not formatted text. Time stamps (`time.strftime`) are left out.
- The background thread and `root.after` scheduling are left out. The model is sequential.
- The endless `while True` loop is bounded by the `cycles` parameter of `MonitorDevices`.
- `time.sleep` does not wait. It becomes a `Slept(seconds)` event.
- The real subprocess is replaced by the `Shell` oracle. Exit codes are not looked at by the source either.
- Monitor.DeviceMonitorApp.RunAdbCommand: the source catches only `SubprocessError`. An `OSError` (the shell cannot be started) and a `UnicodeDecodeError` (the output is not valid text under `text=True`) are not of that class: they leave the call and end the monitoring thread. The oracle has no such reply, so the trace lemmas (`CycleCommands`, `CycleNames`, `CyclesNames`, `CyclesSleepTotal` and the others) hold only for runs in which neither is raised.
- Monitor.DeviceMonitorApp.CheckGcServiceStatus: the source catches only `TimeoutExpired`. Any other `SubprocessError`, an `OSError` and a `UnicodeDecodeError` from the timed call leave it and end the monitoring thread. The dump oracle has no such reply, so the trace lemmas hold only for runs in which none of these is raised.
- Monitor.DeviceMonitorApp.constructor: requires that `load_config` succeeds. When it raises, `__init__` raises and no application exists, so there is no state to model. The contract also takes for granted that `configure_logging` (device_monitor.py:31) does not raise, although it can on settings `load_config` accepts: a `LOG_PATH` without a directory part makes `os.makedirs('')` raise, and a non-integer `LOG_BACKUP_COUNT` makes `int()` raise.
- Trace.Shell: the oracle is asked with the command value. For an address that holds whitespace, two different commands can share one text (see `Adb.CommandLineInjective`), and the model can still tell their replies apart.
- Config.LoadConfig: the log message written when the file is missing is not recorded.
- Text.ParseInt: Python's `int()` also accepts non-ASCII Unicode digits. The model accepts ASCII digits only. Python 3.11 and later, and the 3.10.7, 3.9.14, 3.8.14 and 3.7.14 security releases, also raise ValueError for a text of more than 4300 digits (`sys.int_max_str_digits`). The model sets no such limit.
- Text.ParseIntOfPadded: the whitespace it allows around the number is that of `str.isspace()`. Python's `int()` does not trim the separators U+001C to U+001F (`int("\x1c5")` raises), and the model does. This cannot show through `load_config`: the value passed to `int()` there is already stripped (`Text.SecondPartIsStripped`).
- Text.ParseIntOfDecimal: under those Python versions it holds only for integers of at most 4300 digits.
- Text.ParseIntOfPadded: under those Python versions it holds only for digit runs of at most 4300 digits.
- ConfigProofs.MaxSizeLineIsInteger: under those Python versions it holds only for values of at most 4300 digits. A longer one raises out of `load_config`.
- Splitting the file into lines is taken as given. `ConfigFile.Lines` holds what file iteration yields, with the newline still at the end of each line.
- The text of Python's exception messages is reduced to the `ConfigError` cases.

## Where the code and its description differ

The model follows the code in each of these cases:

- `run_adb_command` makes a single attempt. It has no retries and no backoff. A failure is logged, and the result is None.
- The GC check is a one-shot `logcat -d` dump with a 10-second timeout. It is not a live stream read up to a deadline. Any non-empty dump counts as activity, old entries included.
- The device is rebooted (`auto_restart_services`) unless a package is listed. The force-stop/start relaunch exists only as the manual action.
- The verdict depends on the package checks first. A device counts as "running" when either package is listed, whatever the GC log shows. The GC log only selects between the "appears frozen" and "not running" messages.
- A malformed configuration line is not skipped. Too few tokens, or a non-integer `LOG_MAX_SIZE`, raises out of `load_config`, and so does an unreadable file. Only a missing file falls back to defaults.
- Only a `#` in the first column starts a comment (`ConfigProofs.IndentedCommentIsADevice`).
- `pm list packages <name>` matches by substring. A device with a second package whose name contains the first one makes the exact comparison fail (`Adb.ExtraPackageHidesListed`).
