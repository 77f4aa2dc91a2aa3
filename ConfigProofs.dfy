/**
 * What load_config promises about its result, each stated against an
 * independent description of the file: which lines are ignored, where a
 * line routes its key, which occurrence of a key wins, in what order the
 * devices come out, and when reading fails.
 *
 * The inductions run over the sequence of per-line effects (Effects), so
 * that they never have to look inside the text functions.
 */
module ConfigProofs {
  import opened Wrappers
  import opened Text
  import opened Config

  predicate LineFails(line: string) {
    LineEffect(line).Err?
  }

  /** The device names a run of line effects assigns, in order, repeats included. */
  function DeviceKeys(es: seq<Effect>): seq<string> {
    if es == [] then []
    else
      DeviceKeys(es[..|es| - 1]) +
      match es[|es| - 1]
      case Ok(Some(DeviceEntry(n, _))) => [n]
      case _ => []
  }

  /** The address of the last effect that assigns `name`. */
  function LastAddress(es: seq<Effect>, name: string): Option<string> {
    if es == [] then None
    else
      match es[|es| - 1]
      case Ok(Some(DeviceEntry(n, a))) => if n == name then Some(a) else LastAddress(es[..|es| - 1], name)
      case _ => LastAddress(es[..|es| - 1], name)
  }

  /** The value of the last effect that sets the logging key `key`. */
  function LastLogValue(es: seq<Effect>, key: string): Option<LogValue> {
    if es == [] then None
    else
      match es[|es| - 1]
      case Ok(Some(LogEntry(k, v))) => if k == key then Some(v) else LastLogValue(es[..|es| - 1], key)
      case _ => LastLogValue(es[..|es| - 1], key)
  }

  /** Every effect routes its key as LineEffect does. */
  predicate WellRouted(es: seq<Effect>) {
    forall i :: 0 <= i < |es| ==> RoutedEffect(es[i])
  }

  predicate RoutedEffect(e: Effect) {
    match e
    case Ok(Some(DeviceEntry(n, _))) => !(LOG_PREFIX <= n)
    case Ok(Some(LogEntry(k, v))) => LOG_PREFIX <= k && (k == MAX_SIZE_KEY <==> v.IntValue?)
    case _ => true
  }

  lemma EffectsAreRouted(ls: seq<string>)
    ensures WellRouted(Effects(ls))
  {
    forall i | 0 <= i < |ls| ensures RoutedEffect(Effects(ls)[i]) {
      LineEffectIsRouted(ls[i]);
    }
  }

  lemma LineEffectIsRouted(line: string)
    ensures RoutedEffect(LineEffect(line))
  {
    var e := LineEffect(line);
    match e
    case Ok(Some(DeviceEntry(n, _))) =>
    case Ok(Some(LogEntry(k, v))) =>
    case _ =>
  }

  /** The elements of s in the order of their first appearance. */
  function Dedup<T(==)>(s: seq<T>): seq<T> {
    if s == [] then []
    else if s[|s| - 1] in s[..|s| - 1] then Dedup(s[..|s| - 1])
    else Dedup(s[..|s| - 1]) + [s[|s| - 1]]
  }

  /** Position of the first occurrence of x in s. */
  function IndexOf<T(==)>(s: seq<T>, x: T): (k: nat)
    requires x in s
    ensures k < |s| && s[k] == x && x !in s[..k]
  {
    if x in s[..|s| - 1] then
      var k := IndexOf(s[..|s| - 1], x);
      assert s[..|s| - 1][..k] == s[..k];
      k
    else
      |s| - 1
  }

  lemma {:induction false} DedupMembers<T>(s: seq<T>)
    ensures forall x :: x in Dedup(s) <==> x in s
    ensures Distinct(Dedup(s))
  {
    if s != [] {
      var p := s[..|s| - 1];
      DedupMembers(p);
      assert s == p + [s[|s| - 1]];
      var d := Dedup(p);
      if s[|s| - 1] !in p {
        assert forall i :: 0 <= i < |d| ==> (d + [s[|s| - 1]])[i] == d[i];
      }
    }
  }

  lemma IndexOfPrefix<T>(s: seq<T>, y: T, x: T)
    requires x in s
    ensures x in s + [y] && IndexOf(s + [y], x) == IndexOf(s, x)
  {
    assert (s + [y])[..|s + [y]| - 1] == s;
  }

  /** Dedup keeps the order of first appearance. */
  lemma {:induction false} DedupKeepsFirstAppearanceOrder<T>(s: seq<T>)
    ensures forall x :: x in Dedup(s) ==> x in s
    ensures forall p, q :: 0 <= p < q < |Dedup(s)| ==> IndexOf(s, Dedup(s)[p]) < IndexOf(s, Dedup(s)[q])
  {
    DedupMembers(s);
    if s != [] {
      var pre := s[..|s| - 1];
      var x := s[|s| - 1];
      assert s == pre + [x];
      DedupKeepsFirstAppearanceOrder(pre);
      DedupMembers(pre);
      var d := Dedup(pre);
      forall y | y in d ensures IndexOf(s, y) == IndexOf(pre, y) {
        IndexOfPrefix(pre, x, y);
      }
      if x !in pre {
        var d' := d + [x];
        assert IndexOf(s, x) == |s| - 1;
        forall p, q | 0 <= p < q < |d'|
          ensures IndexOf(s, d'[p]) < IndexOf(s, d'[q])
        {
          assert d'[p] == d[p];
          if q < |d| {
            assert d'[q] == d[q];
          } else {
            assert d'[q] == x;
            assert IndexOf(s, d[p]) == IndexOf(pre, d[p]) < |pre|;
          }
        }
      }
    }
  }

  // ---------------------------------------------------------------------------
  // Inductions over line effects

  lemma FoldOkPrefix(es: seq<Effect>)
    requires es != [] && Fold(Ok(InitialConfig()), es).Ok?
    ensures Fold(Ok(InitialConfig()), es[..|es| - 1]).Ok?
  {
  }

  lemma {:induction false} FoldFailure(es: seq<Effect>)
    ensures Fold(Ok(InitialConfig()), es).Err? <==> exists i :: 0 <= i < |es| && es[i].Err?
    ensures Fold(Ok(InitialConfig()), es).Err? ==>
      exists i :: (0 <= i < |es| && es[i].Err?
        && (forall j :: 0 <= j < i ==> es[j].Ok?)
        && Fold(Ok(InitialConfig()), es).error == es[i].error)
  {
    if es != [] {
      var p := es[..|es| - 1];
      var last := es[|es| - 1];
      FoldFailure(p);
      assert forall i :: 0 <= i < |p| ==> es[i] == p[i];
      if Fold(Ok(InitialConfig()), p).Ok? {
        assert forall i :: 0 <= i < |p| ==> es[i].Ok?;
        if last.Ok? {
          forall i | 0 <= i < |es| ensures es[i].Ok? {
            if i == |p| { assert es[i] == last; }
          }
        }
      }
    }
  }

  lemma {:induction false} FoldDevices(es: seq<Effect>)
    requires Fold(Ok(InitialConfig()), es).Ok?
    ensures Names(Fold(Ok(InitialConfig()), es).value.devices) == Dedup(DeviceKeys(es))
    ensures forall name :: Lookup(Fold(Ok(InitialConfig()), es).value.devices, name) == LastAddress(es, name)
  {
    if es != [] {
      var p := es[..|es| - 1];
      FoldOkPrefix(es);
      FoldDevices(p);
      var keys := DeviceKeys(p);
      DedupMembers(keys);
      match es[|es| - 1]
      case Ok(Some(DeviceEntry(n, a))) =>
        assert DeviceKeys(es) == keys + [n];
        assert (keys + [n])[..|keys + [n]| - 1] == keys;
      case Ok(Some(LogEntry(_, _))) =>
        assert DeviceKeys(es) == keys + [] == keys;
      case Ok(None) =>
        assert DeviceKeys(es) == keys + [] == keys;
      case Err(_) =>
    }
  }

  lemma {:induction false} FoldLogConfig(es: seq<Effect>)
    requires Fold(Ok(InitialConfig()), es).Ok?
    ensures forall key :: key in Fold(Ok(InitialConfig()), es).value.logConfig <==>
      key in DEFAULT_LOG_CONFIG || LastLogValue(es, key).Some?
    ensures forall key :: key in Fold(Ok(InitialConfig()), es).value.logConfig ==>
      Fold(Ok(InitialConfig()), es).value.logConfig[key] ==
        if LastLogValue(es, key).Some? then LastLogValue(es, key).value else DEFAULT_LOG_CONFIG[key]
  {
    if es != [] {
      FoldOkPrefix(es);
      FoldLogConfig(es[..|es| - 1]);
    }
  }

  lemma {:induction false} DeviceKeysAreNotLogKeys(es: seq<Effect>)
    requires WellRouted(es)
    ensures forall k :: k in DeviceKeys(es) ==> !(LOG_PREFIX <= k)
  {
    if es != [] {
      var p := es[..|es| - 1];
      assert WellRouted(p) by {
        forall i | 0 <= i < |p| ensures RoutedEffect(p[i]) { assert p[i] == es[i]; }
      }
      DeviceKeysAreNotLogKeys(p);
      assert RoutedEffect(es[|es| - 1]);
    }
  }

  lemma FoldIsRouted(es: seq<Effect>)
    requires WellRouted(es) && Fold(Ok(InitialConfig()), es).Ok?
    ensures forall d :: d in Fold(Ok(InitialConfig()), es).value.devices ==> !(LOG_PREFIX <= d.name)
    ensures forall key :: key in Fold(Ok(InitialConfig()), es).value.logConfig ==> LOG_PREFIX <= key
  {
    FoldDevicesRouted(es);
    FoldLogRouted(es);
  }

  lemma FoldDevicesRouted(es: seq<Effect>)
    requires WellRouted(es) && Fold(Ok(InitialConfig()), es).Ok?
    ensures forall d :: d in Fold(Ok(InitialConfig()), es).value.devices ==> !(LOG_PREFIX <= d.name)
  {
    FoldDevices(es);
    DeviceKeysAreNotLogKeys(es);
    NamesAvoidLogPrefix(Fold(Ok(InitialConfig()), es).value.devices, DeviceKeys(es));
  }

  lemma NamesAvoidLogPrefix(ds: seq<Device>, keys: seq<string>)
    requires Names(ds) == Dedup(keys) && forall k :: k in keys ==> !(LOG_PREFIX <= k)
    ensures forall d :: d in ds ==> !(LOG_PREFIX <= d.name)
  {
    DedupMembers(keys);
    forall d | d in ds ensures !(LOG_PREFIX <= d.name) {
      var i :| 0 <= i < |ds| && ds[i] == d;
      assert Names(ds)[i] == d.name;
      assert d.name in Dedup(keys);
      assert d.name in keys;
    }
  }

  lemma FoldLogRouted(es: seq<Effect>)
    requires WellRouted(es) && Fold(Ok(InitialConfig()), es).Ok?
    ensures forall key :: key in Fold(Ok(InitialConfig()), es).value.logConfig ==> LOG_PREFIX <= key
  {
    var c := Fold(Ok(InitialConfig()), es).value;
    FoldLogConfig(es);
    forall key | key in c.logConfig ensures LOG_PREFIX <= key {
      if LastLogValue(es, key).Some? { LastLogValueIsLogKey(es, key); }
    }
  }

  lemma {:induction false} LastLogValueIsLogKey(es: seq<Effect>, key: string)
    requires WellRouted(es) && LastLogValue(es, key).Some?
    ensures LOG_PREFIX <= key
    ensures key == MAX_SIZE_KEY ==> LastLogValue(es, key).value.IntValue?
  {
    var p := es[..|es| - 1];
    assert WellRouted(p) by {
      forall i | 0 <= i < |p| ensures RoutedEffect(p[i]) { assert p[i] == es[i]; }
    }
    assert RoutedEffect(es[|es| - 1]);
    match es[|es| - 1]
    case Ok(Some(LogEntry(k, v))) =>
      if k != key { LastLogValueIsLogKey(p, key); }
    case _ =>
      LastLogValueIsLogKey(p, key);
  }

  lemma {:induction false} LastAddressSkipsUnrelated(a: seq<Effect>, b: seq<Effect>, name: string)
    requires name !in DeviceKeys(b)
    ensures LastAddress(a + b, name) == LastAddress(a, name)
    decreases |b|
  {
    if b == [] {
      assert a + b == a;
    } else {
      var b' := b[..|b| - 1];
      assert (a + b)[..|a + b| - 1] == a + b';
      assert (a + b)[|a + b| - 1] == b[|b| - 1];
      assert DeviceKeys(b) == DeviceKeys(b') + DeviceKeys(b)[|DeviceKeys(b')|..];
      LastAddressSkipsUnrelated(a, b', name);
    }
  }

  // ---------------------------------------------------------------------------
  // Properties of load_config, line by line

  /**
   * Reading fails exactly when some line fails, and the exception raised
   * is that of the first failing line.
   */
  lemma ParseFailsAtFirstBadLine(ls: seq<string>)
    ensures ParseLines(ls).Err? <==> exists i :: 0 <= i < |ls| && LineFails(ls[i])
    ensures ParseLines(ls).Err? ==>
      exists i :: 0 <= i < |ls| && LineFails(ls[i])
        && (forall j :: 0 <= j < i ==> !LineFails(ls[j]))
        && ParseLines(ls).error == LineEffect(ls[i]).error
  {
    FoldFailure(Effects(ls));
  }

  /** Comment and blank lines change neither the devices nor the logging settings. */
  lemma SkippedLineChangesNothing(a: seq<string>, line: string, b: seq<string>)
    requires IsSkipped(line)
    ensures ParseLines(a + [line] + b) == ParseLines(a + b)
  {
    var r := Ok(InitialConfig());
    EffectsAppend(a + [line], b);
    EffectsAppend(a, [line]);
    EffectsAppend(a, b);
    FoldAppend(r, Effects(a) + Effects([line]), Effects(b));
    FoldAppend(r, Effects(a), Effects([line]));
    FoldAppend(r, Effects(a), Effects(b));
    assert Effects([line]) == [Ok(None)];
    assert Effects([line])[..0] == [];
  }

  /**
   * The registry lists each device name of the file once, in the order of
   * first appearance, with the address of the last line naming it.
   */
  lemma ParsedDevices(ls: seq<string>)
    requires ParseLines(ls).Ok?
    ensures Names(ParseLines(ls).value.devices) == Dedup(DeviceKeys(Effects(ls)))
    ensures Distinct(Names(ParseLines(ls).value.devices))
    ensures forall name :: Lookup(ParseLines(ls).value.devices, name) == LastAddress(Effects(ls), name)
  {
    FoldDevices(Effects(ls));
    DedupMembers(DeviceKeys(Effects(ls)));
  }

  /** Whatever load_config returns registers each device name once. */
  lemma ConfiguredNamesDistinct(file: ConfigFile)
    requires ParseConfig(file).Ok?
    ensures Distinct(Names(ParseConfig(file).value.devices))
  {
    if file.Lines? {
      ParsedDevices(file.lines);
    }
  }

  /** The registry's order is the order in which the names first appear in the file. */
  lemma DevicesInFirstAppearanceOrder(ls: seq<string>)
    requires ParseLines(ls).Ok?
    ensures var names := Names(ParseLines(ls).value.devices);
      var keys := DeviceKeys(Effects(ls));
      (forall n :: n in names <==> n in keys)
      && forall p, q :: 0 <= p < q < |names| ==> IndexOf(keys, names[p]) < IndexOf(keys, names[q])
  {
    ParsedDevices(ls);
    DedupMembers(DeviceKeys(Effects(ls)));
    DedupKeepsFirstAppearanceOrder(DeviceKeys(Effects(ls)));
  }

  /**
   * The logging settings are the four defaults, each replaced by the value
   * of the last line that sets it, plus every other `LOG_` key the file sets.
   */
  lemma ParsedLogConfig(ls: seq<string>)
    requires ParseLines(ls).Ok?
    ensures forall key :: key in ParseLines(ls).value.logConfig <==>
      key in DEFAULT_LOG_CONFIG || LastLogValue(Effects(ls), key).Some?
    ensures forall key :: key in ParseLines(ls).value.logConfig ==>
      ParseLines(ls).value.logConfig[key] ==
        if LastLogValue(Effects(ls), key).Some? then LastLogValue(Effects(ls), key).value
        else DEFAULT_LOG_CONFIG[key]
  {
    FoldLogConfig(Effects(ls));
  }

  /** Device names never start with `LOG_`, and every logging key does. */
  lemma RoutingIsSeparate(ls: seq<string>)
    requires ParseLines(ls).Ok?
    ensures forall d :: d in ParseLines(ls).value.devices ==> !(LOG_PREFIX <= d.name)
    ensures forall key :: key in ParseLines(ls).value.logConfig ==> LOG_PREFIX <= key
  {
    EffectsAreRouted(ls);
    FoldIsRouted(Effects(ls));
  }

  /** After a successful read `LOG_MAX_SIZE` is always present and always an integer. */
  lemma MaxSizeIsAlwaysInteger(ls: seq<string>)
    requires ParseLines(ls).Ok?
    ensures MAX_SIZE_KEY in ParseLines(ls).value.logConfig
    ensures ParseLines(ls).value.logConfig[MAX_SIZE_KEY].IntValue?
  {
    var es := Effects(ls);
    EffectsAreRouted(ls);
    FoldLogConfig(es);
    if LastLogValue(es, MAX_SIZE_KEY).Some? { LastLogValueIsLogKey(es, MAX_SIZE_KEY); }
  }

  /** A later line for the same device overwrites the address of an earlier one. */
  lemma LaterLineWins(a: seq<string>, line: string, b: seq<string>, name: string, address: string)
    requires LineEffect(line) == Ok(Some(DeviceEntry(name, address)))
    requires name !in DeviceKeys(Effects(b))
    requires ParseLines(a + [line] + b).Ok?
    ensures Lookup(ParseLines(a + [line] + b).value.devices, name) == Some(address)
  {
    ParsedDevices(a + [line] + b);
    EffectsAppend(a + [line], b);
    EffectsAppend(a, [line]);
    LastAddressSkipsUnrelated(Effects(a + [line]), Effects(b), name);
    var ea := Effects(a + [line]);
    assert ea[..|ea| - 1] == Effects(a);
    assert ea[|ea| - 1] == LineEffect(line);
  }

  // ---------------------------------------------------------------------------
  // What one line does

  /**
   * The key is the first token of the stripped line and the value what
   * follows the whitespace run after it; the key decides where it goes.
   */
  lemma LineSplitsAtFirstSpace(line: string, lead: string, key: string, gap: string, value: string, trail: string)
    requires line == lead + key + gap + value + trail && !("#" <= line)
    requires AllSpace(lead) && AllSpace(trail)
    requires key != [] && NoSpace(key) && gap != [] && AllSpace(gap)
    requires value != [] && NoEdgeSpace(value)
    ensures LineEffect(line) ==
      if LOG_PREFIX <= key then
        if key == MAX_SIZE_KEY then
          match ParseInt(value)
          case None => Err(InvalidLiteral(value))
          case Some(n) => Ok(Some(LogEntry(key, IntValue(n))))
        else Ok(Some(LogEntry(key, StrValue(value))))
      else Ok(Some(DeviceEntry(key, value)))
  {
    var m := key + gap + value;
    assert m[0] == key[0] && m[|m| - 1] == value[|value| - 1];
    assert line == lead + m + trail;
    StripOfPadded(lead, m, trail);
    SplitOnceOfPair(key, gap, value);
  }

  /** A line that holds a single token raises "not enough values to unpack". */
  lemma OneTokenLineFails(line: string, lead: string, token: string, trail: string)
    requires line == lead + token + trail && !("#" <= line)
    requires AllSpace(lead) && AllSpace(trail) && token != [] && NoSpace(token)
    ensures LineEffect(line) == Err(NotEnoughValues(1))
  {
    StripOfPadded(lead, token, trail);
    SplitOnceOfToken(token);
  }

  /** `LOG_MAX_SIZE <n>` is stored as the integer n. */
  lemma MaxSizeLineIsInteger(n: int)
    ensures LineEffect(MAX_SIZE_KEY + " " + SignedDecimal(n)) == Ok(Some(LogEntry(MAX_SIZE_KEY, IntValue(n))))
  {
    var v := SignedDecimal(n);
    var d := Decimal(if n < 0 then -n else n);
    assert v != [] && NoEdgeSpace(v) by {
      assert v[|v| - 1] == d[|d| - 1];
    }
    var line := MAX_SIZE_KEY + " " + v;
    assert line[0] == 'L';
    assert NoSpace(MAX_SIZE_KEY);
    ParseIntOfDecimal(n);
    assert line == [] + MAX_SIZE_KEY + " " + v + [];
    LineSplitsAtFirstSpace(line, [], MAX_SIZE_KEY, " ", v, []);
  }

  /** `#` is only a comment in the first column: an indented comment is read as a device. */
  lemma IndentedCommentIsADevice()
    ensures LineEffect("  # spare\n") == Ok(Some(DeviceEntry("#", "spare")))
  {
    var line := "  # spare\n";
    assert line[0] == ' ';
    assert NoSpace("#") && NoEdgeSpace("spare");
    assert line == "  " + "#" + " " + "spare" + "\n";
    LineSplitsAtFirstSpace(line, "  ", "#", " ", "spare", "\n");
  }
}
