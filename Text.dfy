/**
 * The pieces of Python's str behaviour that the monitor relies on:
 * whitespace (str.isspace), str.startswith, str.strip(), str.split(maxsplit=1)
 * and int() in base 10.
 */
module Text {
  import opened Wrappers

  /** Python's whitespace set for str (what strip() and split() remove). */
  predicate IsSpace(c: char) {
    var n := c as int;
    (9 <= n <= 13) || (28 <= n <= 32) || n == 0x85 || n == 0xA0 || n == 0x1680
    || (0x2000 <= n <= 0x200A) || n == 0x2028 || n == 0x2029 || n == 0x202F
    || n == 0x205F || n == 0x3000
  }

  predicate AllSpace(s: string) {
    forall i :: 0 <= i < |s| ==> IsSpace(s[i])
  }

  predicate NoSpace(s: string) {
    forall i :: 0 <= i < |s| ==> !IsSpace(s[i])
  }

  /** Neither the first nor the last character is whitespace. */
  predicate NoEdgeSpace(s: string) {
    s == [] || (!IsSpace(s[0]) && !IsSpace(s[|s| - 1]))
  }

  /** The first position at or after i that is not whitespace, or |s|. */
  function SkipSpace(s: string, i: nat): (k: nat)
    requires i <= |s|
    ensures i <= k <= |s|
    ensures forall j :: i <= j < k ==> IsSpace(s[j])
    ensures k < |s| ==> !IsSpace(s[k])
    decreases |s| - i
  {
    if i < |s| && IsSpace(s[i]) then SkipSpace(s, i + 1) else i
  }

  /** The first position at or after i that is whitespace, or |s|. */
  function SkipToken(s: string, i: nat): (k: nat)
    requires i <= |s|
    ensures i <= k <= |s|
    ensures forall j :: i <= j < k ==> !IsSpace(s[j])
    ensures k < |s| ==> IsSpace(s[k])
    decreases |s| - i
  {
    if i < |s| && !IsSpace(s[i]) then SkipToken(s, i + 1) else i
  }

  /** The least k, not below lo, such that s[k..j] is all whitespace. */
  function SkipSpaceBack(s: string, lo: nat, j: nat): (k: nat)
    requires lo <= j <= |s|
    ensures lo <= k <= j
    ensures forall m :: k <= m < j ==> IsSpace(s[m])
    ensures k > lo ==> !IsSpace(s[k - 1])
    decreases j
  {
    if j > lo && IsSpace(s[j - 1]) then SkipSpaceBack(s, lo, j - 1) else j
  }

  lemma SkipSpaceIs(s: string, i: nat, k: nat)
    requires i <= k <= |s|
    requires forall j :: i <= j < k ==> IsSpace(s[j])
    requires k < |s| ==> !IsSpace(s[k])
    ensures SkipSpace(s, i) == k
  {
    var k' := SkipSpace(s, i);
  }

  lemma SkipTokenIs(s: string, i: nat, k: nat)
    requires i <= k <= |s|
    requires forall j :: i <= j < k ==> !IsSpace(s[j])
    requires k < |s| ==> IsSpace(s[k])
    ensures SkipToken(s, i) == k
  {
    var k' := SkipToken(s, i);
  }

  lemma SkipSpaceBackIs(s: string, lo: nat, j: nat, k: nat)
    requires lo <= k <= j <= |s|
    requires forall m :: k <= m < j ==> IsSpace(s[m])
    requires k > lo ==> !IsSpace(s[k - 1])
    ensures SkipSpaceBack(s, lo, j) == k
  {
    var k' := SkipSpaceBack(s, lo, j);
  }

  /** How many whitespace characters str.strip() removes at the front. */
  function LeadingSpace(s: string): (k: nat)
    ensures k <= |s|
  {
    SkipSpace(s, 0)
  }

  /**
   * str.strip(): the result is a slice of s with only whitespace before
   * and after it, and no whitespace at either of its own ends.
   */
  function Strip(s: string): (r: string)
    ensures LeadingSpace(s) + |r| <= |s| && r == s[LeadingSpace(s)..LeadingSpace(s) + |r|]
    ensures forall j :: 0 <= j < LeadingSpace(s) ==> IsSpace(s[j])
    ensures forall j :: LeadingSpace(s) + |r| <= j < |s| ==> IsSpace(s[j])
    ensures NoEdgeSpace(r)
    ensures AllSpace(s) <==> r == []
  {
    var k := SkipSpace(s, 0);
    var e := SkipSpaceBack(s, k, |s|);
    assert k < e ==> s[k..e][0] == s[k] && s[k..e][e - k - 1] == s[e - 1];
    s[k..e]
  }

  /** The converse of Strip's contract: whatever the framing, strip() recovers the middle. */
  lemma StripOfPadded(a: string, m: string, b: string)
    requires AllSpace(a) && AllSpace(b) && NoEdgeSpace(m)
    ensures Strip(a + m + b) == m
  {
    var s := a + m + b;
    if m == [] {
      assert AllSpace(s) by {
        forall i | 0 <= i < |s| ensures IsSpace(s[i]) {
          if i < |a| { assert s[i] == a[i]; } else { assert s[i] == b[i - |a|]; }
        }
      }
    } else {
      var k := |a|;
      var e := |a| + |m|;
      assert forall j :: 0 <= j < k ==> s[j] == a[j];
      assert forall j :: e <= j < |s| ==> s[j] == b[j - e];
      assert s[k] == m[0] && s[e - 1] == m[|m| - 1];
      SkipSpaceIs(s, 0, k);
      SkipSpaceBackIs(s, k, |s|, e);
      assert s[k..e] == m;
    }
  }

  /**
   * str.split(maxsplit=1): at most two fields; the first is the first
   * whitespace-free token, the second is what follows the whitespace run
   * after it, up to the end of the string.
   */
  function SplitOnce(s: string): (parts: seq<string>)
    ensures |parts| <= 2
    ensures parts == [] <==> AllSpace(s)
    ensures |parts| >= 1 ==> parts[0] != [] && NoSpace(parts[0])
    ensures |parts| == 2 ==> parts[1] != [] && !IsSpace(parts[1][0])
  {
    var k := SkipSpace(s, 0);
    if k == |s| then []
    else
      var e := SkipToken(s, k);
      var j := SkipSpace(s, e);
      assert forall i :: 0 <= i < e - k ==> s[k..e][i] == s[k + i];
      if j == |s| then [s[k..e]] else [s[k..e], s[j..]]
  }

  /** A key, a non-empty whitespace run and a value split exactly into [key, value]. */
  lemma SplitOnceOfPair(key: string, gap: string, value: string)
    requires key != [] && NoSpace(key)
    requires gap != [] && AllSpace(gap)
    requires value != [] && !IsSpace(value[0])
    ensures SplitOnce(key + gap + value) == [key, value]
  {
    var s := key + gap + value;
    var e := |key|;
    var j := |key| + |gap|;
    assert forall i :: 0 <= i < e ==> s[i] == key[i];
    assert forall i :: e <= i < j ==> s[i] == gap[i - e];
    assert s[j] == value[0];
    SkipSpaceIs(s, 0, 0);
    SkipTokenIs(s, 0, e);
    SkipSpaceIs(s, e, j);
    assert s[0..e] == key;
    assert s[j..] == value;
  }

  /** A single token splits into one field only. */
  lemma SplitOnceOfToken(token: string)
    requires token != [] && NoSpace(token)
    ensures SplitOnce(token) == [token]
  {
    SkipSpaceIs(token, 0, 0);
    SkipTokenIs(token, 0, |token|);
    assert token[0..|token|] == token;
  }

  // ---------------------------------------------------------------------------
  // int(s) in base 10

  predicate IsDigit(c: char) {
    '0' <= c <= '9'
  }

  /** Digits with single underscores between them (PEP 515), as int() accepts. */
  predicate IsDigitRun(s: string) {
    && |s| > 0 && IsDigit(s[0]) && IsDigit(s[|s| - 1])
    && forall i :: 0 <= i < |s| ==> IsDigit(s[i]) || (s[i] == '_' && i + 1 < |s| && IsDigit(s[i + 1]))
  }

  function DigitValue(c: char): nat
    requires IsDigit(c)
  {
    c as int - '0' as int
  }

  /** The number a digit run denotes; the underscores do not count. */
  function DigitRunValue(s: string): nat {
    if s == [] then 0
    else if IsDigit(s[|s| - 1]) then 10 * DigitRunValue(s[..|s| - 1]) + DigitValue(s[|s| - 1])
    else DigitRunValue(s[..|s| - 1])
  }

  /** Strip(s) is s with a run of whitespace cut from each end. */
  lemma StrippedIsFramed(s: string)
    ensures var k := LeadingSpace(s); var m := Strip(s);
      AllSpace(s[..k]) && AllSpace(s[k + |m|..]) && s == s[..k] + m + s[k + |m|..]
  {
    var k := LeadingSpace(s);
    var m := Strip(s);
    assert k + |m| <= |s| && s[k..k + |m|] == m;
    SliceThree(s, k, k + |m|);
  }

  lemma SliceThree<T>(s: seq<T>, i: nat, j: nat)
    requires i <= j <= |s|
    ensures s == s[..i] + s[i..j] + s[j..]
  {
  }

  /**
   * int(s): surrounding whitespace, an optional sign, then a digit run; None
   * where Python raises ValueError. The whitespace trimmed is that of
   * `str.isspace()`; Python's int() does not trim U+001C to U+001F, which
   * makes no difference for a text that is already stripped (ParseIntOfStripped).
   */
  function ParseInt(s: string): Option<int> {
    ParseNumeral(Strip(s))
  }

  /** int() once the surrounding whitespace is gone. */
  function ParseNumeral(t: string): Option<int> {
    if |t| > 0 && (t[0] == '+' || t[0] == '-') then
      if IsDigitRun(t[1..]) then
        var n: int := DigitRunValue(t[1..]);
        Some(if t[0] == '-' then -n else n)
      else None
    else if IsDigitRun(t) then Some(DigitRunValue(t))
    else None
  }

  /** No sign, a plus sign or a minus sign. */
  predicate IsSign(sign: string) {
    sign == "" || sign == "+" || sign == "-"
  }

  function Signed(sign: string, n: nat): int {
    if sign == "-" then -(n as int) else n
  }

  lemma ParseNumeralOfSigned(sign: string, digits: string)
    requires IsSign(sign) && IsDigitRun(digits)
    ensures ParseNumeral(sign + digits) == Some(Signed(sign, DigitRunValue(digits)))
  {
    var m := sign + digits;
    if sign == "" {
      assert m == digits;
    } else {
      assert m[1..] == digits;
    }
  }

  /** int() accepts an optionally signed digit run with whitespace around it... */
  lemma ParseIntOfPadded(a: string, sign: string, digits: string, b: string)
    requires AllSpace(a) && AllSpace(b) && IsSign(sign) && IsDigitRun(digits)
    ensures ParseInt(a + sign + digits + b) == Some(Signed(sign, DigitRunValue(digits)))
  {
    var m := sign + digits;
    assert m[|m| - 1] == digits[|digits| - 1];
    assert NoEdgeSpace(m);
    assert a + sign + digits + b == a + m + b;
    StripOfPadded(a, m, b);
    ParseNumeralOfSigned(sign, digits);
  }

  /** A stripped numeral is a sign followed by the rest, and ParseNumeral reads that rest. */
  lemma NumeralIsSigned(t: string)
    requires ParseNumeral(t).Some?
    ensures exists sign, digits ::
      IsSign(sign) && IsDigitRun(digits) && t == sign + digits
      && ParseNumeral(t).value == Signed(sign, DigitRunValue(digits))
  {
    if |t| > 0 && (t[0] == '+' || t[0] == '-') {
      var sign, digits := t[..1], t[1..];
      assert t == sign + digits && IsSign(sign);
    } else {
      assert t == "" + t;
    }
  }

  /** ...and nothing else: every accepted text has that shape and denotes its value. */
  lemma ParseIntIsPadded(s: string)
    requires ParseInt(s).Some?
    ensures exists a, sign, digits, b ::
      AllSpace(a) && AllSpace(b) && IsSign(sign) && IsDigitRun(digits)
      && s == a + sign + digits + b && ParseInt(s).value == Signed(sign, DigitRunValue(digits))
  {
    var t := Strip(s);
    var k := LeadingSpace(s);
    var a, b := s[..k], s[k + |t|..];
    StrippedIsFramed(s);
    NumeralIsSigned(t);
    var sign, digits :|
      IsSign(sign) && IsDigitRun(digits) && t == sign + digits
      && ParseNumeral(t).value == Signed(sign, DigitRunValue(digits));
    Regroup(a, sign, digits, b);
    PaddedWitness(s, a, sign, digits, b);
  }

  lemma PaddedWitness(s: string, a: string, sign: string, digits: string, b: string)
    requires AllSpace(a) && AllSpace(b) && IsSign(sign) && IsDigitRun(digits)
    requires s == a + sign + digits + b && ParseInt(s) == Some(Signed(sign, DigitRunValue(digits)))
    ensures exists a, sign, digits, b ::
      AllSpace(a) && AllSpace(b) && IsSign(sign) && IsDigitRun(digits)
      && s == a + sign + digits + b && ParseInt(s).value == Signed(sign, DigitRunValue(digits))
  {
  }

  lemma Regroup(a: string, x: string, y: string, b: string)
    ensures a + (x + y) + b == a + x + y + b
  {
  }

  /** On a text with no whitespace at its ends, int() trims nothing. */
  lemma ParseIntOfStripped(s: string)
    requires NoEdgeSpace(s)
    ensures ParseInt(s) == ParseNumeral(s)
  {
    StripOfNumeral(s);
  }

  /** The second part of split(maxsplit=1) on a stripped text is itself stripped. */
  lemma SecondPartIsStripped(s: string)
    requires NoEdgeSpace(s) && |SplitOnce(s)| == 2
    ensures NoEdgeSpace(SplitOnce(s)[1]) && ParseInt(SplitOnce(s)[1]) == ParseNumeral(SplitOnce(s)[1])
  {
    var k := SkipSpace(s, 0);
    var e := SkipToken(s, k);
    var j := SkipSpace(s, e);
    var v := SplitOnce(s)[1];
    assert v == s[j..];
    assert v[|v| - 1] == s[|s| - 1];
    ParseIntOfStripped(v);
  }

  /** A size written with its unit is refused. */
  lemma ParseIntRejectsUnits()
    ensures ParseInt("5MB") == None && ParseInt("5 MB") == None
  {
    StripOfNumeral("5MB");
    StripOfNumeral("5 MB");
    assert "5MB"[1] == 'M' && "5 MB"[1] == ' ';
  }

  /** Nothing and a bare sign are refused. */
  lemma ParseIntRejectsEmpty()
    ensures ParseInt("") == None && ParseInt("+") == None
  {
    StripOfNumeral("+");
    assert "+"[1..] == [];
  }

  /** A hexadecimal literal and doubled underscores are refused. */
  lemma ParseIntRejectsLiterals()
    ensures ParseInt("0x10") == None && ParseInt("1__0") == None
  {
    StripOfNumeral("0x10");
    StripOfNumeral("1__0");
    assert "0x10"[1] == 'x' && "1__0"[1] == '_' && "1__0"[2] == '_';
  }

  function DigitChar(d: nat): (c: char)
    requires d < 10
    ensures IsDigit(c) && DigitValue(c) == d
  {
    ('0' as int + d) as char
  }

  /** The decimal numeral of n, as str(n) writes it. */
  function Decimal(n: nat): (s: string)
    ensures IsDigitRun(s)
    decreases n
  {
    if n < 10 then [DigitChar(n)]
    else
      var p := Decimal(n / 10);
      var s := p + [DigitChar(n % 10)];
      assert forall i :: 0 <= i < |p| ==> s[i] == p[i];
      s
  }

  function SignedDecimal(n: int): string {
    if n < 0 then "-" + Decimal(-n) else Decimal(n)
  }

  lemma {:induction false} DecimalValue(n: nat)
    ensures DigitRunValue(Decimal(n)) == n
    decreases n
  {
    if n >= 10 {
      var s := Decimal(n);
      assert s[..|s| - 1] == Decimal(n / 10);
      DecimalValue(n / 10);
    }
  }

  lemma StripOfNumeral(s: string)
    requires NoEdgeSpace(s)
    ensures Strip(s) == s
  {
    StripOfPadded([], s, []);
    assert [] + s + [] == s;
  }

  /** int(str(n)) == n. */
  lemma ParseIntOfDecimal(n: int)
    ensures ParseInt(SignedDecimal(n)) == Some(n)
  {
    if n < 0 { ParseIntOfNegative(n); } else { ParseIntOfNatural(n); }
  }

  lemma ParseIntOfNatural(n: nat)
    ensures ParseInt(SignedDecimal(n)) == Some(n)
  {
    DecimalValue(n);
    StripOfNumeral(Decimal(n));
  }

  lemma ParseIntOfNegative(n: int)
    requires n < 0
    ensures ParseInt(SignedDecimal(n)) == Some(n)
  {
    var d := Decimal(-n);
    DecimalValue(-n);
    var s := "-" + d;
    assert s[|s| - 1] == d[|d| - 1];
    StripOfNumeral(s);
    assert s[1..] == d;
    assert s[0] == '-';
  }
}
