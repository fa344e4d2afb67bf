/**
 * The pieces of Go's `strings` and `strconv` packages that the parsers use, on
 * strings as sequences of characters.
 */
module Text {
  import opened Wrappers

  /** `unicode.IsSpace`: the Latin-1 spaces and the other White_Space code points. */
  predicate IsSpace(c: char) {
    var n := c as int;
    (0x09 <= n <= 0x0D) || n == 0x20 || n == 0x85 || n == 0xA0 || n == 0x1680
    || (0x2000 <= n <= 0x200A) || n == 0x2028 || n == 0x2029 || n == 0x202F
    || n == 0x205F || n == 0x3000
  }

  predicate NotSpace(c: char) { !IsSpace(c) }

  /** `\s` of Go's regular expressions, which is ASCII only: tab, LF, FF, CR, space. */
  predicate IsReSpace(c: char) {
    c == '\t' || c == '\n' || c as int == 0x0C || c == '\r' || c == ' '
  }

  predicate IsDigit(c: char) { '0' <= c <= '9' }

  predicate AllDigits(s: string) { forall i :: 0 <= i < |s| ==> IsDigit(s[i]) }

  function DigitValue(c: char): (d: nat)
    requires IsDigit(c)
    ensures d <= 9
  {
    c as int - '0' as int
  }

  /** Drops the longest prefix whose characters all satisfy `p`. */
  function TrimLeftBy(s: string, p: char -> bool): (r: string)
    ensures |r| <= |s|
    ensures r == [] || !p(r[0])
    decreases |s|
  {
    if s != [] && p(s[0]) then TrimLeftBy(s[1..], p) else s
  }

  /** What TrimLeftBy keeps is a suffix, and what it drops all satisfies `p`. */
  lemma {:induction false} TrimLeftByDrops(s: string, p: char -> bool)
    ensures var r := TrimLeftBy(s, p);
      r == s[|s| - |r|..] && forall i :: 0 <= i < |s| - |r| ==> p(s[i])
    decreases |s|
  {
    if s != [] && p(s[0]) {
      TrimLeftByDrops(s[1..], p);
    }
  }

  /** Drops the longest suffix whose characters all satisfy `p`. */
  function TrimRightBy(s: string, p: char -> bool): (r: string)
    ensures |r| <= |s|
    ensures r == [] || !p(r[|r| - 1])
    decreases |s|
  {
    if s != [] && p(s[|s| - 1]) then TrimRightBy(s[..|s| - 1], p) else s
  }

  /** What TrimRightBy keeps is a prefix, and what it drops all satisfies `p`. */
  lemma {:induction false} TrimRightByDrops(s: string, p: char -> bool)
    ensures var r := TrimRightBy(s, p);
      r == s[..|r|] && forall i :: |r| <= i < |s| ==> p(s[i])
    decreases |s|
  {
    if s != [] && p(s[|s| - 1]) {
      TrimRightByDrops(s[..|s| - 1], p);
    }
  }

  /** `strings.TrimSpace`. */
  function TrimSpace(s: string): (r: string)
    ensures r == [] || (NotSpace(r[0]) && NotSpace(r[|r| - 1]))
  {
    TrimLeftByDrops(TrimRightBy(s, IsSpace), IsSpace);
    TrimLeftBy(TrimRightBy(s, IsSpace), IsSpace)
  }

  /** The leading run of non-space characters of `t`. */
  function Word(t: string): (w: string)
    ensures |w| <= |t|
    ensures t != [] && NotSpace(t[0]) ==> w != []
    decreases |t|
  {
    if t != [] && NotSpace(t[0]) then [t[0]] + Word(t[1..]) else []
  }

  /** `strings.Fields`: the maximal runs of non-space characters, in order. */
  function Fields(s: string): (r: seq<string>)
    decreases |s|
  {
    var t := TrimLeftBy(s, IsSpace);
    if t == [] then []
    else
      var w := Word(t);
      [w] + Fields(t[|w|..])
  }

  /** Every field is a non-empty run of non-space characters. */
  lemma {:induction false} FieldsAreWords(s: string)
    ensures forall i :: 0 <= i < |Fields(s)| ==> Fields(s)[i] != [] && forall j :: 0 <= j < |Fields(s)[i]| ==> NotSpace(Fields(s)[i][j])
    decreases |s|
  {
    var t := TrimLeftBy(s, IsSpace);
    if t != [] {
      var w := Word(t);
      WordIsRun(t);
      FieldsAreWords(t[|w|..]);
    }
  }

  lemma {:induction false} WordIsRun(t: string)
    ensures forall j :: 0 <= j < |Word(t)| ==> Word(t)[j] == t[j] && NotSpace(t[j])
    decreases |t|
  {
    if t != [] && NotSpace(t[0]) {
      WordIsRun(t[1..]);
    }
  }

  predicate OccursAt(s: string, sub: string, k: nat) {
    k + |sub| <= |s| && s[k..k + |sub|] == sub
  }

  function IndexFrom(s: string, sub: string, k: nat): (r: Option<nat>)
    requires k <= |s|
    ensures r.Some? ==> k <= r.value && OccursAt(s, sub, r.value)
    ensures r.Some? ==> forall j :: k <= j < r.value ==> !OccursAt(s, sub, j)
    ensures r.None? ==> forall j :: k <= j <= |s| ==> !OccursAt(s, sub, j)
    decreases |s| - k
  {
    if OccursAt(s, sub, k) then Some(k)
    else if k == |s| then None
    else IndexFrom(s, sub, k + 1)
  }

  /** `strings.Index`: the first occurrence of `sub` in `s`. */
  function IndexOf(s: string, sub: string): (r: Option<nat>)
    ensures r.Some? ==> OccursAt(s, sub, r.value)
    ensures r.Some? ==> forall j :: 0 <= j < r.value ==> !OccursAt(s, sub, j)
    ensures r.None? ==> forall j :: 0 <= j <= |s| ==> !OccursAt(s, sub, j)
  {
    IndexFrom(s, sub, 0)
  }

  /** A separator whose first character never occurs is not found. */
  lemma IndexOfAbsent(s: string, sub: string)
    requires sub != [] && forall i :: 0 <= i < |s| ==> s[i] != sub[0]
    ensures IndexOf(s, sub).None?
  {
    forall j | 0 <= j <= |s| ensures !OccursAt(s, sub, j) {
      if j + |sub| <= |s| {
        assert s[j..j + |sub|][0] == s[j];
      }
    }
  }

  /** The first occurrence is at k when it occurs there and its first character occurs nowhere before. */
  lemma IndexOfFirst(s: string, sub: string, k: nat)
    requires sub != [] && OccursAt(s, sub, k) && forall i :: 0 <= i < k ==> s[i] != sub[0]
    ensures IndexOf(s, sub) == Some(k)
  {
    forall j | 0 <= j < k ensures !OccursAt(s, sub, j) {
      if j + |sub| <= |s| {
        assert s[j..j + |sub|][0] == s[j];
      }
    }
  }

  predicate Contains(s: string, sub: string) { IndexOf(s, sub).Some? }

  /** `strings.Split` with a non-empty separator. */
  function Split(s: string, sep: string): (r: seq<string>)
    requires sep != []
    ensures |r| >= 1
    decreases |s|
  {
    match IndexOf(s, sep)
    case None => [s]
    case Some(i) => [s[..i]] + Split(s[i + |sep|..], sep)
  }

  /** `strings.SplitN(s, sep, 2)`: cut at the first separator, if any. */
  function SplitFirst(s: string, sep: string): (r: seq<string>)
    ensures 1 <= |r| <= 2
  {
    match IndexOf(s, sep)
    case None => [s]
    case Some(i) => [s[..i], s[i + |sep|..]]
  }

  predicate HasSuffix(s: string, suffix: string) {
    |suffix| <= |s| && s[|s| - |suffix|..] == suffix
  }

  /** `strings.TrimSuffix`. */
  function TrimSuffix(s: string, suffix: string): (r: string)
    ensures HasSuffix(s, suffix) ==> s == r + suffix
    ensures !HasSuffix(s, suffix) ==> r == s
  {
    if HasSuffix(s, suffix) then s[..|s| - |suffix|] else s
  }

  function LowerChar(c: char): char {
    if 'A' <= c <= 'Z' then (c as int + 32) as char else c
  }

  /** `strings.ToLower` restricted to ASCII letters (see README). */
  function ToLower(s: string): (r: string)
    ensures |r| == |s| && forall i :: 0 <= i < |s| ==> r[i] == LowerChar(s[i])
  {
    seq(|s|, i requires 0 <= i < |s| => LowerChar(s[i]))
  }

  // ---------------------------------------------------------------------------
  // strconv.Atoi on a 64-bit platform

  const MaxInt64: int := 0x7fff_ffff_ffff_ffff
  const MinInt64: int := -0x8000_0000_0000_0000
  const MaxUint64: int := 0xffff_ffff_ffff_ffff

  /** What `strconv.Atoi` returns: the value, and whether the error was nil. */
  datatype IntParse = IntParse(value: int, ok: bool)

  datatype DigitScan = Syntax | Overflow | Digits(n: nat)

  /**
   * The digit loop of `strconv`: left to right, a non-digit is a syntax error
   * and an accumulated magnitude above 2^64-1 is a range error, whichever
   * comes first.
   */
  function ScanDigits(s: string, n: nat): DigitScan
    decreases |s|
  {
    if s == [] then Digits(n)
    else if !IsDigit(s[0]) then Syntax
    else if n * 10 + DigitValue(s[0]) > MaxUint64 then Overflow
    else ScanDigits(s[1..], n * 10 + DigitValue(s[0]))
  }

  /**
   * `strconv.Atoi`: an optional sign then one or more ASCII digits. A syntax
   * error gives 0; a value out of the 64-bit range gives the nearest bound.
   */
  function Atoi(s: string): (r: IntParse)
    ensures r.ok ==> MinInt64 <= r.value <= MaxInt64
    ensures !r.ok ==> r.value in {0, MinInt64, MaxInt64}
    ensures r.ok ==> s != [] && (IsDigit(s[0]) || s[0] == '-' || s[0] == '+')
  {
    if s == [] then IntParse(0, false)
    else
      var neg := s[0] == '-';
      var body := if s[0] == '-' || s[0] == '+' then s[1..] else s;
      if body == [] then IntParse(0, false)
      else match ScanDigits(body, 0)
        case Syntax => IntParse(0, false)
        case Overflow => IntParse(if neg then MinInt64 else MaxInt64, false)
        case Digits(n) =>
          var v: int := if neg then 0 - n as int else n as int;
          if v > MaxInt64 then IntParse(MaxInt64, false)
          else if v < MinInt64 then IntParse(MinInt64, false)
          else IntParse(v, true)
  }

  /** 10 to the power k. */
  function Pow10(k: nat): (p: nat)
    ensures p >= 1
  {
    if k == 0 then 1 else 10 * Pow10(k - 1)
  }

  lemma {:induction false} Pow10Grows(j: nat, k: nat)
    requires j <= k
    ensures Pow10(j) <= Pow10(k)
    decreases k
  {
    if j < k {
      Pow10Grows(j, k - 1);
    }
  }

  lemma Pow10Nineteen()
    ensures Pow10(19) == 10_000_000_000_000_000_000
  {
    assert Pow10(4) == 10_000;
    assert Pow10(8) == 100_000_000;
    assert Pow10(12) == 1_000_000_000_000;
    assert Pow10(16) == 10_000_000_000_000_000;
  }

  /**
   * The digit loop meets a non-digit at position k while the magnitude read
   * so far still fits in 64 bits: a syntax error.
   */
  lemma {:induction false} ScanSyntax(t: string, n: nat, k: nat)
    requires k < |t| && !IsDigit(t[k]) && forall j :: 0 <= j < k ==> IsDigit(t[j])
    requires k <= 18 && n < Pow10(19 - k)
    ensures ScanDigits(t, n) == Syntax
    decreases k
  {
    if k > 0 {
      var n' := n * 10 + DigitValue(t[0]);
      assert n' < Pow10(20 - k);
      Pow10Grows(20 - k, 19);
      Pow10Nineteen();
      ScanSyntax(t[1..], n', k - 1);
    }
  }

  /**
   * A character other than a digit among the first 19 after the sign is a
   * syntax error, and Atoi then returns 0.
   */
  lemma AtoiSyntax(s: string, k: nat)
    requires s != []
    requires var body := if s[0] == '-' || s[0] == '+' then s[1..] else s;
      k < |body| && k <= 18 && !IsDigit(body[k]) && forall j :: 0 <= j < k ==> IsDigit(body[j])
    ensures Atoi(s) == IntParse(0, false)
  {
    var body := if s[0] == '-' || s[0] == '+' then s[1..] else s;
    ScanSyntax(body, 0, k);
  }

  /** A single digit reads as its value. */
  lemma AtoiOneDigit(c: char)
    requires IsDigit(c)
    ensures Atoi([c]) == IntParse(DigitValue(c), true)
  {
    assert [c][1..] == [];
    assert ScanDigits([c], 0) == ScanDigits([], DigitValue(c));
  }

  /**
   * `fmt.Sprintf("%0Nd", n)` for a non-negative n: its decimal digits, padded
   * on the left with '0' to at least `width` characters.
   */
  function ZeroPad(n: nat, width: nat): (r: string)
    ensures AllDigits(r) && |r| >= width && |r| >= 1
    decreases width, n
  {
    if n < 10 && width <= 1 then [('0' as int + n) as char]
    else if n < 10 then ZeroPad(0, width - 1) + [('0' as int + n) as char]
    else ZeroPad(n / 10, if width == 0 then 0 else width - 1) + [('0' as int + n % 10) as char]
  }

  // ---------------------------------------------------------------------------
  // strconv.ParseFloat, plain decimal notation only

  /**
   * Reads `digits[.digits]` left to right: `v` is the value of all digits
   * read so far and `scale` is 10 to the number of digits read after the
   * point, so the number is v / scale. None on any other character, a second
   * point, or no digit at all.
   */
  function ScanDecimal(s: string, v: nat, scale: nat, seenDot: bool, seenDigit: bool): (r: Option<real>)
    requires scale >= 1
    ensures r.Some? ==> r.value >= 0.0
    decreases |s|
  {
    if s == [] then (if seenDigit then Some(v as real / scale as real) else None)
    else if IsDigit(s[0]) then
      ScanDecimal(s[1..], v * 10 + DigitValue(s[0]), if seenDot then scale * 10 else scale, seenDot, true)
    else if s[0] == '.' && !seenDot then ScanDecimal(s[1..], v, scale, true, seenDigit)
    else None
  }

  /** The value of `[+-]digits[.digits]` (at least one digit), or None. */
  function DecimalValue(s: string): (r: Option<real>)
    ensures r.Some? && s != [] && s[0] == '-' ==> r.value <= 0.0
    ensures r.Some? && (s == [] || s[0] != '-') ==> r.value >= 0.0
  {
    var body := if s != [] && (s[0] == '-' || s[0] == '+') then s[1..] else s;
    match ScanDecimal(body, 0, 1, false, false)
    case None => None
    case Some(m) => Some(if s != [] && s[0] == '-' then -m else m)
  }

  /**
   * The number a numeric token denotes, where the source calls
   * `strconv.ParseFloat` and ignores the error: 0 when the token is not a
   * plain decimal.
   */
  function ParseNum(s: string): real {
    match DecimalValue(s)
    case Some(v) => v
    case None => 0.0
  }

  /** Fields as gnuBG writes them read as their decimal values; anything else reads as 0. */
  lemma ParseNumExamples()
    ensures ParseNum("0.25") == 0.25
    ensures ParseNum("-1.5") == -1.5
    ensures ParseNum("7") == 7.0
    ensures ParseNum("1e3") == 0.0
    ensures ParseNum("-") == 0.0
  {
    var u := "0.25";
    assert u[1..] == ".25" && u[1..][1..] == "25" && u[1..][1..][1..] == "5";
    assert ScanDecimal("5", 2, 10, true, true) == Some(25.0 / 100.0);
    var t := "-1.5";
    assert t[1..] == "1.5" && t[1..][1..] == ".5" && t[1..][1..][1..] == "5";
    assert ScanDecimal("5", 1, 1, true, true) == Some(15.0 / 10.0);
    assert ScanDecimal(".5", 1, 1, false, true) == ScanDecimal("5", 1, 1, true, true);
    assert ScanDecimal("1.5", 0, 1, false, false) == ScanDecimal(".5", 1, 1, false, true);
    assert DecimalValue(t) == Some(-1.5);
  }
}
