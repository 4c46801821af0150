/**
 * The two calls into Go's `strconv` package that the exporter makes:
 * `strconv.ParseInt(s, 10, 63)` and `strconv.ParseUint(s, 0, 64)`, and
 * decimal rendering (`%d`, used for sub-indices and for writing test rows).
 */
module Strconv {
  import opened Wrappers
  import opened GoStrings

  const MAX_U64: U64 := TWO_64 - 1

  predicate AllDigits(s: string) {
    forall i | 0 <= i < |s| :: IsDigit(s[i])
  }

  function DigitValue(c: char): (d: nat)
    requires IsDigit(c)
    ensures d < 10
  {
    c as int - '0' as int
  }

  function DigitChar(d: nat): (c: char)
    requires d < 10
    ensures IsDigit(c) && DigitValue(c) == d
  {
    ('0' as int + d) as char
  }

  /** The number a string of decimal digits denotes (unbounded). */
  function DecimalValue(s: string): nat
    requires AllDigits(s)
  {
    if s == [] then 0 else DecimalValue(s[..|s| - 1]) * 10 + DigitValue(s[|s| - 1])
  }

  /** `%d` of a natural number: no sign, no leading zero, and it reads back as `n`. */
  function NatToDecimal(n: nat): (r: string)
    ensures r != [] && AllDigits(r)
    ensures DecimalValue(r) == n
    ensures r[0] == '0' ==> n == 0
  {
    if n < 10 then [DigitChar(n)]
    else
      var r := NatToDecimal(n / 10) + [DigitChar(n % 10)];
      assert r[..|r| - 1] == NatToDecimal(n / 10);
      r
  }

  /** Distinct numbers have distinct decimal renderings. */
  lemma NatToDecimalInjective(m: nat, n: nat)
    requires NatToDecimal(m) == NatToDecimal(n)
    ensures m == n
  {
  }

  /**
   * `strconv.ParseInt(s, 10, 63)`: an optional `+`/`-` followed by one or
   * more decimal digits, whose value must fit in 63 signed bits; `None` for
   * every error (syntax or range).
   */
  function ParseInt63(s: string): (r: Option<int>)
    ensures r.Some? ==> -TWO_62 <= r.value < TWO_62
  {
    if s == [] then None
    else
      var neg := s[0] == '-';
      var digits := if s[0] == '+' || s[0] == '-' then s[1..] else s;
      if digits == [] || !AllDigits(digits) then None
      else
        var u: int := DecimalValue(digits);
        if !neg && u >= TWO_62 then None
        else if neg && u > TWO_62 then None
        else Some(if neg then -u else u)
  }

  /** Every value in range reads back from its decimal form, with or without a sign. */
  lemma ParseInt63Decimal(n: nat)
    ensures n < TWO_62 ==> ParseInt63(NatToDecimal(n)) == Some(n)
    ensures n <= TWO_62 ==> ParseInt63("-" + NatToDecimal(n)) == Some(-(n as int))
    ensures n >= TWO_62 ==> ParseInt63(NatToDecimal(n)) == None
  {
    var d := NatToDecimal(n);
    assert IsDigit(d[0]);
    ParseInt63Digits(d);
    var m := "-" + d;
    assert m[0] == '-' && m[1..] == d;
  }

  /** A digit string carries no sign, so it is read whole. */
  lemma ParseInt63Digits(d: string)
    requires d != [] && AllDigits(d)
    ensures ParseInt63(d) == if DecimalValue(d) < TWO_62 then Some(DecimalValue(d) as int) else None
  {
    assert IsDigit(d[0]);
  }

  /** The outcome of `strconv.ParseUint`. */
  datatype UintParse = Parsed(n: U64) | SyntaxError | RangeError

  predicate IsAsciiLetter(c: char) {
    'a' <= LowerChar(c) <= 'z'
  }

  /** Digit value of `0-9`, `a-z`, `A-Z` as Go's ParseUint computes it. */
  function DigitOf(c: char): (d: nat)
    requires IsDigit(c) || IsAsciiLetter(c)
  {
    if IsDigit(c) then DigitValue(c) else LowerChar(c) as int - 'a' as int + 10
  }

  /**
   * The digit loop of `strconv.ParseUint` with base 0: underscores are
   * skipped, the first bad character is a syntax error, the first digit that
   * would overflow 64 bits is a range error.
   */
  function ScanDigits(s: string, base: nat, n: U64): (r: UintParse)
    requires 2 <= base <= 16
    decreases |s|
  {
    if s == [] then Parsed(n)
    else
      var c := s[0];
      if c == '_' then ScanDigits(s[1..], base, n)
      else if !(IsDigit(c) || IsAsciiLetter(c)) then SyntaxError
      else if DigitOf(c) >= base then SyntaxError
      else if n * base + DigitOf(c) >= TWO_64 then RangeError
      else ScanDigits(s[1..], base, n * base + DigitOf(c))
  }

  /** Scanning a concatenation scans the first part, then the second from where the first stopped. */
  lemma {:induction false} ScanDigitsAppend(a: string, b: string, base: nat, n: U64)
    requires 2 <= base <= 16
    ensures ScanDigits(a + b, base, n) ==
            match ScanDigits(a, base, n)
            case Parsed(m) => ScanDigits(b, base, m)
            case e => e
    decreases |a|
  {
    if a == [] {
      assert a + b == b;
    } else {
      assert (a + b)[0] == a[0];
      assert (a + b)[1..] == a[1..] + b;
      var c := a[0];
      if c == '_' {
        ScanDigitsAppend(a[1..], b, base, n);
      } else if (IsDigit(c) || IsAsciiLetter(c)) && DigitOf(c) < base && n * base + DigitOf(c) < TWO_64 {
        ScanDigitsAppend(a[1..], b, base, n * base + DigitOf(c));
      }
    }
  }

  /** Go's `underscoreOK`: underscores may only separate digits (a base prefix counts as a digit). */
  function UnderscoreOK(s: string): bool
  {
    var t := if |s| >= 1 && (s[0] == '-' || s[0] == '+') then s[1..] else s;
    var hex := |t| >= 2 && t[0] == '0' && LowerChar(t[1]) == 'x';
    if |t| >= 2 && t[0] == '0' && (LowerChar(t[1]) == 'b' || LowerChar(t[1]) == 'o' || hex)
    then UnderscoreScan(t[2..], '0', hex)
    else UnderscoreScan(t, '^', hex)
  }

  /** The loop of `underscoreOK`; `saw` is the class of the previous character. */
  function UnderscoreScan(s: string, saw: char, hex: bool): bool
    decreases |s|
  {
    if s == [] then saw != '_'
    else
      var c := s[0];
      if IsDigit(c) || (hex && 'a' <= LowerChar(c) <= 'f') then UnderscoreScan(s[1..], '0', hex)
      else if c == '_' then saw == '0' && UnderscoreScan(s[1..], '_', hex)
      else if saw == '_' then false
      else UnderscoreScan(s[1..], '!', hex)
  }

  /** `strconv.ParseUint(s, 0, 64)`: the base comes from a `0b`, `0o`, `0x` or `0` prefix, else 10. */
  function ParseUintBase0(s: string): UintParse
  {
    if s == [] then SyntaxError
    else
      var (base, digits) :=
        if s[0] != '0' then (10, s)
        else if |s| >= 3 && LowerChar(s[1]) == 'b' then (2, s[2..])
        else if |s| >= 3 && LowerChar(s[1]) == 'o' then (8, s[2..])
        else if |s| >= 3 && LowerChar(s[1]) == 'x' then (16, s[2..])
        else (8, s[1..]);
      match ScanDigits(digits, base, 0)
      case Parsed(n) => if '_' in s && !UnderscoreOK(s) then SyntaxError else Parsed(n)
      case e => e
  }

  /**
   * The number `ParseUint(s, 0, 64)` returns when its error is ignored:
   * 0 after a syntax error and the maximum `uint64` after a range error.
   */
  function ParseUintIgnoringError(s: string): (r: U64)
    ensures ParseUintBase0(s).SyntaxError? ==> r == 0
    ensures ParseUintBase0(s).RangeError? ==> r == MAX_U64
    ensures ParseUintBase0(s).Parsed? ==> r == ParseUintBase0(s).n
  {
    match ParseUintBase0(s)
    case Parsed(n) => n
    case SyntaxError => 0
    case RangeError => MAX_U64
  }

  /** Scanning a decimal rendering in base 10 yields the number. */
  lemma {:induction false} ScanDecimal(n: nat)
    requires n < TWO_64
    ensures ScanDigits(NatToDecimal(n), 10, 0) == Parsed(n)
  {
    if n >= 10 {
      var d := NatToDecimal(n / 10);
      var c := DigitChar(n % 10);
      ScanDecimal(n / 10);
      ScanDigitsAppend(d, [c], 10, 0);
      assert NatToDecimal(n) == d + [c];
      assert [c][1..] == [];
    }
  }

  /** Every `uint64` written in decimal reads back exactly (a lone `0` is the octal prefix with no digits: still 0). */
  lemma ParseUintDecimal(n: nat)
    requires n < TWO_64
    ensures ParseUintIgnoringError(NatToDecimal(n)) == n
  {
    var s := NatToDecimal(n);
    if n == 0 {
      assert s == "0";
      assert s[1..] == [];
    } else {
      ScanDecimal(n);
      assert forall i | 0 <= i < |s| :: s[i] != '_' by {
        forall i | 0 <= i < |s| ensures s[i] != '_' { assert IsDigit(s[i]); }
      }
    }
  }

  /** Base-0 readings the resource attributes can meet: octal and hex prefixes and digit separators. */
  lemma ParseUintPrefixExamples()
    ensures ParseUintIgnoringError("010") == 8
    ensures ParseUintIgnoringError("0x1F") == 31
    ensures ParseUintIgnoringError("1_000") == 1000
  {
  }

  /** Readings that fail are 0: a doubled separator, nothing, a sign, a stray letter. */
  lemma ParseUintErrorExamples()
    ensures ParseUintIgnoringError("1__0") == 0
    ensures ParseUintIgnoringError("") == 0
    ensures ParseUintIgnoringError("-1") == 0
    ensures ParseUintIgnoringError("12a") == 0
  {
  }
}
