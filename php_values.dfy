/**
 * PHP 7's view of numbers inside strings and of loosely typed values:
 * is_numeric, the numeric value a string has in arithmetic, loose `==`,
 * the ordering max() and min() use, and the conversion of a number back
 * to text. The result parser moves values between these forms
 * constantly, so each is written out here once.
 */
module PhpValues {
  import opened Wrappers
  import opened PhpStrings

  predicate IsDigit(c: char)
  {
    '0' <= c <= '9'
  }

  /** The white space is_numeric accepts before a number: space, tab, newline, carriage return, vertical tab, form feed. */
  predicate IsNumericSpace(c: char)
  {
    c == ' ' || c == '\t' || c == '\n' || c == '\r' || c == '\U{B}' || c == '\U{C}'
  }

  /** The first index at or after `i` that does not hold white space. */
  function SkipSpace(s: string, i: nat): (j: nat)
    requires i <= |s|
    decreases |s| - i
    ensures i <= j <= |s|
    ensures forall k :: i <= k < j ==> IsNumericSpace(s[k])
    ensures j == |s| || !IsNumericSpace(s[j])
  {
    if i < |s| && IsNumericSpace(s[i]) then SkipSpace(s, i + 1) else i
  }

  /** The first index at or after `i` that does not hold a decimal digit. */
  function SkipDigits(s: string, i: nat): (j: nat)
    requires i <= |s|
    decreases |s| - i
    ensures i <= j <= |s|
    ensures forall k :: i <= k < j ==> IsDigit(s[k])
    ensures j == |s| || !IsDigit(s[j])
  {
    if i < |s| && IsDigit(s[i]) then SkipDigits(s, i + 1) else i
  }

  /** `x` times ten to the power `e`. */
  function Scale(x: real, e: int): real
    decreases if e >= 0 then e else -e
  {
    if e == 0 then x
    else if e > 0 then 10.0 * Scale(x, e - 1)
    else Scale(x, e + 1) / 10.0
  }

  /** The value of a string of decimal digits. */
  function DigitsValue(d: string): nat
    requires forall k :: 0 <= k < |d| ==> IsDigit(d[k])
    decreases |d|
  {
    if d == [] then 0
    else
      assert IsDigit(d[|d| - 1]);
      10 * DigitsValue(d[..|d| - 1]) + (d[|d| - 1] as int - '0' as int) as nat
  }

  /** The value of the digits after a decimal point: `0.d0d1d2...`. */
  function FractionValue(d: string): real
    requires forall k :: 0 <= k < |d| ==> IsDigit(d[k])
    decreases |d|
  {
    if d == [] then 0.0
    else
      assert IsDigit(d[0]);
      ((d[0] as int - '0' as int) as real + FractionValue(d[1..])) / 10.0
  }

  /** A number read from the front of a string, and the index just after it. */
  datatype Scan = Scan(value: real, end: nat)

  /**
   * An exponent at index `m` (`e` or `E`, an optional sign, at least one
   * digit): its value and the index after it; no exponent gives (0, m).
   */
  function ScanExponent(s: string, m: nat): (r: (int, nat))
    requires m <= |s|
    ensures m <= r.1 <= |s|
  {
    if m < |s| && (s[m] == 'e' || s[m] == 'E') then
      var p := m + 1;
      var q := if p < |s| && (s[p] == '-' || s[p] == '+') then p + 1 else p;
      var t := SkipDigits(s, q);
      if t > q then
        var e: int := DigitsValue(s[q..t]);
        (if p < |s| && s[p] == '-' then -e else e, t)
      else (0, m)
    else (0, m)
  }

  /**
   * The longest prefix of `s` that PHP reads as a number: optional
   * leading white space, an optional sign, digits with an optional
   * decimal point (at least one digit in all), an optional exponent.
   * `None` when no digit can be read.
   */
  function ScanNumber(s: string): (r: Option<Scan>)
    ensures r.Some? ==> r.value.end <= |s|
  {
    var i := SkipSpace(s, 0);
    var negative := i < |s| && s[i] == '-';
    var j := if i < |s| && (s[i] == '-' || s[i] == '+') then i + 1 else i;
    var k := SkipDigits(s, j);
    var dot := k < |s| && s[k] == '.';
    var m := if dot then SkipDigits(s, k + 1) else k;
    if k == j && m <= k + 1 then None
    else
      var whole := DigitsValue(s[j..k]) as real;
      var fraction := if dot then FractionValue(s[k + 1..m]) else 0.0;
      var exponent := ScanExponent(s, m);
      var magnitude := Scale(whole + fraction, exponent.0);
      Some(Scan(if negative then -magnitude else magnitude, exponent.1))
  }

  /** `is_numeric($s)` for a string: the whole string is one number, with no trailing white space. */
  predicate IsNumeric(s: string)
  {
    var r := ScanNumber(s);
    r.Some? && r.value.end == |s|
  }

  /** The number a string stands for in PHP 7 arithmetic: its leading number, or 0. */
  function ToNumber(s: string): real
  {
    var r := ScanNumber(s);
    if r.Some? then r.value.value else 0.0
  }

  /** An exponent consists of `e` or `E`, a sign and digits. */
  lemma ExponentCharacters(s: string, m: nat)
    requires m <= |s|
    ensures forall k :: m <= k < ScanExponent(s, m).1 ==> IsDigit(s[k]) || s[k] in "+-eE"
  {
  }

  /** A numeric string holds a digit and no character that cannot be part of a number. */
  lemma NumericCharacters(s: string)
    requires IsNumeric(s)
    ensures exists k :: 0 <= k < |s| && IsDigit(s[k])
    ensures forall k :: 0 <= k < |s| ==> IsNumericSpace(s[k]) || IsDigit(s[k]) || s[k] in "+-.eE"
  {
    hide Scale, DigitsValue, FractionValue, ScanExponent, SkipSpace, SkipDigits;
    var i := SkipSpace(s, 0);
    var j := if i < |s| && (s[i] == '-' || s[i] == '+') then i + 1 else i;
    var k := SkipDigits(s, j);
    var dot := k < |s| && s[k] == '.';
    var m := if dot then SkipDigits(s, k + 1) else k;
    ExponentCharacters(s, m);
    if k > j {
      assert IsDigit(s[j]);
    } else {
      assert IsDigit(s[k + 1]);
    }
  }

  /** Loose `==` between two strings: numeric when both are numeric, byte-wise otherwise. */
  predicate LooseEq(a: string, b: string)
  {
    if IsNumeric(a) && IsNumeric(b) then ToNumber(a) == ToNumber(b) else a == b
  }

  /** `array_search($needle, $xs)` with loose comparison: the first matching index. */
  function ArraySearch(needle: string, xs: seq<string>): (r: Option<nat>)
    ensures r.Some? ==> r.value < |xs| && LooseEq(xs[r.value], needle)
    ensures r.Some? ==> forall k :: 0 <= k < r.value ==> !LooseEq(xs[k], needle)
    ensures r.None? ==> forall k :: 0 <= k < |xs| ==> !LooseEq(xs[k], needle)
  {
    hide LooseEq;
    if xs == [] then None
    else if LooseEq(xs[0], needle) then Some(0)
    else
      var r := ArraySearch(needle, xs[1..]);
      if r.Some? then Some(r.value + 1) else None
  }

  /** Byte-wise string comparison (`strcmp`): -1, 0 or 1. */
  function LexCompare(a: string, b: string): (c: int)
    decreases |a|
    ensures c == 0 <==> a == b
    ensures -1 <= c <= 1
  {
    if a == [] then (if b == [] then 0 else -1)
    else if b == [] then 1
    else if a[0] < b[0] then -1
    else if a[0] > b[0] then 1
    else
      var c := LexCompare(a[1..], b[1..]);
      assert c == 0 ==> a == [a[0]] + a[1..] && b == [b[0]] + b[1..];
      c
  }

  /** PHP 7's `$a <=> $b` on strings: numerically when both are numeric, byte-wise otherwise. */
  function Compare(a: string, b: string): int
  {
    if IsNumeric(a) && IsNumeric(b) then
      (if ToNumber(a) < ToNumber(b) then -1 else if ToNumber(a) > ToNumber(b) then 1 else 0)
    else LexCompare(a, b)
  }

  /** `max($xs)` continued from a current maximum: an element replaces it only when it compares greater. */
  function MaxFrom(best: string, xs: seq<string>): string
    decreases |xs|
  {
    if xs == [] then best
    else MaxFrom(if Compare(best, xs[0]) < 0 then xs[0] else best, xs[1..])
  }

  /** `min($xs)` continued from a current minimum: an element replaces it only when it compares smaller. */
  function MinFrom(best: string, xs: seq<string>): string
    decreases |xs|
  {
    if xs == [] then best
    else MinFrom(if Compare(best, xs[0]) > 0 then xs[0] else best, xs[1..])
  }

  /** `max($xs)` on a non-empty array of strings. */
  function Max(xs: seq<string>): string
    requires |xs| > 0
  {
    MaxFrom(xs[0], xs[1..])
  }

  /** `min($xs)` on a non-empty array of strings. */
  function Min(xs: seq<string>): string
    requires |xs| > 0
  {
    MinFrom(xs[0], xs[1..])
  }

  /** Every element of `xs` is numeric. */
  predicate AllNumeric(xs: seq<string>)
  {
    forall k :: 0 <= k < |xs| ==> IsNumeric(xs[k])
  }

  lemma {:induction false} MaxFromBounds(best: string, xs: seq<string>)
    requires IsNumeric(best) && AllNumeric(xs)
    ensures MaxFrom(best, xs) == best || MaxFrom(best, xs) in xs
    ensures IsNumeric(MaxFrom(best, xs))
    ensures ToNumber(best) <= ToNumber(MaxFrom(best, xs))
    ensures forall k :: 0 <= k < |xs| ==> ToNumber(xs[k]) <= ToNumber(MaxFrom(best, xs))
    decreases |xs|
  {
    hide IsNumeric, ToNumber, LexCompare;
    if xs != [] {
      var next := if Compare(best, xs[0]) < 0 then xs[0] else best;
      assert IsNumeric(xs[0]);
      assert ToNumber(best) <= ToNumber(next) && ToNumber(xs[0]) <= ToNumber(next);
      MaxFromBounds(next, xs[1..]);
      assert forall k :: 1 <= k < |xs| ==> xs[k] == xs[1..][k - 1];
    }
  }

  lemma {:induction false} MinFromBounds(best: string, xs: seq<string>)
    requires IsNumeric(best) && AllNumeric(xs)
    ensures MinFrom(best, xs) == best || MinFrom(best, xs) in xs
    ensures IsNumeric(MinFrom(best, xs))
    ensures ToNumber(MinFrom(best, xs)) <= ToNumber(best)
    ensures forall k :: 0 <= k < |xs| ==> ToNumber(MinFrom(best, xs)) <= ToNumber(xs[k])
    decreases |xs|
  {
    hide IsNumeric, ToNumber, LexCompare;
    if xs != [] {
      var next := if Compare(best, xs[0]) > 0 then xs[0] else best;
      assert IsNumeric(xs[0]);
      assert ToNumber(next) <= ToNumber(best) && ToNumber(next) <= ToNumber(xs[0]);
      MinFromBounds(next, xs[1..]);
      assert forall k :: 1 <= k < |xs| ==> xs[k] == xs[1..][k - 1];
    }
  }

  /** On numeric strings max() answers one of its arguments, and none is numerically greater. */
  lemma MaxOfNumbers(xs: seq<string>)
    requires |xs| > 0 && AllNumeric(xs)
    ensures Max(xs) in xs
    ensures forall k :: 0 <= k < |xs| ==> ToNumber(xs[k]) <= ToNumber(Max(xs))
  {
    hide IsNumeric, ToNumber, MaxFrom;
    MaxFromBounds(xs[0], xs[1..]);
    assert forall k :: 1 <= k < |xs| ==> xs[k] == xs[1..][k - 1];
  }

  /** On numeric strings min() answers one of its arguments, and none is numerically smaller. */
  lemma MinOfNumbers(xs: seq<string>)
    requires |xs| > 0 && AllNumeric(xs)
    ensures Min(xs) in xs
    ensures forall k :: 0 <= k < |xs| ==> ToNumber(Min(xs)) <= ToNumber(xs[k])
  {
    hide IsNumeric, ToNumber, MinFrom;
    MinFromBounds(xs[0], xs[1..]);
    assert forall k :: 1 <= k < |xs| ==> xs[k] == xs[1..][k - 1];
  }

  function DigitChar(d: nat): char
    requires d < 10
  {
    ('0' as int + d) as char
  }

  /** The decimal digits of a natural number, without leading zeros. */
  function NatToString(n: nat): (s: string)
    ensures |s| >= 1
    ensures forall k :: 0 <= k < |s| ==> IsDigit(s[k])
  {
    if n < 10 then [DigitChar(n)] else NatToString(n / 10) + [DigitChar(n % 10)]
  }

  /** Reading back the digits of a natural number gives the number. */
  lemma {:induction false} DigitsOfNat(n: nat)
    ensures DigitsValue(NatToString(n)) == n
  {
    if n >= 10 {
      DigitsOfNat(n / 10);
      var s := NatToString(n);
      assert s[..|s| - 1] == NatToString(n / 10);
    }
  }

  /** A string of digits alone is numeric and stands for the value of its digits. */
  lemma {:induction false} DigitStringIsNumeric(d: string)
    requires |d| > 0 && forall k :: 0 <= k < |d| ==> IsDigit(d[k])
    ensures IsNumeric(d) && ToNumber(d) == DigitsValue(d) as real
  {
    assert SkipSpace(d, 0) == 0;
    assert SkipDigits(d, 0) == |d|;
    assert d[0..|d|] == d;
  }

  /** The text of a natural number reads back as that number. */
  lemma NatToStringRoundTrip(n: nat)
    ensures IsNumeric(NatToString(n)) && ToNumber(NatToString(n)) == n as real
  {
    DigitStringIsNumeric(NatToString(n));
    DigitsOfNat(n);
  }

  /**
   * Up to `n` decimal digits of a fraction in [0, 1), truncated, with no
   * trailing zeros.
   */
  function FractionDigits(f: real, n: nat): string
    requires 0.0 <= f < 1.0
    decreases n
  {
    if n == 0 || f == 0.0 then ""
    else
      var d := (f * 10.0).Floor;
      var rest := FractionDigits(f * 10.0 - d as real, n - 1);
      if d == 0 && rest == "" then "" else [DigitChar(d)] + rest
  }

  /**
   * PHP's text for a number: whole numbers in plain digits; other values
   * with their fractional digits (PHP prints 14 significant digits; here
   * up to 14 fractional digits, truncated).
   */
  function NumToString(x: real): string
  {
    var m := if x < 0.0 then -x else x;
    var whole := m.Floor;
    var f := m - whole as real;
    var body := if f == 0.0 then NatToString(whole) else NatToString(whole) + "." + FractionDigits(f, 14);
    if x < 0.0 then "-" + body else body
  }

  /** The text of a number always holds a digit. */
  lemma NumTextHasDigit(x: real)
    ensures exists c :: IsDigit(c) && c in NumToString(x)
  {
    hide NatToString, FractionDigits;
    var m := if x < 0.0 then -x else x;
    var whole := m.Floor;
    var f := m - whole as real;
    var digits := NatToString(whole);
    var body := if f == 0.0 then digits else digits + "." + FractionDigits(f, 14);
    var s := if x < 0.0 then "-" + body else body;
    assert s == NumToString(x);
    assert body[0] == digits[0];
    assert IsDigit(digits[0]);
    if x < 0.0 {
      assert s[1] == digits[0];
    } else {
      assert s[0] == digits[0];
    }
  }

  /** Words such as TRUE, PASS and PASSED are no numbers, so they read as 0. */
  lemma WordsAreNotNumbers()
    ensures ScanNumber("TRUE").None? && ScanNumber("PASS").None? && ScanNumber("PASSED").None?
    ensures ToNumber("TRUE") == 0.0 && ToNumber("PASS") == 0.0 && ToNumber("PASSED") == 0.0
  {
    assert SkipSpace("TRUE", 0) == 0 && SkipDigits("TRUE", 0) == 0;
    assert SkipSpace("PASS", 0) == 0 && SkipDigits("PASS", 0) == 0;
    assert SkipSpace("PASSED", 0) == 0 && SkipDigits("PASSED", 0) == 0;
  }

  /** A PHP scalar as the parser sees it: `false`, `null`, a string, or a number (int and float alike). */
  datatype Value = False | Null | Str(s: string) | Num(x: real)

  /** The string a value becomes where PHP needs a string (false and null become ""). */
  function ToStr(v: Value): string
  {
    match v
    case False => ""
    case Null => ""
    case Str(s) => s
    case Num(x) => NumToString(x)
  }

  /** PHP truthiness: false, null, "", "0" and 0 are false. */
  predicate Truthy(v: Value)
  {
    match v
    case False => false
    case Null => false
    case Str(s) => s != "" && s != "0"
    case Num(x) => x != 0.0
  }

  /** `$v == null`: false, null, "" and 0 (but not "0"). */
  predicate IsNullLike(v: Value)
  {
    match v
    case False => true
    case Null => true
    case Str(s) => s == ""
    case Num(x) => x == 0.0
  }

  /** `is_numeric($v)`. */
  predicate IsNumericValue(v: Value)
  {
    match v
    case False => false
    case Null => false
    case Str(s) => IsNumeric(s)
    case Num(_) => true
  }

  /** The number a value stands for in arithmetic. */
  function ToNum(v: Value): real
  {
    match v
    case False => 0.0
    case Null => 0.0
    case Str(s) => ToNumber(s)
    case Num(x) => x
  }

  /** Loose `$v == 't'` against a string literal. */
  predicate LooseEqValue(v: Value, t: string)
  {
    match v
    case False => !Truthy(Str(t))
    case Null => t == ""
    case Str(s) => LooseEq(s, t)
    case Num(x) => x == ToNumber(t)
  }

  /** A string result of a PHP built-in as a value: `None` is `false`. */
  function FromOption(r: Option<string>): Value
  {
    if r.Some? then Str(r.value) else False
  }
}
