/**
 * What happens to each value a rule found, in the by-reference loop of
 * lines 868-906 of pts_test_result_parser.php (strip a text, strip a
 * postfix, read `mm:ss.ss` clock times, drop what is not numeric in
 * numeric mode, divide, multiply), and how the kept values become the
 * rule's result (lines 908-923).
 */
module Normalizer {
  import opened Wrappers
  import opened PhpStrings
  import opened PhpValues
  import opened ResultRules

  /** StripFromResult: with the text given, its occurrences are removed and the value becomes a string. */
  function Stripped(v: Value, strip: Option<string>): (r: Value)
    ensures !Given(strip) ==> r == v
    ensures Given(strip) ==> r.Str?
  {
    if Given(strip) then Str(Replace(ToStr(v), strip.value, "")) else v
  }

  /** A given strip text shortens the value's text by its length once per occurrence. */
  lemma StrippedLength(v: Value, strip: Option<string>)
    requires Given(strip)
    ensures |Stripped(v, strip).s| == |ToStr(v)| - SubstrCount(ToStr(v), strip.value) * |strip.value|
  {
    hide Replace, SubstrCount, ToStr;
    ReplaceLength(ToStr(v), strip.value, "");
  }

  /**
   * StripResultPostfix: when the tail as long as the postfix equals it
   * under PHP's loose `==`, the value loses that many characters
   * (`substr` answers `false` when the value is shorter).
   */
  function StripPostfix(v: Value, postfix: Option<string>): (r: Value)
    ensures !Given(postfix) ==> r == v
    ensures r != v ==> Given(postfix) && LooseEq(Tail(ToStr(v), |postfix.value|), postfix.value)
  {
    if Given(postfix) && LooseEq(Tail(ToStr(v), |postfix.value|), postfix.value) then
      FromOption(Substr(ToStr(v), 0, Some(-|postfix.value|)))
    else v
  }

  /** `s` ends with `p`. */
  predicate EndsWith(s: string, p: string)
  {
    |p| <= |s| && s[|s| - |p|..] == p
  }

  /**
   * A postfix that is not a number is removed exactly when it is a true
   * suffix of the value, and then only it is removed.
   */
  lemma PostfixOnlyAsSuffix(s: string, p: string)
    requires p != "" && !IsNumeric(p)
    ensures StripPostfix(Str(s), Some(p)) == if EndsWith(s, p) then Str(s[..|s| - |p|]) else Str(s)
  {
    hide Substr;
    var t := Tail(s, |p|);
    if |p| > |s| {
      assert t == s;
      assert t != p;
    }
  }

  /**
   * With a numeric postfix the comparison is numeric: the value "5"
   * equals the postfix "5.0", so it is "stripped" although it does not
   * end with it, and becomes `false`.
   */
  lemma NumericPostfixLoose()
    ensures !EndsWith("5", "5.0")
    ensures StripPostfix(Str("5"), Some("5.0")) == False
  {
    hide Substr, ScanNumber;
    ScanFive();
    ScanFivePointZero();
    assert LooseEq("5", "5.0");
  }

  /** The string "5" reads as the number 5 and nothing follows it. */
  lemma ScanFive()
    ensures ScanNumber("5") == Some(Scan(5.0, 1))
  {
    hide DigitsValue, FractionValue, Scale, ScanExponent;
    assert SkipSpace("5", 0) == 0;
    assert SkipDigits("5", 0) == 1;
    assert "5"[0..1] == "5";
    DigitsFive();
    NumberEndsAtEnd("5", 5.0);
  }

  /** The string "5.0" reads as the number 5 and nothing follows it. */
  lemma ScanFivePointZero()
    ensures ScanNumber("5.0") == Some(Scan(5.0, 3))
  {
    hide DigitsValue, FractionValue, Scale, ScanExponent;
    assert SkipSpace("5.0", 0) == 0;
    assert SkipDigits("5.0", 0) == 1;
    assert SkipDigits("5.0", 2) == 3;
    assert "5.0"[0..1] == "5" && "5.0"[2..3] == "0";
    DigitsFive();
    FractionZero();
    NumberEndsAtEnd("5.0", 5.0);
  }

  /** At the end of the string there is no exponent, and the number is not scaled. */
  lemma NumberEndsAtEnd(s: string, x: real)
    ensures ScanExponent(s, |s|) == (0, |s|)
    ensures Scale(x, 0) == x
  {
  }

  /** The fraction digits "0" have the value 0. */
  lemma FractionZero()
    ensures FractionValue("0") == 0.0
  {
    assert "0"[1..] == [];
  }

  /** The digit string "5" has the value 5. */
  lemma DigitsFive()
    ensures DigitsValue("5") == 5
  {
    assert "5"[..0] == [];
  }

  /** The `mm:ss.ss` shape of line 880: one `:`, one `.`, and the `.` after the `:`. */
  predicate IsClockTime(s: string)
  {
    var colon := StrPos(s, ":");
    var dot := StrPos(s, ".");
    SubstrCount(s, ":") == 1 && SubstrCount(s, ".") == 1 && colon.Some? && dot.Some? && dot.value > colon.value
  }

  /** Minutes times 60 plus seconds, each part read as PHP reads a string in arithmetic (lines 882-884). */
  function ClockSeconds(s: string): real
    requires IsClockTime(s)
  {
    var colon := StrPos(s, ":").value;
    ToNumber(s[..colon]) * 60.0 + ToNumber(" " + s[colon + 1..])
  }

  /** In numeric mode a value that is not numeric but reads as a clock time becomes its seconds. */
  function ClockConverted(v: Value, numeric: bool): (r: Value)
    ensures r != v ==> numeric && !IsNumericValue(v) && r.Num?
    ensures numeric && !IsNumericValue(v) && IsClockTime(ToStr(v)) ==> r == Num(ClockSeconds(ToStr(v)))
  {
    if numeric && !IsNumericValue(v) && IsClockTime(ToStr(v)) then Num(ClockSeconds(ToStr(v))) else v
  }

  /** A non-empty string of decimal digits. */
  predicate IsDigits(d: string)
  {
    |d| > 0 && forall k :: 0 <= k < |d| ==> IsDigit(d[k])
  }

  /** The seconds part, read after a leading space: its whole digits plus its fraction digits. */
  lemma SecondsValue(ss: string, frac: string)
    requires IsDigits(ss) && IsDigits(frac)
    ensures ToNumber(" " + ss + "." + frac) == DigitsValue(ss) as real + FractionValue(frac)
  {
    var u := " " + ss + "." + frac;
    assert u[0] == ' ' && u[1] == ss[0];
    assert SkipSpace(u, 0) == 1 by {
      assert SkipSpace(u, 1) == 1;
    }
    assert forall k :: 1 <= k < 1 + |ss| ==> u[k] == ss[k - 1];
    assert u[1 + |ss|] == '.';
    assert SkipDigits(u, 1) == 1 + |ss|;
    assert forall k :: 2 + |ss| <= k < |u| ==> u[k] == frac[k - 2 - |ss|];
    assert SkipDigits(u, 2 + |ss|) == |u|;
    assert u[1..1 + |ss|] == ss && u[2 + |ss|..|u|] == frac;
    NumberEndsAtEnd(u, DigitsValue(ss) as real + FractionValue(frac));
  }

  /** Digits followed by a colon are not numeric: the number PHP reads stops at the colon. */
  lemma MinutesStopAtColon(mm: string, rest: string)
    requires IsDigits(mm)
    ensures !IsNumeric(mm + ":" + rest)
  {
    var t := mm + ":" + rest;
    assert forall k :: 0 <= k < |mm| ==> t[k] == mm[k];
    assert t[|mm|] == ':';
    assert SkipSpace(t, 0) == 0;
    assert SkipDigits(t, 0) == |mm|;
    assert ScanNumber(t).value.end == |mm|;
  }

  /** `mm:ss.ff` in digits has one colon, one dot, and the dot after the colon. */
  lemma ClockShape(mm: string, ss: string, frac: string)
    requires IsDigits(mm) && IsDigits(ss) && IsDigits(frac)
    ensures IsClockTime(mm + ":" + ss + "." + frac)
  {
    hide StrPos;
    var rest := ss + "." + frac;
    var t := mm + ":" + ss + "." + frac;
    assert t == mm + ([':'] + (ss + (['.'] + frac)));
    assert t == (mm + ":" + ss) + ['.'] + frac;
    assert t == mm + [':'] + rest;
    assert ':' !in mm && ':' !in ss && ':' !in frac && '.' !in mm && '.' !in ss && '.' !in frac by {
      assert forall k :: 0 <= k < |mm| ==> IsDigit(mm[k]);
      assert forall k :: 0 <= k < |ss| ==> IsDigit(ss[k]);
      assert forall k :: 0 <= k < |frac| ==> IsDigit(frac[k]);
    }
    assert '.' !in mm + ":" + ss;
    SubstrCountCharAbsent(mm, ':');
    SubstrCountCharAbsent(ss, ':');
    SubstrCountCharAbsent(frac, ':');
    SubstrCountCharAbsent(mm, '.');
    SubstrCountCharAbsent(ss, '.');
    SubstrCountCharAbsent(frac, '.');
    SubstrCountCharAppend(mm, [':'] + (ss + (['.'] + frac)), ':');
    SubstrCountCharAppend([':'], ss + (['.'] + frac), ':');
    SubstrCountCharAppend(ss, ['.'] + frac, ':');
    SubstrCountCharAppend(['.'], frac, ':');
    SubstrCountCharAppend(mm, [':'] + (ss + (['.'] + frac)), '.');
    SubstrCountCharAppend([':'], ss + (['.'] + frac), '.');
    SubstrCountCharAppend(ss, ['.'] + frac, '.');
    SubstrCountCharAppend(['.'], frac, '.');
    FirstCharAt(mm, ':', rest);
    FirstCharAt(mm + ":" + ss, '.', frac);
  }

  /** The minutes before the colon times 60, plus the seconds after it. */
  lemma ClockSecondsOfDigits(mm: string, ss: string, frac: string)
    requires IsDigits(mm) && IsDigits(ss) && IsDigits(frac)
    requires IsClockTime(mm + ":" + ss + "." + frac)
    ensures ClockSeconds(mm + ":" + ss + "." + frac) == DigitsValue(mm) as real * 60.0 + DigitsValue(ss) as real + FractionValue(frac)
  {
    var rest := ss + "." + frac;
    var t := mm + ":" + ss + "." + frac;
    hide IsClockTime, ScanNumber, DigitsValue, FractionValue, StrPos, ToNumber;
    assert t == mm + [':'] + rest;
    FirstCharAt(mm, ':', rest);
    assert t[..|mm|] == mm && t[|mm| + 1..] == rest;
    DigitStringIsNumeric(mm);
    SecondsValue(ss, frac);
    assert " " + rest == " " + ss + "." + frac;
  }

  /**
   * A time `mm:ss.ff` written in digits is not numeric, has the clock
   * shape, and a numeric parse turns it into mm * 60 + ss.ff seconds.
   */
  lemma ClockTimeOfDigits(mm: string, ss: string, frac: string)
    requires IsDigits(mm) && IsDigits(ss) && IsDigits(frac)
    ensures var t := mm + ":" + ss + "." + frac;
      !IsNumeric(t) && IsClockTime(t)
      && ClockConverted(Str(t), true) == Num(DigitsValue(mm) as real * 60.0 + DigitsValue(ss) as real + FractionValue(frac))
  {
    hide IsNumeric, IsClockTime, ClockSeconds, DigitsValue, FractionValue, IsDigits;
    assert mm + ":" + ss + "." + frac == mm + ":" + (ss + "." + frac);
    MinutesStopAtColon(mm, ss + "." + frac);
    ClockShape(mm, ss, frac);
    ClockSecondsOfDigits(mm, ss, frac);
  }

  /** The digit strings of "06:12.32" and their values. */
  lemma ClockExampleParts()
    ensures IsDigits("06") && IsDigits("12") && IsDigits("32")
    ensures DigitsValue("06") == 6 && DigitsValue("12") == 12 && FractionValue("32") == 0.32
  {
    assert "06"[..1] == "0" && "0"[..0] == [] && "12"[..1] == "1" && "1"[..0] == [];
    assert "32"[1..] == "2" && "2"[1..] == [];
  }

  /** The time "06:12.32" becomes 372.32 seconds. */
  lemma ClockExample()
    ensures ClockConverted(Str("06:12.32"), true) == Num(372.32)
  {
    hide IsNumeric, IsClockTime, ClockSeconds, DigitsValue, FractionValue, IsDigits, ClockConverted;
    ClockExampleParts();
    ClockTimeOfDigits("06", "12", "32");
    assert "06" + ":" + "12" + "." + "32" == "06:12.32";
  }

  /**
   * A value after the strip, postfix and clock-time steps. With nothing
   * to strip only the clock-time step can change it, and a numeric value
   * then passes through unchanged.
   */
  function Prepared(v: Value, rule: Rule, numeric: bool): (r: Value)
    ensures !Given(rule.stripFromResult) && !Given(rule.stripResultPostfix) ==>
      r == v || (numeric && !IsNumericValue(v) && r.Num?)
    ensures !Given(rule.stripFromResult) && !Given(rule.stripResultPostfix) && IsNumericValue(v) ==> r == v
  {
    ClockConverted(StripPostfix(Stripped(v, rule.stripFromResult), rule.stripResultPostfix), numeric)
  }

  /** Numeric mode drops what is not numeric; otherwise everything stays. */
  predicate Kept(v: Value, numeric: bool)
  {
    !numeric || IsNumericValue(v)
  }

  /** A DivideResultBy or MultiplyResultBy factor takes effect only when it is given, numeric and not zero. */
  function Factor(o: Option<string>): (f: Option<real>)
    ensures f.Some? <==> Given(o) && IsNumeric(o.value) && ToNumber(o.value) != 0.0
    ensures f.Some? ==> f.value != 0.0 && f.value == ToNumber(o.value)
  {
    if Given(o) && IsNumeric(o.value) && ToNumber(o.value) != 0.0 then Some(ToNumber(o.value)) else None
  }

  /** Divide, then multiply, by the factors that take effect. */
  function Scaled(v: Value, rule: Rule): (r: Value)
    ensures Factor(rule.divideResultBy).None? && Factor(rule.multiplyResultBy).None? ==> r == v
    ensures IsNumericValue(v) ==> IsNumericValue(r)
  {
    var d := Factor(rule.divideResultBy);
    var m := Factor(rule.multiplyResultBy);
    var a := if d.Some? then Num(ToNum(v) / d.value) else v;
    if m.Some? then Num(ToNum(a) * m.value) else a
  }

  /** What a factor that takes effect does to the number a value stands for. */
  lemma ScaledNumber(v: Value, rule: Rule)
    requires Factor(rule.divideResultBy).Some? || Factor(rule.multiplyResultBy).Some?
    ensures Scaled(v, rule).Num?
    ensures ToNum(Scaled(v, rule)) ==
      ToNum(v) / Factor(rule.divideResultBy).GetOr(1.0) * Factor(rule.multiplyResultBy).GetOr(1.0)
  {
    hide IsNumeric, ToNumber;
  }

  /**
   * The value a found value ends as: scaled when kept, as prepared when
   * dropped. In numeric mode it is numeric exactly when the prepared
   * value is.
   */
  function Final(v: Value, rule: Rule, numeric: bool): (r: Value)
    ensures numeric ==> (IsNumericValue(r) <==> IsNumericValue(Prepared(v, rule, numeric)))
    ensures !Kept(Prepared(v, rule, numeric), numeric) ==> r == Prepared(v, rule, numeric)
  {
    var p := Prepared(v, rule, numeric);
    if Kept(p, numeric) then Scaled(p, rule) else p
  }

  /** The kept values, in the order they were found. */
  function KeptValues(found: seq<Value>, rule: Rule, numeric: bool): (kept: seq<Value>)
    decreases |found|
    ensures |kept| <= |found|
    ensures !numeric ==> |kept| == |found|
  {
    if found == [] then []
    else
      var last := found[|found| - 1];
      KeptValues(found[..|found| - 1], rule, numeric)
        + (if Kept(Prepared(last, rule, numeric), numeric) then [Final(last, rule, numeric)] else [])
  }

  /** In numeric mode every kept value is numeric. */
  lemma {:induction false} KeptAreNumeric(found: seq<Value>, rule: Rule)
    ensures forall k :: 0 <= k < |KeptValues(found, rule, true)| ==> IsNumericValue(KeptValues(found, rule, true)[k])
    decreases |found|
  {
    if found != [] {
      KeptAreNumeric(found[..|found| - 1], rule);
    }
  }

  /** Outside numeric mode nothing is dropped, and the kept values are the final values one for one. */
  lemma {:induction false} NothingDroppedOutsideNumeric(found: seq<Value>, rule: Rule)
    ensures forall k :: 0 <= k < |found| ==> KeptValues(found, rule, false)[k] == Final(found[k], rule, false)
    decreases |found|
  {
    hide Final, Prepared, IsNumeric;
    if found != [] {
      var init := found[..|found| - 1];
      NothingDroppedOutsideNumeric(init, rule);
      assert forall k :: 0 <= k < |init| ==> found[k] == init[k];
    }
  }

  /** The body of the by-reference loop for one value: its rewritten form, and whether it stays. */
  method NormalizeValue(x: Value, rule: Rule, numeric: bool) returns (v: Value, keep: bool)
    ensures v == Final(x, rule, numeric)
    ensures keep == Kept(Prepared(x, rule, numeric), numeric)
  {
    hide ToStr, ToNumber, IsNumeric, Stripped, StripPostfix, ClockConverted, Factor;
    v := Stripped(x, rule.stripFromResult);
    v := StripPostfix(v, rule.stripResultPostfix);
    v := ClockConverted(v, numeric);
    ghost var p := v;
    keep := Kept(v, numeric);
    if keep {
      var d := Factor(rule.divideResultBy);
      if d.Some? {
        v := Num(ToNum(v) / d.value);
      }
      var m := Factor(rule.multiplyResultBy);
      if m.Some? {
        v := Num(ToNum(v) * m.value);
      }
      assert v == Scaled(p, rule);
    }
  }

  /**
   * The by-reference loop: every found value is rewritten; values that
   * are not numeric in numeric mode are unset. `last` is the final value
   * of the last element, which `$test_result` still refers to after the
   * loop.
   */
  method NormalizeResults(found: seq<Value>, rule: Rule, numeric: bool) returns (kept: seq<Value>, last: Option<Value>)
    ensures kept == KeptValues(found, rule, numeric)
    ensures last == if found == [] then None else Some(Final(found[|found| - 1], rule, numeric))
  {
    hide Final, Prepared, Kept;
    kept := [];
    last := None;
    for i := 0 to |found|
      invariant kept == KeptValues(found[..i], rule, numeric)
      invariant last == if i == 0 then None else Some(Final(found[i - 1], rule, numeric))
    {
      var v, keep := NormalizeValue(found[i], rule, numeric);
      if keep {
        kept := kept + [v];
      }
      last := Some(v);
      assert found[..i + 1][..i] == found[..i];
      assert found[..i + 1][i] == found[i];
    }
    assert found[..|found|] == found;
  }

  /** The kept values as text, as implode() writes them. */
  function Texts(vs: seq<Value>): (ts: seq<string>)
    ensures |ts| == |vs| && forall k :: 0 <= k < |vs| ==> ts[k] == ToStr(vs[k])
  {
    if vs == [] then [] else [ToStr(vs[0])] + Texts(vs[1..])
  }

  /** `array_sum()`: the numbers the values stand for, added up. */
  function Sum(vs: seq<Value>): real
  {
    if vs == [] then 0.0 else ToNum(vs[0]) + Sum(vs[1..])
  }

  /**
   * The rule's result from its non-empty kept values: REPORT_ALL joins
   * them with commas; otherwise numeric mode averages them, and without
   * the numeric check `$test_result` is still the last value the loop
   * touched.
   */
  function RuleResult(kept: seq<Value>, rule: Rule, numeric: bool, last: Value): (r: Value)
    requires kept != []
    ensures rule.multiMatch == Some("REPORT_ALL") ==> r.Str?
    ensures rule.multiMatch != Some("REPORT_ALL") && numeric ==> r.Num?
    ensures rule.multiMatch != Some("REPORT_ALL") && !numeric ==> r == last
  {
    if rule.multiMatch == Some("REPORT_ALL") then Str(Implode(",", Texts(kept)))
    else if numeric then Num(Sum(kept) / |kept| as real)
    else last
  }

  /** REPORT_ALL keeps every value: splitting the result at the commas gives back their texts. */
  lemma ReportAllRoundTrip(kept: seq<Value>, rule: Rule, numeric: bool, last: Value)
    requires kept != [] && rule.multiMatch == Some("REPORT_ALL")
    requires forall k :: 0 <= k < |kept| ==> ',' !in ToStr(kept[k])
    ensures Explode(",", RuleResult(kept, rule, numeric, last).s) == Texts(kept)
  {
    ExplodeImplode(',', Texts(kept));
  }

  /** The sum lies between the count times a lower and an upper bound of the values. */
  lemma {:induction false} SumBounds(vs: seq<Value>, lo: real, hi: real)
    requires forall k :: 0 <= k < |vs| ==> lo <= ToNum(vs[k]) <= hi
    ensures |vs| as real * lo <= Sum(vs) <= |vs| as real * hi
  {
    if vs != [] {
      SumBounds(vs[1..], lo, hi);
      assert lo <= ToNum(vs[0]) <= hi;
    }
  }

  /** An average lies within any bounds of the values it averages. */
  lemma MeanBounds(vs: seq<Value>, lo: real, hi: real)
    requires vs != []
    requires forall k :: 0 <= k < |vs| ==> lo <= ToNum(vs[k]) <= hi
    ensures lo <= Sum(vs) / |vs| as real <= hi
  {
    SumBounds(vs, lo, hi);
    var n := |vs| as real;
    QuotientBounds(Sum(vs), n, lo, hi);
  }

  /** Dividing by a positive count keeps a value between the count-fold bounds. */
  lemma QuotientBounds(total: real, n: real, lo: real, hi: real)
    requires n > 0.0 && n * lo <= total <= n * hi
    ensures lo <= total / n <= hi
  {
    var mean := total / n;
    assert mean * n == total;
    assert (mean - lo) * n >= 0.0;
    assert (hi - mean) * n >= 0.0;
  }

  /** The numeric result of a rule lies within any bounds of its kept values. */
  lemma MeanWithinBounds(kept: seq<Value>, rule: Rule, last: Value, lo: real, hi: real)
    requires kept != [] && rule.multiMatch != Some("REPORT_ALL")
    requires forall k :: 0 <= k < |kept| ==> lo <= ToNum(kept[k]) <= hi
    ensures lo <= ToNum(RuleResult(kept, rule, true, last)) <= hi
  {
    MeanBounds(kept, lo, hi);
  }

  /** Outside numeric mode, a non-empty result set's last kept value is the dangling `$test_result`. */
  lemma LastIsLastKept(found: seq<Value>, rule: Rule)
    requires found != []
    ensures KeptValues(found, rule, false)[|found| - 1] == Final(found[|found| - 1], rule, false)
  {
    NothingDroppedOutsideNumeric(found, rule);
  }
}
