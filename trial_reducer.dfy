/**
 * calculate_end_result (pts_test_result_parser.php, lines 353-482): the
 * results of a test's trial runs become the one result stored for the
 * test, by display format and, for numeric results, by the profile's
 * result quantifier (MAX, MIN or the average).
 */
module TrialReducer {
  import opened Wrappers
  import opened PhpStrings
  import opened PhpValues
  import opened Normalizer

  /** The pass/fail verdict while the trials are read: none yet (PHP's -1), PASS, or FAIL. */
  datatype Verdict = Unset | Pass | Fail

  /** A trial that reports failure: loosely equal to `FALSE`, `0`, `FAIL` or `FAILED`. */
  predicate IsFailing(t: string)
  {
    LooseEq(t, "FALSE") || LooseEq(t, "0") || LooseEq(t, "FAIL") || LooseEq(t, "FAILED")
  }

  /** One trial read: a failing trial turns no verdict or PASS into FAIL; any other trial turns no verdict into PASS. */
  function VerdictStep(v: Verdict, t: string): Verdict
  {
    if IsFailing(t) then (if v == Unset || v == Pass then Fail else v)
    else (if v == Unset then Pass else v)
  }

  /** The verdict after reading the trials in order: set once a trial is read, and FAIL after a failing trial. */
  function VerdictOf(trials: seq<string>): (v: Verdict)
    ensures trials != [] ==> v != Unset
    ensures trials != [] && IsFailing(trials[|trials| - 1]) ==> v == Fail
  {
    if trials == [] then Unset
    else VerdictStep(VerdictOf(trials[..|trials| - 1]), trials[|trials| - 1])
  }

  /** FAIL is final: the verdict is FAIL exactly when some trial fails, and PASS when there are trials and none fails. */
  lemma {:induction false} FailIffAnyFails(trials: seq<string>)
    ensures VerdictOf(trials) == Unset <==> trials == []
    ensures VerdictOf(trials) == Fail <==> exists k :: 0 <= k < |trials| && IsFailing(trials[k])
  {
    hide IsFailing;
    if trials != [] {
      var init := trials[..|trials| - 1];
      FailIffAnyFails(init);
      assert forall k :: 0 <= k < |init| ==> init[k] == trials[k];
      if !IsFailing(trials[|trials| - 1]) && VerdictOf(trials) == Fail {
        var k :| 0 <= k < |init| && IsFailing(init[k]);
        assert IsFailing(trials[k]);
      }
    }
  }

  /** The verdict as PHP stores it. */
  function VerdictValue(v: Verdict): Value
  {
    match v
    case Unset => Num(-1.0)
    case Pass => Str("PASS")
    case Fail => Str("FAIL")
  }

  /** The foreach of lines 398-414. */
  method ReadVerdict(trials: seq<string>) returns (v: Verdict)
    ensures v == VerdictOf(trials)
  {
    v := Unset;
    for i := 0 to |trials|
      invariant v == VerdictOf(trials[..i])
    {
      var result := trials[i];
      if LooseEq(result, "FALSE") || LooseEq(result, "0") || LooseEq(result, "FAIL") || LooseEq(result, "FAILED") {
        if v == Unset || v == Pass {
          v := Fail;
        }
      } else if v == Unset {
        v := Pass;
      }
      assert trials[..i + 1][..i] == trials[..i];
    }
    assert trials[..|trials|] == trials;
  }

  /** The running sums of the averaging loop: total, count, and whether a counted trial had a decimal point. */
  datatype Tally = Tally(total: real, count: nat, isFloat: bool)

  /** The tally after reading the trials in order; each trial is trimmed and counted only when numeric. */
  function TallyOf(trials: seq<string>): (t: Tally)
    ensures t.count <= |trials|
  {
    if trials == [] then Tally(0.0, 0, false)
    else
      var t := TallyOf(trials[..|trials| - 1]);
      var r := Trim(trials[|trials| - 1]);
      if IsNumeric(r) then Tally(t.total + ToNumber(r), t.count + 1, t.isFloat || StrPos(r, ".").Some?) else t
  }

  /** A trial that counts: numeric once trimmed. */
  predicate Counts(t: string)
  {
    IsNumeric(Trim(t))
  }

  /** The count is zero exactly when no trial counts, and the decimal-point flag is set exactly when a counted trial has one. */
  lemma {:induction false} TallyFlags(trials: seq<string>)
    ensures TallyOf(trials).count == 0 <==> forall k :: 0 <= k < |trials| ==> !Counts(trials[k])
    ensures TallyOf(trials).isFloat <==> exists k :: 0 <= k < |trials| && Counts(trials[k]) && '.' in Trim(trials[k])
  {
    hide IsNumeric, ToNumber, Trim;
    if trials != [] {
      var init := trials[..|trials| - 1];
      TallyFlags(init);
      assert forall k :: 0 <= k < |init| ==> init[k] == trials[k];
      var last := trials[|trials| - 1];
      ContainsChar(Trim(last), '.');
      if TallyOf(trials).isFloat && !(Counts(last) && '.' in Trim(last)) {
        var k :| 0 <= k < |init| && Counts(init[k]) && '.' in Trim(init[k]);
        assert Counts(trials[k]) && '.' in Trim(trials[k]);
      }
      if TallyOf(trials).count != 0 && !Counts(last) {
        assert TallyOf(init).count != 0;
      }
    }
  }

  /** The total lies between the count times any bounds of the counted trials. */
  lemma {:induction false} TallyBounds(trials: seq<string>, lo: real, hi: real)
    requires forall k :: 0 <= k < |trials| && Counts(trials[k]) ==> lo <= ToNumber(Trim(trials[k])) <= hi
    ensures Bounded(TallyOf(trials), lo, hi)
  {
    hide IsNumeric, ToNumber, Trim, StrPos;
    if trials != [] {
      hide Bounded;
      var init := trials[..|trials| - 1];
      assert forall k :: 0 <= k < |init| ==> init[k] == trials[k];
      TallyBounds(init, lo, hi);
      var r := Trim(trials[|trials| - 1]);
      if IsNumeric(r) {
        assert Counts(trials[|trials| - 1]);
        BoundedStep(TallyOf(init), ToNumber(r), StrPos(r, ".").Some?, lo, hi);
      }
    }
  }

  /** The total lies between the count times the bounds. */
  predicate Bounded(t: Tally, lo: real, hi: real)
  {
    t.count as real * lo <= t.total <= t.count as real * hi
  }

  /** Counting one more value within the bounds keeps the tally within them. */
  lemma BoundedStep(t: Tally, v: real, dot: bool, lo: real, hi: real)
    requires Bounded(t, lo, hi) && lo <= v <= hi
    ensures Bounded(Tally(t.total + v, t.count + 1, t.isFloat || dot), lo, hi)
  {
    var c := t.count as real;
    assert (c + 1.0) * lo == c * lo + lo;
    assert (c + 1.0) * hi == c * hi + hi;
  }

  /** The average the loop computes, `TOTAL / max(COUNT, 1)`: times the count it gives back the total. */
  function Average(t: Tally): (a: real)
    ensures t.count > 0 ==> a * t.count as real == t.total
    ensures t.count == 0 ==> a == t.total
  {
    t.total / (if t.count > 0 then t.count else 1) as real
  }

  /** With a counted trial, the average lies within any bounds of the counted trials; trials that do not count do not matter. */
  lemma AverageWithinBounds(trials: seq<string>, lo: real, hi: real)
    requires TallyOf(trials).count > 0
    requires forall k :: 0 <= k < |trials| && Counts(trials[k]) ==> lo <= ToNumber(Trim(trials[k])) <= hi
    ensures lo <= Average(TallyOf(trials)) <= hi
  {
    hide TallyOf;
    TallyBounds(trials, lo, hi);
    var t := TallyOf(trials);
    QuotientBounds(t.total, t.count as real, lo, hi);
  }

  /** The foreach of lines 435-449. */
  method TallyTrials(trials: seq<string>) returns (t: Tally)
    ensures t == TallyOf(trials)
  {
    hide IsNumeric, ToNumber, Trim, StrPos;
    t := Tally(0.0, 0, false);
    for i := 0 to |trials|
      invariant t == TallyOf(trials[..i])
    {
      var result := Trim(trials[i]);
      if IsNumeric(result) {
        t := Tally(t.total + ToNumber(result), t.count + 1, t.isFloat || StrPos(result, ".").Some?);
      }
      assert trials[..i + 1][..i] == trials[..i];
    }
    assert trials[..|trials|] == trials;
  }

  /** PHP's `round($x)`: to the nearest whole number, halves away from zero; the sign is kept. */
  function Round(x: real): (r: real)
    ensures x >= 0.0 ==> r >= 0.0
    ensures x <= 0.0 ==> r <= 0.0
  {
    if x >= 0.0 then (x + 0.5).Floor as real else -((-x + 0.5).Floor as real)
  }

  /** The rounded value is a whole number at most one half away. */
  lemma RoundNearest(x: real)
    ensures Round(x) == Round(x).Floor as real
    ensures -0.5 <= Round(x) - x <= 0.5
    ensures x == x.Floor as real ==> Round(x) == x
  {
    if x >= 0.0 {
      var f := (x + 0.5).Floor;
      assert f as real <= x + 0.5 < f as real + 1.0;
      if x == x.Floor as real {
        assert x.Floor as real <= x + 0.5 < x.Floor as real + 1.0;
        assert f == x.Floor;
      }
    } else {
      var f := (-x + 0.5).Floor;
      assert f as real <= -x + 0.5 < f as real + 1.0;
      assert Round(x) == (-f) as real;
      if x == x.Floor as real {
        var n := -x.Floor;
        assert -x == n as real;
        assert n as real <= -x + 0.5 < n as real + 1.0;
        assert f == n;
      }
    }
  }

  /** PHP's `round($x, 2)`. */
  function Round2(x: real): real
  {
    Round(x * 100.0) / 100.0
  }

  /** `round($b, 2)` for a recorded bound: null (`None`) when the text does not start with a number. */
  function RoundedBound(b: string): Option<real>
  {
    var sc := ScanNumber(b);
    if sc.Some? then Some(Round2(sc.value.value)) else None
  }

  /** What the test's active result holds: the result and its minimum and maximum. */
  datatype Active = Active(result: Value, minResult: Value, maxResult: Value)

  /**
   * The averaged result: `set_precision` applied to the average, rounded
   * when no counted trial had a decimal point; the smallest recorded
   * minimum (the largest maximum), rounded to two places, is stored when
   * it is non-zero and below (above) the result.
   */
  function AverageOutcome(trials: seq<string>, mins: seq<string>, maxs: seq<string>, setPrecision: real -> real, a: Active): (b: Active)
    ensures b.result.Num?
  {
    var t := TallyOf(trials);
    var precise := setPrecision(Average(t));
    var end := if t.isFloat then precise else Round(precise);
    var lo := if mins != [] then RoundedBound(Min(mins)) else None;
    var hi := if maxs != [] then RoundedBound(Max(maxs)) else None;
    Active(
      Num(end),
      if lo.Some? && lo.value < end && lo.value != 0.0 then Num(lo.value) else a.minResult,
      if hi.Some? && hi.value > end && hi.value != 0.0 then Num(hi.value) else a.maxResult)
  }

  /** A stored minimum is a non-zero number below the result, and a stored maximum a non-zero number above it. */
  lemma BracketsAroundResult(trials: seq<string>, mins: seq<string>, maxs: seq<string>, setPrecision: real -> real, a: Active)
    ensures var b := AverageOutcome(trials, mins, maxs, setPrecision, a);
      (b.minResult == a.minResult || (b.minResult.Num? && b.minResult.x != 0.0 && b.minResult.x < b.result.x))
      && (b.maxResult == a.maxResult || (b.maxResult.Num? && b.maxResult.x != 0.0 && b.maxResult.x > b.result.x))
  {
    hide TallyOf, RoundedBound, Min, Max;
  }

  /**
   * The result of the trials, by display format: nothing to do for
   * NO_RESULT (0), the first trial for line graphs and TEST_COUNT_PASS,
   * the captured image for IMAGE_COMPARISON, the verdict (or the single
   * trial) for PASS_FAIL and MULTI_PASS_FAIL, and otherwise MAX, MIN or
   * the average by quantifier. No trials store 0.
   */
  function EndOutcome(format: string, quantifier: string, trials: seq<string>, mins: seq<string>, maxs: seq<string>,
                      setPrecision: real -> real, imageData: Option<string>, a: Active): (b: Active)
    ensures trials == [] ==> b == a.(result := Num(0.0))
    ensures b.minResult != a.minResult || b.maxResult != a.maxResult ==>
      format !in {"NO_RESULT", "LINE_GRAPH", "FILLED_LINE_GRAPH", "TEST_COUNT_PASS", "IMAGE_COMPARISON", "PASS_FAIL", "MULTI_PASS_FAIL"}
      && quantifier != "MAX" && quantifier != "MIN"
  {
    if trials == [] then a.(result := Num(0.0))
    else if format == "NO_RESULT" then a.(result := Num(0.0))
    else if format in {"LINE_GRAPH", "FILLED_LINE_GRAPH", "TEST_COUNT_PASS"} then a.(result := Str(trials[0]))
    else if format == "IMAGE_COMPARISON" then a.(result := if imageData.Some? then Str(imageData.value) else Num(0.0))
    else if format in {"PASS_FAIL", "MULTI_PASS_FAIL"} then
      a.(result := if |trials| == 1 then Str(trials[0]) else VerdictValue(VerdictOf(trials)))
    else if quantifier == "MAX" then a.(result := Str(Max(trials)))
    else if quantifier == "MIN" then a.(result := Str(Min(trials)))
    else AverageOutcome(trials, mins, maxs, setPrecision, a)
  }

  /** With two or more trials a PASS_FAIL result is FAIL exactly when some trial fails, and PASS otherwise. */
  lemma PassFailEndResult(format: string, quantifier: string, trials: seq<string>, mins: seq<string>, maxs: seq<string>,
                          setPrecision: real -> real, imageData: Option<string>, a: Active)
    requires format in {"PASS_FAIL", "MULTI_PASS_FAIL"} && |trials| >= 2
    ensures var r := EndOutcome(format, quantifier, trials, mins, maxs, setPrecision, imageData, a).result;
      (r == Str("FAIL") <==> exists k :: 0 <= k < |trials| && IsFailing(trials[k]))
      && (r == Str("PASS") <==> forall k :: 0 <= k < |trials| ==> !IsFailing(trials[k]))
  {
    hide VerdictOf, IsFailing;
    FailIffAnyFails(trials);
  }

  /** A numeric MAX or MIN result is the largest or the smallest trial, and one of them. */
  lemma QuantifiedEndResult(format: string, quantifier: string, trials: seq<string>, mins: seq<string>, maxs: seq<string>,
                            setPrecision: real -> real, imageData: Option<string>, a: Active)
    requires format !in {"NO_RESULT", "LINE_GRAPH", "FILLED_LINE_GRAPH", "TEST_COUNT_PASS", "IMAGE_COMPARISON", "PASS_FAIL", "MULTI_PASS_FAIL"}
    requires quantifier in {"MAX", "MIN"} && trials != [] && AllNumeric(trials)
    ensures var r := EndOutcome(format, quantifier, trials, mins, maxs, setPrecision, imageData, a).result;
      r.Str? && r.s in trials
      && (quantifier == "MAX" ==> forall k :: 0 <= k < |trials| ==> ToNumber(trials[k]) <= ToNumber(r.s))
      && (quantifier == "MIN" ==> forall k :: 0 <= k < |trials| ==> ToNumber(r.s) <= ToNumber(trials[k]))
  {
    hide Max, Min, AverageOutcome, VerdictOf, IsNumeric, ToNumber;
    MaxOfNumbers(trials);
    MinOfNumbers(trials);
  }

  /** The test's active result buffer. */
  class ActiveResult {
    var result: Value
    var minResult: Value
    var maxResult: Value

    /** The stored values. */
    function Contents(): Active
      reads this
    {
      Active(result, minResult, maxResult)
    }

    /** A buffer with nothing stored. */
    constructor()
      ensures Contents() == Active(Null, Null, Null)
    {
      result := Null;
      minResult := Null;
      maxResult := Null;
    }

    /** The averaging branch, lines 428-476. */
    method StoreAverage(trials: seq<string>, mins: seq<string>, maxs: seq<string>, setPrecision: real -> real)
      modifies this
      ensures Contents() == AverageOutcome(trials, mins, maxs, setPrecision, old(Contents()))
    {
      hide TallyOf, RoundedBound, Min, Max;
      var t := TallyTrials(trials);
      var end := setPrecision(Average(t));
      if !t.isFloat {
        end := Round(end);
      }
      if |mins| > 0 {
        var lo := RoundedBound(Min(mins));
        if lo.Some? && lo.value < end && lo.value != 0.0 {
          minResult := Num(lo.value);
        }
      }
      if |maxs| > 0 {
        var hi := RoundedBound(Max(maxs));
        if hi.Some? && hi.value > end && hi.value != 0.0 {
          maxResult := Num(hi.value);
        }
      }
      result := Num(end);
    }

    /**
     * calculate_end_result: stores the result of the trials; answers
     * `false` when there were none and null otherwise.
     */
    method CalculateEndResult(format: string, quantifier: string, trials: seq<string>, mins: seq<string>, maxs: seq<string>,
                              setPrecision: real -> real, imageData: Option<string>) returns (r: Value)
      modifies this
      ensures Contents() == EndOutcome(format, quantifier, trials, mins, maxs, setPrecision, imageData, old(Contents()))
      ensures r == if trials == [] then False else Null
    {
      hide AverageOutcome, VerdictOf, Max, Min;
      if |trials| == 0 {
        result := Num(0.0);
        return False;
      }
      var end := Num(0.0);
      if format == "NO_RESULT" {
      } else if format in {"LINE_GRAPH", "FILLED_LINE_GRAPH", "TEST_COUNT_PASS"} {
        end := Str(trials[0]);
      } else if format == "IMAGE_COMPARISON" {
        if imageData.Some? {
          end := Str(imageData.value);
        }
      } else if format in {"PASS_FAIL", "MULTI_PASS_FAIL"} {
        end := Num(-1.0);
        if |trials| == 1 {
          end := Str(trials[0]);
        } else {
          var v := ReadVerdict(trials);
          end := VerdictValue(v);
        }
      } else if quantifier == "MAX" {
        end := Str(Max(trials));
      } else if quantifier == "MIN" {
        end := Str(Min(trials));
      } else {
        StoreAverage(trials, mins, maxs, setPrecision);
        return Null;
      }
      result := end;
      return Null;
    }
  }
}
