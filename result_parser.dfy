/**
 * The parse of one run's log (pts_test_result_parser.php): the loop over
 * the `ResultsParser` rules of parse_result_process (lines 557-945) and
 * parse_result (lines 202-248), which runs that loop once for the
 * result and, for numeric results, once more for each of the MIN and MAX
 * quantifiers, and stores what it finds in the test run.
 */
module ResultParser {
  import opened Wrappers
  import opened PhpStrings
  import opened PhpValues
  import opened ResultRules
  import opened Extraction
  import opened Normalizer
  import opened FrameSeries

  /**
   * What a parse works with: the test arguments and the user-set ones,
   * whether results must be numeric, the normalised prefix, the log's
   * contents (`None` when there is no log file) and the bound on
   * multi-match passes.
   */
  datatype Context = Context(args: string, extra: string, numeric: bool, prefix: string, log: Option<string>, maxPasses: nat)

  /** What one rule does: carry on to the next rule with `$test_result` holding a value, return, or stop with a result. */
  datatype Outcome = Continue(carried: Value) | Return(value: Value) | Break(value: Value)

  /**
   * Line 771: the log is searched when there is a search key, a
   * before-hint, a truthy after-hint, or the key is the template line's
   * first token, and no frame-time template handled the log.
   */
  predicate Extracts(rule: Rule, plan: Plan, processed: bool): (e: bool)
    requires |plan.templateTokens| > 0
    ensures e ==> !processed
    ensures !processed && (plan.searchKey != "" || Given(rule.lineBeforeHint)) ==> e
  {
    (plan.searchKey != "" || Given(rule.lineBeforeHint) || NotEmpty(rule.lineAfterHint)
     || LooseEq(plan.templateTokens[0], plan.key)) && !processed
  }

  /**
   * The values a rule finds in the log: the frame-time value (a non-zero
   * number, when there is one), or those of the multi-match loop, at most
   * one per pass.
   */
  function Found(rule: Rule, plan: Plan, prefix: string, output: string, removeOutliers: seq<real> -> seq<real>, maxPasses: nat): (found: seq<Value>)
    requires |plan.templateTokens| > 0
    ensures |found| <= maxPasses + 1
    ensures TemplateSamples(TemplateText(rule), output, removeOutliers).processed ==>
      |found| <= 1 && forall k :: 0 <= k < |found| ==> found[k].Num? && found[k].x != 0.0
    ensures !TemplateSamples(TemplateText(rule), output, removeOutliers).processed && !Extracts(rule, plan, false) ==> found == []
  {
    var series := TemplateSamples(TemplateText(rule), output, removeOutliers);
    var fv := SeriesValue(series.samples, prefix);
    if series.processed then (if fv.Some? then [Num(fv.value)] else [])
    else if Extracts(rule, plan, false) then MatchPasses(Cursor(Some(output), plan.searchKey), rule, plan, maxPasses)
    else []
  }

  /** The two ways a rule finds values: a frame-time template, or the multi-match loop when the log is searched. */
  lemma FoundCases(rule: Rule, plan: Plan, prefix: string, output: string, removeOutliers: seq<real> -> seq<real>, maxPasses: nat)
    requires |plan.templateTokens| > 0
    ensures var series := TemplateSamples(TemplateText(rule), output, removeOutliers);
      var fv := SeriesValue(series.samples, prefix);
      series.processed ==> Found(rule, plan, prefix, output, removeOutliers, maxPasses) == (if fv.Some? then [Num(fv.value)] else [])
    ensures !TemplateSamples(TemplateText(rule), output, removeOutliers).processed ==>
      Found(rule, plan, prefix, output, removeOutliers, maxPasses) ==
        (if Extracts(rule, plan, false) then MatchPasses(Cursor(Some(output), plan.searchKey), rule, plan, maxPasses) else [])
  {
  }

  /**
   * One rule of the loop. A rule whose MatchToTestArguments is not in the
   * arguments is skipped; a key missing under a prefix, or a missing log,
   * ends the parse with `false`; a rule that keeps no value leaves
   * `$test_result` bound to the last value it found (or as it was); a
   * truthy result stops the loop.
   */
  function RuleStep(rule: Rule, cur: Value, ctx: Context, removeOutliers: seq<real> -> seq<real>): (o: Outcome)
    ensures o.Break? ==> Truthy(o.value)
    ensures o.Return? ==> o.value == False
    ensures SkipsRule(rule, ctx.args) ==> o == Continue(cur)
  {
    if SkipsRule(rule, ctx.args) then Continue(cur)
    else
      var key := ResultKey(rule.resultKey, ctx.prefix, ctx.args, ctx.extra);
      if AbortsParse(ctx.prefix, TemplateText(rule), key) then Return(False)
      else if ctx.log.None? then Return(False)
      else
        var plan := Analyze(rule, key);
        var found := Found(rule, plan, ctx.prefix, ctx.log.value, removeOutliers, ctx.maxPasses);
        var kept := KeptValues(found, rule, ctx.numeric);
        var carried := if found == [] then cur else Final(found[|found| - 1], rule, ctx.numeric);
        if kept == [] then Continue(carried)
        else
          var r := RuleResult(kept, rule, ctx.numeric, carried);
          if Truthy(r) then Break(r) else Continue(r)
  }

  /** The parse's value, and the rule that stopped the loop with it, if one did. */
  datatype Parsed = Parsed(value: Value, stopper: Option<Rule>)

  /** The loop over the rules from `$test_result` holding `cur`. */
  function Process(rules: seq<Rule>, cur: Value, ctx: Context, removeOutliers: seq<real> -> seq<real>): (p: Parsed)
    decreases |rules|
    ensures p.stopper.Some? ==> p.stopper.value in rules
    ensures rules == [] ==> p == Parsed(cur, None)
  {
    if rules == [] then Parsed(cur, None)
    else
      match RuleStep(rules[0], cur, ctx, removeOutliers)
      case Continue(v) => Process(rules[1..], v, ctx, removeOutliers)
      case Return(v) => Parsed(v, None)
      case Break(v) => Parsed(v, Some(rules[0]))
  }

  /** A parse stopped by a rule has a truthy value, and that rule is one of the rules. */
  lemma {:induction false} StoppedByTruthy(rules: seq<Rule>, cur: Value, ctx: Context, removeOutliers: seq<real> -> seq<real>)
    ensures var p := Process(rules, cur, ctx, removeOutliers); p.stopper.Some? ==> Truthy(p.value) && p.stopper.value in rules
    decreases |rules|
  {
    if rules != [] && RuleStep(rules[0], cur, ctx, removeOutliers).Continue? {
      StoppedByTruthy(rules[1..], RuleStep(rules[0], cur, ctx, removeOutliers).carried, ctx, removeOutliers);
    }
  }

  /** When every rule is skipped, `$test_result` comes back as it started. */
  lemma {:induction false} AllSkipped(rules: seq<Rule>, cur: Value, ctx: Context, removeOutliers: seq<real> -> seq<real>)
    requires forall k :: 0 <= k < |rules| ==> SkipsRule(rules[k], ctx.args)
    ensures Process(rules, cur, ctx, removeOutliers) == Parsed(cur, None)
    decreases |rules|
  {
    if rules != [] {
      AllSkipped(rules[1..], cur, ctx, removeOutliers);
    }
  }

  /** Without a log file the parse gives `false`. */
  lemma {:induction false} NoLogNoResult(rules: seq<Rule>, ctx: Context, removeOutliers: seq<real> -> seq<real>)
    requires ctx.log.None?
    ensures Process(rules, False, ctx, removeOutliers) == Parsed(False, None)
    decreases |rules|
  {
    if rules != [] {
      NoLogNoResult(rules[1..], ctx, removeOutliers);
    }
  }

  /** A rule that is not skipped and whose key is missing under a prefix ends the parse with `false`, whatever follows. */
  lemma AbortEndsParse(rules: seq<Rule>, cur: Value, ctx: Context, removeOutliers: seq<real> -> seq<real>)
    requires rules != [] && !SkipsRule(rules[0], ctx.args)
    requires AbortsParse(ctx.prefix, TemplateText(rules[0]), ResultKey(rules[0].resultKey, ctx.prefix, ctx.args, ctx.extra))
    ensures Process(rules, cur, ctx, removeOutliers) == Parsed(False, None)
  {
  }

  /**
   * In numeric mode, a rule that stops the loop without REPORT_ALL stops
   * it with the average of its kept values, which lies within any bounds
   * of them.
   */
  lemma NumericStopWithinBounds(rule: Rule, cur: Value, ctx: Context, removeOutliers: seq<real> -> seq<real>, lo: real, hi: real)
    requires ctx.numeric && rule.multiMatch != Some("REPORT_ALL") && ctx.log.Some?
    requires var o := RuleStep(rule, cur, ctx, removeOutliers); o.Break?
    requires var key := ResultKey(rule.resultKey, ctx.prefix, ctx.args, ctx.extra);
      var found := Found(rule, Analyze(rule, key), ctx.prefix, ctx.log.value, removeOutliers, ctx.maxPasses);
      forall k :: 0 <= k < |KeptValues(found, rule, true)| ==> lo <= ToNum(KeptValues(found, rule, true)[k]) <= hi
    ensures RuleStep(rule, cur, ctx, removeOutliers).value.Num?
    ensures lo <= ToNum(RuleStep(rule, cur, ctx, removeOutliers).value) <= hi
  {
    hide Found, KeptValues, Analyze, ResultKey, Final;
    var key := ResultKey(rule.resultKey, ctx.prefix, ctx.args, ctx.extra);
    var found := Found(rule, Analyze(rule, key), ctx.prefix, ctx.log.value, removeOutliers, ctx.maxPasses);
    var kept := KeptValues(found, rule, true);
    var carried := if found == [] then cur else Final(found[|found| - 1], rule, true);
    MeanWithinBounds(kept, rule, carried, lo, hi);
  }

  /** The result settings a stopping rule may override. */
  datatype Settings = Settings(scale: string, proportion: string, precision: string)

  /** A stopping rule sets the scale, proportion and precision it gives; the others stay. */
  function Applied(s: Settings, stopper: Option<Rule>): (t: Settings)
    ensures stopper.None? ==> t == s
    ensures stopper.Some? && Given(stopper.value.resultScale) ==> t.scale == stopper.value.resultScale.value
    ensures stopper.Some? && !Given(stopper.value.resultScale) ==> t.scale == s.scale
    ensures stopper.Some? && Given(stopper.value.resultProportion) ==> t.proportion == stopper.value.resultProportion.value
    ensures stopper.Some? && !Given(stopper.value.resultProportion) ==> t.proportion == s.proportion
    ensures stopper.Some? && Given(stopper.value.resultPrecision) ==> t.precision == stopper.value.resultPrecision.value
    ensures stopper.Some? && !Given(stopper.value.resultPrecision) ==> t.precision == s.precision
  {
    match stopper
    case None => s
    case Some(rule) =>
      Settings(
        if Given(rule.resultScale) then rule.resultScale.value else s.scale,
        if Given(rule.resultProportion) then rule.resultProportion.value else s.proportion,
        if Given(rule.resultPrecision) then rule.resultPrecision.value else s.precision)
  }

  /** A test profile as the parse sees it. */
  datatype Profile = Profile(
    hasParser: bool,
    defaultArguments: string,
    defaultPostArguments: string,
    displayFormat: string,
    rules: seq<Rule>)

  /** The argument string rules are matched against: defaults, the user's arguments without the defaults, post-arguments. */
  function TestArguments(profile: Profile, extra: string): (args: string)
    ensures args == [] || (!IsTrimChar(args[0]) && !IsTrimChar(args[|args| - 1]))
  {
    Trim(profile.defaultArguments + " " + Replace(extra, profile.defaultArguments, "") + " " + profile.defaultPostArguments)
  }

  /** User arguments that are exactly the defaults are not repeated. */
  lemma DefaultsNotRepeated(profile: Profile)
    requires profile.defaultArguments != ""
    ensures TestArguments(profile, profile.defaultArguments) == Trim(profile.defaultArguments + "  " + profile.defaultPostArguments)
  {
    hide Trim;
    var d := profile.defaultArguments;
    assert d[..|d|] == d;
    assert d[|d|..] == [];
    assert Replace([], d, "") == [];
    assert Replace(d, d, "") == "" + Replace(d[|d|..], d, "");
    assert d + " " + "" + " " + profile.defaultPostArguments == d + "  " + profile.defaultPostArguments;
  }

  /** The text that the PASS/FAIL display format keeps as it is. */
  predicate IsVerdictText(v: Value)
  {
    ReplaceEach(ToStr(v), ["PASS", "FAIL", ","], "") == ""
  }

  /** Lines 218-230: a PASS/FAIL/comma text is kept; `TRUE`, `PASS` or `PASSED` becomes PASS; anything else FAIL. */
  function PassFailVerdict(v: Value): (r: Value)
    ensures r == v || r == Str("PASS") || r == Str("FAIL")
    ensures IsVerdictText(v) ==> r == v
  {
    if IsVerdictText(v) then v
    else if LooseEqValue(v, "TRUE") || LooseEqValue(v, "PASS") || LooseEqValue(v, "PASSED") then Str("PASS")
    else Str("FAIL")
  }

  /** The verdict is always a text that is kept as it is, so normalising it twice changes nothing. */
  lemma PassFailIdempotent(v: Value)
    ensures IsVerdictText(PassFailVerdict(v))
    ensures PassFailVerdict(PassFailVerdict(v)) == PassFailVerdict(v)
  {
    assert "PASS"[..4] == "PASS" && "PASS"[4..] == "";
    assert "FAIL"[..4] == "FAIL" && "FAIL"[4..] == "";
    assert Replace("PASS", "PASS", "") == "";
    assert Replace("FAIL", "PASS", "") == "FAIL" by {
      ReplaceWithoutOccurrence("FAIL", "PASS", "");
    }
    assert Replace("FAIL", "FAIL", "") == "";
  }

  /** A number's text always holds a digit, which the replacements leave, so a number is never verdict text. */
  lemma NumberIsNoVerdict(x: real)
    ensures !IsVerdictText(Num(x))
  {
    var s := NumToString(x);
    NumTextHasDigit(x);
    var c :| IsDigit(c) && c in s;
    ReplaceKeepsForeign(s, "PASS", "", c);
    var s1 := Replace(s, "PASS", "");
    ReplaceKeepsForeign(s1, "FAIL", "", c);
    var s2 := Replace(s1, "FAIL", "");
    ReplaceKeepsForeign(s2, ",", "", c);
    var needles := ["PASS", "FAIL", ","];
    assert needles[1..] == ["FAIL", ","] && needles[1..][1..] == [","] && needles[1..][1..][1..] == [];
    assert ReplaceEach(s, needles, "") == Replace(s2, ",", "");
  }

  /**
   * A string that is not verdict text becomes PASS exactly when it is
   * TRUE or PASSED (PASS itself is verdict text), and FAIL otherwise.
   */
  lemma PassFailOfText(s: string)
    requires !IsVerdictText(Str(s))
    ensures PassFailVerdict(Str(s)) == (if s == "TRUE" || s == "PASSED" then Str("PASS") else Str("FAIL"))
  {
    hide ReplaceEach;
    WordsAreNotNumbers();
    PassFailIdempotent(Str("PASS"));
    assert PassFailVerdict(Str("PASS")) == Str("PASS");
  }

  /**
   * Under PHP 7's loose `==`, a number equals TRUE, PASS or PASSED
   * exactly when it is 0, so the number 0 becomes PASS and every other
   * number FAIL.
   */
  lemma PassFailOfNumber(x: real)
    ensures PassFailVerdict(Num(x)) == (if x == 0.0 then Str("PASS") else Str("FAIL"))
  {
    WordsAreNotNumbers();
    NumberIsNoVerdict(x);
  }

  /** What parse_result leaves in the test run: the result, its minimum and maximum, and the settings. */
  datatype RunState = RunState(active: Value, minimum: Value, maximum: Value, settings: Settings)

  /**
   * Lines 202-248. Without a parser definition nothing changes. IMAGE_COMPARISON
   * stores the image result; PASS_FAIL and MULTI_PASS_FAIL parse without the
   * numeric check and normalise the verdict; every other format parses
   * numerically, and unless BAR_GRAPH gives a non-numeric result (stored as
   * `false`), parses again with the MIN and MAX prefixes.
   */
  function ParseOutcome(profile: Profile, extra: string, s: RunState, log: Option<string>, imageResult: Value,
                        removeOutliers: seq<real> -> seq<real>, maxPasses: nat): (r: RunState)
    ensures !profile.hasParser ==> r == s
    ensures profile.hasParser && profile.displayFormat == "IMAGE_COMPARISON" ==> r == s.(active := imageResult)
    ensures profile.displayFormat in {"IMAGE_COMPARISON", "PASS_FAIL", "MULTI_PASS_FAIL"} ==>
      r.minimum == s.minimum && r.maximum == s.maximum
  {
    if !profile.hasParser then s
    else
      var args := TestArguments(profile, extra);
      var f := profile.displayFormat;
      if f == "IMAGE_COMPARISON" then s.(active := imageResult)
      else if f == "PASS_FAIL" || f == "MULTI_PASS_FAIL" then
        var p := Process(profile.rules, False, Context(args, extra, false, "", log, maxPasses), removeOutliers);
        s.(active := PassFailVerdict(p.value), settings := Applied(s.settings, p.stopper))
      else NumericOutcome(profile, extra, args, s, log, removeOutliers, maxPasses)
  }

  /**
   * A numeric parse: unless BAR_GRAPH gives a non-numeric result (stored
   * as `false`), the parse is repeated with the MIN and MAX prefixes.
   */
  function NumericOutcome(profile: Profile, extra: string, args: string, s: RunState, log: Option<string>,
                          removeOutliers: seq<real> -> seq<real>, maxPasses: nat): (r: RunState)
    ensures profile.displayFormat == "BAR_GRAPH" && r.active == False ==> r.minimum == s.minimum && r.maximum == s.maximum
    ensures profile.displayFormat != "BAR_GRAPH" || IsNumericValue(r.active) ==>
      r.minimum == Process(profile.rules, False, Context(args, extra, true, "MIN_", log, maxPasses), removeOutliers).value
      && r.maximum == Process(profile.rules, False, Context(args, extra, true, "MAX_", log, maxPasses), removeOutliers).value
  {
    var p := Process(profile.rules, False, Context(args, extra, true, "", log, maxPasses), removeOutliers);
    var s1 := s.(active := p.value, settings := Applied(s.settings, p.stopper));
    if profile.displayFormat == "BAR_GRAPH" && !IsNumericValue(p.value) then s1.(active := False)
    else
      var lo := Process(profile.rules, False, Context(args, extra, true, "MIN_", log, maxPasses), removeOutliers);
      var s2 := s1.(minimum := lo.value, settings := Applied(s1.settings, lo.stopper));
      var hi := Process(profile.rules, False, Context(args, extra, true, "MAX_", log, maxPasses), removeOutliers);
      s2.(maximum := hi.value, settings := Applied(s2.settings, hi.stopper))
  }

  /** A bar graph's stored result is a number or `false`. */
  lemma BarGraphNumericOrFalse(profile: Profile, extra: string, s: RunState, log: Option<string>, imageResult: Value,
                               removeOutliers: seq<real> -> seq<real>, maxPasses: nat)
    requires profile.hasParser && profile.displayFormat == "BAR_GRAPH"
    ensures var a := ParseOutcome(profile, extra, s, log, imageResult, removeOutliers, maxPasses).active;
      a == False || IsNumericValue(a)
  {
    hide Process, Applied, TestArguments;
  }

  /** A PASS/FAIL run stores PASS, FAIL, or a text made of PASS, FAIL and commas. */
  lemma PassFailStored(profile: Profile, extra: string, s: RunState, log: Option<string>, imageResult: Value,
                       removeOutliers: seq<real> -> seq<real>, maxPasses: nat)
    requires profile.hasParser && profile.displayFormat in {"PASS_FAIL", "MULTI_PASS_FAIL"}
    ensures IsVerdictText(ParseOutcome(profile, extra, s, log, imageResult, removeOutliers, maxPasses).active)
  {
    hide Process, Applied, TestArguments, PassFailVerdict, IsVerdictText;
    var args := TestArguments(profile, extra);
    var p := Process(profile.rules, False, Context(args, extra, false, "", log, maxPasses), removeOutliers);
    PassFailIdempotent(p.value);
  }

  /** Without a log file a numeric run stores `false` and, unless it is a bar graph, `false` as minimum and maximum. */
  lemma NoLogStoresFalse(profile: Profile, extra: string, s: RunState, imageResult: Value,
                         removeOutliers: seq<real> -> seq<real>, maxPasses: nat)
    requires profile.hasParser && profile.displayFormat !in {"IMAGE_COMPARISON", "PASS_FAIL", "MULTI_PASS_FAIL"}
    ensures var t := ParseOutcome(profile, extra, s, None, imageResult, removeOutliers, maxPasses);
      t.active == False && t.settings == s.settings
      && (profile.displayFormat != "BAR_GRAPH" ==> t.minimum == False && t.maximum == False)
  {
    hide Process, Applied, TestArguments;
    var args := TestArguments(profile, extra);
    NoLogNoResult(profile.rules, Context(args, extra, true, "", None, maxPasses), removeOutliers);
    NoLogNoResult(profile.rules, Context(args, extra, true, "MIN_", None, maxPasses), removeOutliers);
    NoLogNoResult(profile.rules, Context(args, extra, true, "MAX_", None, maxPasses), removeOutliers);
  }

  /** The test run request: its profile and user arguments, and the results the parse stores in it. */
  class TestRun {
    const profile: Profile
    const extraArguments: string
    var activeResult: Value
    var activeMin: Value
    var activeMax: Value
    var settings: Settings

    /** The stored results and settings. */
    function State(): RunState
      reads this
    {
      RunState(activeResult, activeMin, activeMax, settings)
    }

    /** A run with nothing parsed yet. */
    constructor(profile: Profile, extraArguments: string, settings: Settings)
      ensures this.profile == profile && this.extraArguments == extraArguments
      ensures State() == RunState(Null, Null, Null, settings)
    {
      this.profile := profile;
      this.extraArguments := extraArguments;
      activeResult := Null;
      activeMin := Null;
      activeMax := Null;
      this.settings := settings;
    }

    /** One rule of the loop, carried out. */
    method ProcessRule(rule: Rule, cur: Value, ctx: Context, removeOutliers: seq<real> -> seq<real>) returns (o: Outcome)
      ensures o == RuleStep(rule, cur, ctx, removeOutliers)
    {
      hide KeptValues, Final, RuleResult, MatchPasses, TemplateSamples, SeriesValue, Analyze, ResultKey, SkipsRule, AbortsParse, Found, Extracts, Free, Prepared, IsNumeric;
      if SkipsRule(rule, ctx.args) {
        return Continue(cur);
      }
      var key := ResultKey(rule.resultKey, ctx.prefix, ctx.args, ctx.extra);
      if AbortsParse(ctx.prefix, TemplateText(rule), key) {
        return Return(False);
      }
      var plan := Analyze(rule, key);
      if ctx.log.None? {
        return Return(False);
      }
      var output := ctx.log.value;
      var processed, val := FrameSeriesResult(TemplateText(rule), output, ctx.prefix, removeOutliers);
      var found: seq<Value> := if val.Some? then [Num(val.value)] else [];
      if Extracts(rule, plan, processed) {
        assert val.None?;
        found := MultiMatch(output, rule, plan, ctx.maxPasses);
      }
      FoundCases(rule, plan, ctx.prefix, output, removeOutliers, ctx.maxPasses);
      assert found == Found(rule, plan, ctx.prefix, output, removeOutliers, ctx.maxPasses);
      var kept, last := NormalizeResults(found, rule, ctx.numeric);
      var carried := if last.Some? then last.value else cur;
      if kept == [] {
        return Continue(carried);
      }
      var r := RuleResult(kept, rule, ctx.numeric, carried);
      if Truthy(r) {
        return Break(r);
      }
      return Continue(r);
    }

    /**
     * parse_result_process: the prefix is normalised, the rules are tried
     * in order, and a stopping rule's scale, proportion and precision are
     * stored.
     */
    method ParseResultProcess(log: Option<string>, args: string, numeric: bool, prefix: Option<string>,
                              removeOutliers: seq<real> -> seq<real>, maxPasses: nat) returns (r: Value)
      modifies this
      ensures var p := Process(profile.rules, False, Context(args, extraArguments, numeric, NormalizePrefix(prefix), log, maxPasses), removeOutliers);
        r == p.value && settings == Applied(old(settings), p.stopper)
      ensures activeResult == old(activeResult) && activeMin == old(activeMin) && activeMax == old(activeMax)
    {
      hide RuleStep;
      var ctx := Context(args, extraArguments, numeric, NormalizePrefix(prefix), log, maxPasses);
      var rules := profile.rules;
      var testResult := False;
      var i := 0;
      while i < |rules|
        invariant 0 <= i <= |rules|
        decreases |rules| - i
        invariant Process(rules[i..], testResult, ctx, removeOutliers) == Process(rules, False, ctx, removeOutliers)
        invariant settings == old(settings)
        invariant activeResult == old(activeResult) && activeMin == old(activeMin) && activeMax == old(activeMax)
      {
        var o := ProcessRule(rules[i], testResult, ctx, removeOutliers);
        assert rules[i..][0] == rules[i] && rules[i..][1..] == rules[i + 1..];
        match o {
          case Continue(v) =>
            testResult := v;
          case Return(v) =>
            return v;
          case Break(v) =>
            settings := Applied(settings, Some(rules[i]));
            return v;
        }
        i := i + 1;
      }
      return testResult;
    }

    /** parse_result: the results of this run's log, stored in the run. */
    method ParseResult(log: Option<string>, imageResult: Value, removeOutliers: seq<real> -> seq<real>, maxPasses: nat)
      modifies this
      ensures State() == ParseOutcome(profile, extraArguments, old(State()), log, imageResult, removeOutliers, maxPasses)
    {
      hide Process, Applied, PassFailVerdict, TestArguments, NumericOutcome;
      if !profile.hasParser {
        return;
      }
      var args := TestArguments(profile, extraArguments);
      var f := profile.displayFormat;
      if f == "IMAGE_COMPARISON" {
        activeResult := imageResult;
      } else if f == "PASS_FAIL" || f == "MULTI_PASS_FAIL" {
        var r := ParseResultProcess(log, args, false, None, removeOutliers, maxPasses);
        activeResult := PassFailVerdict(r);
      } else {
        ParseNumeric(log, args, removeOutliers, maxPasses);
      }
    }

    /** The numeric branch of parse_result. */
    method ParseNumeric(log: Option<string>, args: string, removeOutliers: seq<real> -> seq<real>, maxPasses: nat)
      modifies this
      ensures State() == NumericOutcome(profile, extraArguments, args, old(State()), log, removeOutliers, maxPasses)
    {
      hide Process, Applied, IsNumeric, ToNumber;
      var r := ParseResultProcess(log, args, true, None, removeOutliers, maxPasses);
      activeResult := r;
      if profile.displayFormat == "BAR_GRAPH" && !IsNumericValue(r) {
        activeResult := False;
      } else {
        assert NormalizePrefix(Some("MIN")) == "MIN_" && NormalizePrefix(Some("MAX")) == "MAX_";
        var lo := ParseResultProcess(log, args, true, Some("MIN"), removeOutliers, maxPasses);
        activeMin := lo;
        var hi := ParseResultProcess(log, args, true, Some("MAX"), removeOutliers, maxPasses);
        activeMax := hi;
      }
    }
  }
}
