/**
 * Finding result values in a test's log: the candidate line of each
 * pass of the multi-match loop, and the values one line yields by
 * before-anchor, after-anchor or key position, with the one retry that
 * puts a space after every colon.
 */
module Extraction {
  import opened Wrappers
  import opened PhpStrings
  import opened PhpValues
  import opened Tokenizer
  import opened ResultRules

  /** The tokens an after-anchor skips: `:`, `,`, `-` and `=` (compared loosely, as in_array does). */
  predicate IsFiller(t: string)
  {
    LooseEq(t, ":") || LooseEq(t, ",") || LooseEq(t, "-") || LooseEq(t, "=")
  }

  /** The first token at or after index `f` that is not filler. */
  function AfterAnchor(r: seq<string>, f: nat): (v: Option<nat>)
    decreases |r| - f
    ensures v.Some? ==> f <= v.value < |r| && !IsFiller(r[v.value])
    ensures forall k :: f <= k < |r| && (v.None? || k < v.value) ==> IsFiller(r[k])
  {
    if f >= |r| then None
    else if IsFiller(r[f]) then AfterAnchor(r, f + 1)
    else Some(f)
  }

  /** `i` is where `anchor` first occurs among the tokens, compared loosely. */
  predicate FirstLooseMatch(r: seq<string>, anchor: string, i: int)
  {
    0 <= i < |r| && LooseEq(r[i], anchor) && forall k :: 0 <= k < i ==> !LooseEq(r[k], anchor)
  }

  /** The token before the before-anchor: null when the anchor is the first token, nothing when it is absent. */
  function ValueBefore(r: seq<string>, anchor: string): (v: Option<Value>)
    ensures v.None? <==> forall k :: 0 <= k < |r| ==> !LooseEq(r[k], anchor)
    ensures v == Some(Null) <==> |r| > 0 && LooseEq(r[0], anchor)
    ensures v.Some? && v.value != Null ==> v.value.Str? && v.value.s in r
  {
    var bt := ArraySearch(anchor, r);
    if bt.None? then None
    else if bt.value == 0 then Some(Null)
    else Some(Str(r[bt.value - 1]))
  }

  /** The first token after the after-anchor that is not filler; nothing when the anchor is absent or only filler follows it. */
  function ValueAfter(r: seq<string>, anchor: string): (v: Option<Value>)
    ensures (forall k :: 0 <= k < |r| ==> !LooseEq(r[k], anchor)) ==> v.None?
    ensures v.Some? ==> v.value.Str? && v.value.s in r && !IsFiller(v.value.s)
  {
    var at := ArraySearch(anchor, r);
    if at.None? then None
    else
      var f := AfterAnchor(r, at.value + 1);
      if f.None? then None else Some(Str(r[f.value]))
  }

  /**
   * The value one attempt over the tokens `r` appends, if any: by the
   * before-anchor, else by the after-anchor, else the token at the key's
   * position.
   */
  function Attempt(r: seq<string>, rule: Rule, position: nat): (a: Option<Value>)
    ensures PositionOnly(rule) ==> (a.Some? <==> position < |r|)
    ensures a.Some? && a.value != Null ==> a.value.Str? && a.value.s in r
    ensures a == Some(Null) ==> NotEmpty(rule.resultBeforeString)
  {
    if NotEmpty(rule.resultBeforeString) then ValueBefore(r, rule.resultBeforeString.value)
    else if NotEmpty(rule.resultAfterString) then ValueAfter(r, rule.resultAfterString.value)
    else if position < |r| then Some(Str(r[position]))
    else None
  }

  /** Neither anchor is set, so the key's position decides. */
  predicate PositionOnly(rule: Rule)
  {
    !NotEmpty(rule.resultBeforeString) && !NotEmpty(rule.resultAfterString)
  }

  /**
   * The values a candidate line yields: one attempt; when only the
   * position counts, the line has no token there and holds a `:`, one
   * more attempt on the line with every `:` followed by a space.
   */
  function LineValues(line: string, rule: Rule, plan: Plan, retried: bool): (vs: seq<Value>)
    decreases if retried then 0 else 1
    ensures |vs| <= 1
  {
    var r := Tokenize(line, plan.chars);
    var a := Attempt(r, rule, plan.position);
    if a.Some? then [a.value]
    else if PositionOnly(rule) && !retried && StrPos(line, ":").Some? then
      LineValues(Replace(line, ":", ": "), rule, plan, true)
    else []
  }

  /** The before-anchor lookup of lines 819-826. */
  method LookBefore(r: seq<string>, anchor: string) returns (v: Option<Value>)
    ensures v == ValueBefore(r, anchor)
  {
    v := None;
    var beforeThis := ArraySearch(anchor, r);
    if beforeThis.Some? {
      v := Some(if beforeThis.value == 0 then Null else Str(r[beforeThis.value - 1]));
    }
  }

  /** The after-anchor scan of lines 828-846: past the anchor, skipping filler. */
  method LookAfter(r: seq<string>, anchor: string) returns (v: Option<Value>)
    ensures v == ValueAfter(r, anchor)
  {
    hide IsFiller, ArraySearch, LooseEq;
    v := None;
    var afterThis := ArraySearch(anchor, r);
    if afterThis.Some? {
      var f := afterThis.value + 1;
      while f < |r|
        invariant afterThis.value + 1 <= f
        invariant v == None
        invariant AfterAnchor(r, f) == AfterAnchor(r, afterThis.value + 1)
        decreases |r| - f
      {
        if IsFiller(r[f]) {
          f := f + 1;
          continue;
        }
        v := Some(Str(r[f]));
        break;
      }
    }
  }

  /** One attempt over the tokens of a line (lines 819-852). */
  method TryTokens(r: seq<string>, rule: Rule, position: nat) returns (v: Option<Value>)
    ensures v == Attempt(r, rule, position)
  {
    v := None;
    if NotEmpty(rule.resultBeforeString) {
      v := LookBefore(r, rule.resultBeforeString.value);
    } else if NotEmpty(rule.resultAfterString) {
      v := LookAfter(r, rule.resultAfterString.value);
    } else if position < |r| {
      v := Some(Str(r[position]));
    }
  }

  /**
   * The extraction of lines 811-865 on one candidate line: a do-while
   * that retries at most once, after the colon fallback.
   */
  method ExtractLine(line0: string, rule: Rule, plan: Plan) returns (found: seq<Value>)
    ensures found == LineValues(line0, rule, plan, false)
  {
    var line := line0;
    var didTryColon := false;
    var tryAgain := true;
    found := [];
    while tryAgain
      invariant tryAgain ==> found == [] && LineValues(line, rule, plan, didTryColon) == LineValues(line0, rule, plan, false)
      invariant !tryAgain ==> found == LineValues(line0, rule, plan, false)
      decreases (if didTryColon then 0 else 2) + (if tryAgain then 1 else 0)
    {
      tryAgain := false;
      var r := Tokenize(line, plan.chars);
      var v := TryTokens(r, rule, plan.position);
      if v.Some? {
        found := found + [v.value];
      } else if PositionOnly(rule) && !didTryColon && StrPos(line, ":").Some? {
        line := Replace(line, ":", ": ");
        didTryColon := true;
        tryAgain := true;
      }
    }
  }

  /** The before-anchor yields the token just before its first occurrence (null when that is the first token), and nothing when it is absent. */
  lemma BeforeAnchorValue(r: seq<string>, anchor: string)
    ensures ValueBefore(r, anchor).None? <==> forall k :: 0 <= k < |r| ==> !LooseEq(r[k], anchor)
    ensures forall bt :: FirstLooseMatch(r, anchor, bt) ==>
      ValueBefore(r, anchor) == Some(if bt == 0 then Null else Str(r[bt - 1]))
  {
    var found := ArraySearch(anchor, r);
    forall bt | FirstLooseMatch(r, anchor, bt)
      ensures found == Some(bt)
    {
      assert found.Some?;
    }
  }

  /**
   * Once the after-anchor first occurs at `at`, it yields the first later
   * token that is not filler, and nothing when only filler follows.
   */
  lemma AfterAnchorValue(r: seq<string>, anchor: string, at: nat)
    requires FirstLooseMatch(r, anchor, at)
    ensures ValueAfter(r, anchor).None? <==> forall k :: at < k < |r| ==> IsFiller(r[k])
    ensures forall f :: at < f < |r| && !IsFiller(r[f]) && (forall k :: at < k < f ==> IsFiller(r[k])) ==>
      ValueAfter(r, anchor) == Some(Str(r[f]))
  {
    var found := ArraySearch(anchor, r);
    assert found == Some(at);
    var g := AfterAnchor(r, at + 1);
    forall f | at < f < |r| && !IsFiller(r[f]) && (forall k :: at < k < f ==> IsFiller(r[k]))
      ensures g == Some(f)
    {
      assert g.Some?;
    }
  }

  /** An anchor decides on the first attempt: the line is never retried. */
  lemma AnchorsNeverRetry(line: string, rule: Rule, plan: Plan, retried: bool)
    requires !PositionOnly(rule)
    ensures var a := Attempt(Tokenize(line, plan.chars), rule, plan.position);
      LineValues(line, rule, plan, retried) == (if a.Some? then [a.value] else [])
  {
  }

  /**
   * Without anchors: the token at the key's position when there is one;
   * otherwise the retry on the colon-spaced line, which itself never
   * retries again; and nothing when the line has no `:`.
   */
  lemma PositionalValue(line: string, rule: Rule, plan: Plan)
    requires PositionOnly(rule)
    ensures var r := Tokenize(line, plan.chars);
      plan.position < |r| ==> LineValues(line, rule, plan, false) == [Str(r[plan.position])]
    ensures var r := Tokenize(line, plan.chars);
      plan.position >= |r| && ':' !in line ==> LineValues(line, rule, plan, false) == []
    ensures var r := Tokenize(line, plan.chars); var spaced := Replace(line, ":", ": ");
      var r2 := Tokenize(spaced, plan.chars);
      plan.position >= |r| && ':' in line ==>
        LineValues(line, rule, plan, false) == (if plan.position < |r2| then [Str(r2[plan.position])] else [])
  {
    ContainsChar(line, ':');
  }

  /** Where the multi-match loop stands between passes: the output left to search (`None` once it is null) and the search key. */
  datatype Cursor = Cursor(output: Option<string>, searchKey: string)

  /** A pass's candidate line and the cursor after it. */
  datatype Step = Step(line: string, next: Cursor)

  /**
   * One pass of lines 779-807: the candidate line, and the cursor after
   * it. The before-hint takes the line after the hint's last occurrence
   * and crops the output before it; the after-hint takes the line before
   * the last occurrence of the before-hint (sic) and ends the loop; the
   * search key takes the line of its last occurrence and crops the
   * output there; otherwise the whole output is the line.
   */
  function Pass(c: Cursor, rule: Rule): (step: Step)
    ensures Given(rule.lineAfterHint) && !Given(rule.lineBeforeHint) ==> step.next.output.None?
    ensures !Given(rule.lineBeforeHint) && !Given(rule.lineAfterHint) && c.searchKey != "" ==>
      '\n' !in step.line && step.next.searchKey == Trim(c.searchKey) && step.next.output.Some?
    ensures !Given(rule.lineBeforeHint) && !Given(rule.lineAfterHint) && c.searchKey == "" ==>
      step.line == Trim(c.output.GetOr("")) && step.next == c
  {
    var out := c.output.GetOr("");
    if Given(rule.lineBeforeHint) then
      var h := StrRPos(out, rule.lineBeforeHint.value).GetOr(0);
      var line := OrEmpty(Substr(out, StrPos(out, "\n", h).GetOr(0)));
      var line2 := OrEmpty(Substr(line, 0, Some(StrPos(line, "\n", 1).GetOr(0))));
      Step(line2, Cursor(Some(OrEmpty(Substr(out, 0, Some(StrRPos(out, "\n", h).GetOr(0)))) + "\n"), c.searchKey))
    else if Given(rule.lineAfterHint) then
      var h := StrRPos(out, Needle(rule.lineBeforeHint)).GetOr(0);
      var line := OrEmpty(Substr(out, 0, Some(StrRPos(out, "\n", h).GetOr(0))));
      Step(OrEmpty(Substr(line, StrRPos(line, "\n", 1).GetOr(0) + 1)), Cursor(None, c.searchKey))
    else if c.searchKey != "" then
      var sk := Trim(c.searchKey);
      var line := OrEmpty(Substr(out, 0, Some(StrPos(out, "\n", StrRPos(out, sk).GetOr(0)).GetOr(0))));
      var sol := StrRPos(line, "\n");
      AfterLastNewline(line);
      Step(OrEmpty(Substr(line, sol.GetOr(0) + 1)), Cursor(Some(OrEmpty(Substr(line, 0, Some(sol.GetOr(0)))) + "\n"), sk))
    else
      Step(Trim(out), c)
  }

  /** What follows a text's last newline (all but the first character when it has none) holds no newline. */
  lemma AfterLastNewline(s: string)
    ensures '\n' !in OrEmpty(Substr(s, StrRPos(s, "\n").GetOr(0) + 1))
  {
    StrRPosLast(s, "\n", 0);
    var a := StrRPos(s, "\n").GetOr(0) + 1;
    if a <= |s| {
      assert OrEmpty(Substr(s, a)) == s[a..];
      forall i | a <= i < |s|
        ensures s[i] != '\n'
      {
        assert !OccursAt(s, "\n", i);
        assert s[i..i + 1] == [s[i]];
      }
    }
  }

  /** `!empty($output)`: not null, not "" and not "0". */
  predicate HasOutput(o: Option<string>)
  {
    o.Some? && o.value != "" && o.value != "0"
  }

  /** MultiMatch is set to something other than NONE. */
  predicate IsMultiMatch(rule: Rule)
  {
    NotEmpty(rule.multiMatch) && rule.multiMatch.value != "NONE"
  }

  /**
   * The values of the do-while of lines 775-867 from cursor `c` on: a
   * further pass follows while multi-matching, the last pass found a
   * value, output is left, and `fuel` allows.
   */
  function MatchPasses(c: Cursor, rule: Rule, plan: Plan, fuel: nat): (vs: seq<Value>)
    decreases fuel
    ensures |vs| <= fuel + 1
    ensures !IsMultiMatch(rule) ==> vs == LineValues(Pass(c, rule).line, rule, plan, false)
  {
    var p := Pass(c, rule);
    var found := LineValues(p.line, rule, plan, false);
    if IsMultiMatch(rule) && found != [] && HasOutput(p.next.output) && fuel > 0 then
      found + MatchPasses(p.next, rule, plan, fuel - 1)
    else found
  }

  lemma AppendAssociates<T>(a: seq<T>, b: seq<T>, c: seq<T>)
    ensures a + (b + c) == (a + b) + c
  {
  }

  lemma ConsMembers<T>(x: T, xs: seq<T>)
    ensures |[x] + xs| == |xs| + 1
    ensures forall v :: v in [x] + xs ==> v == x || v in xs
  {
  }

  /** One pass of the multi-match loop, as MatchPasses takes it. */
  lemma MatchPassesStep(c: Cursor, rule: Rule, plan: Plan, fuel: nat, found: seq<Value>, next: Cursor)
    requires found == LineValues(Pass(c, rule).line, rule, plan, false) && next == Pass(c, rule).next
    ensures MatchPasses(c, rule, plan, fuel)
      == found + (if IsMultiMatch(rule) && found != [] && HasOutput(next.output) && fuel > 0
                  then MatchPasses(next, rule, plan, fuel - 1) else [])
  {
  }

  /** The body of the multi-match loop: crop the output, then extract from the candidate line. */
  method OnePass(c: Cursor, rule: Rule, plan: Plan) returns (found: seq<Value>, next: Cursor)
    ensures found == LineValues(Pass(c, rule).line, rule, plan, false) && next == Pass(c, rule).next
  {
    var p := Pass(c, rule);
    found := ExtractLine(p.line, rule, plan);
    next := p.next;
  }

  /** The multi-match loop, run for at most `maxPasses` passes after the first. */
  method MultiMatch(output: string, rule: Rule, plan: Plan, maxPasses: nat) returns (results: seq<Value>)
    ensures results == MatchPasses(Cursor(Some(output), plan.searchKey), rule, plan, maxPasses)
  {
    hide *;
    ghost var total := MatchPasses(Cursor(Some(output), plan.searchKey), rule, plan, maxPasses);
    var cursor := Cursor(Some(output), plan.searchKey);
    var fuel := maxPasses;
    var again := true;
    results := [];
    while again
      invariant again ==> results + MatchPasses(cursor, rule, plan, fuel) == total
      invariant !again ==> results == total
      decreases fuel, again
    {
      var count := |results|;
      var found, next := OnePass(cursor, rule, plan);
      MatchPassesStep(cursor, rule, plan, fuel, found, next);
      ghost var done := results;
      results := results + found;
      again := IsMultiMatch(rule) && |results| != count && HasOutput(next.output) && fuel > 0;
      if again {
        assert found != [];
        AppendAssociates(done, found, MatchPasses(next, rule, plan, fuel - 1));
        fuel := fuel - 1;
      }
      cursor := next;
    }
  }

  /**
   * A search-key pass crops the output strictly, provided the trimmed
   * key occurs in it and a newline follows that occurrence.
   */
  lemma SearchKeyPassShrinks(c: Cursor, rule: Rule)
    requires !Given(rule.lineBeforeHint) && !Given(rule.lineAfterHint) && c.searchKey != "" && c.output.Some?
    requires var out := c.output.value; var sk := Trim(c.searchKey);
      StrRPos(out, sk).Some? && StrPos(out, "\n", StrRPos(out, sk).value).Some?
    ensures Pass(c, rule).next.output.Some? && |Pass(c, rule).next.output.value| < |c.output.value|
  {
    hide Substr, StrPos, StrRPos, FindFrom, FindLast, Trim, LTrim, RTrim;
    var out := c.output.value;
    var sk := Trim(c.searchKey);
    var p := StrRPos(out, sk).value;
    var e := StrPos(out, "\n", p).value;
    assert out[p] == sk[0];
    assert out[e..e + 1] == "\n";
    assert e > p;
    var line := out[..e];
    assert OrEmpty(Substr(out, 0, Some(e))) == line;
    var sol := StrRPos(line, "\n");
    if sol.Some? {
      assert OrEmpty(Substr(line, 0, Some(sol.value))) == line[..sol.value];
    }
  }

  /** A search-key pass over a lone newline reads an empty line and leaves the newline. */
  lemma NewlinePass(sk: string, rule: Rule)
    requires !Given(rule.lineBeforeHint) && !Given(rule.lineAfterHint)
    requires Trim(sk) != ""
    ensures Pass(Cursor(Some("\n"), sk), rule) == Step("", Cursor(Some("\n"), Trim(sk)))
  {
    var t := Trim(sk);
    assert !IsTrimChar(t[0]);
    assert StrRPos("\n", t).None? by {
      if StrRPos("\n", t).Some? {
        assert OccursAt("\n", t, StrRPos("\n", t).value);
      }
    }
    assert StrPos("\n", "\n", 0) == Some(0) by {
      assert OccursAt("\n", "\n", 0);
    }
    assert OrEmpty(Substr("\n", 0, Some(0))) == "";
    assert StrRPos("", "\n").None?;
    assert OrEmpty(Substr("", 1)) == "";
    assert OrEmpty(Substr("", 0, Some(0))) + "\n" == "\n";
    assert sk != "";
  }

  /** An empty line is one empty token. */
  lemma EmptyLineTokens(chars: seq<char>)
    ensures Tokenize("", chars) == [""]
  {
    assert Replace("", "=", " = ") == "";
    assert SpaceOut("", chars) == "";
    assert TrimSpaces("") == "";
    assert FindFrom("", " ", 0).None?;
  }

  /** A pass that finds one value and leaves the cursor where it was repeats until the fuel runs out. */
  lemma {:induction false} PassFixedPoint(c: Cursor, rule: Rule, plan: Plan, fuel: nat, v: Value)
    requires IsMultiMatch(rule) && HasOutput(c.output)
    requires Pass(c, rule).next == c && LineValues(Pass(c, rule).line, rule, plan, false) == [v]
    ensures |MatchPasses(c, rule, plan, fuel)| == fuel + 1
    ensures forall w :: w in MatchPasses(c, rule, plan, fuel) ==> w == v
    decreases fuel
  {
    hide *;
    MatchPassesStep(c, rule, plan, fuel, [v], c);
    if fuel > 0 {
      PassFixedPoint(c, rule, plan, fuel - 1, v);
      ConsMembers(v, MatchPasses(c, rule, plan, fuel - 1));
    }
  }

  /**
   * The loop of the source need not end: once a search-key pass has
   * cropped the output to a lone newline, with a trimmed search key, the
   * key at token 0 and no anchors, every further pass reads an empty
   * line, appends an empty value and leaves the output at "\n". Only
   * the fuel bound stops it.
   */
  lemma StuckAtNewline(sk: string, rule: Rule, plan: Plan, fuel: nat)
    requires IsMultiMatch(rule) && PositionOnly(rule) && plan.position == 0
    requires !Given(rule.lineBeforeHint) && !Given(rule.lineAfterHint)
    requires sk != "" && Trim(sk) == sk
    ensures |MatchPasses(Cursor(Some("\n"), sk), rule, plan, fuel)| == fuel + 1
    ensures forall v :: v in MatchPasses(Cursor(Some("\n"), sk), rule, plan, fuel) ==> v == Str("")
  {
    hide Pass, LineValues, MatchPasses;
    NewlinePass(sk, rule);
    EmptyLineValue(rule, plan);
    PassFixedPoint(Cursor(Some("\n"), sk), rule, plan, fuel, Str(""));
  }

  /** With the key at token 0 and no anchors, an empty line yields one empty value. */
  lemma EmptyLineValue(rule: Rule, plan: Plan)
    requires PositionOnly(rule) && plan.position == 0
    ensures LineValues("", rule, plan, false) == [Str("")]
  {
    EmptyLineTokens(plan.chars);
  }
}
