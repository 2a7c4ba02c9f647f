/**
 * A `ResultsParser` rule of a test profile's parser definition, and
 * what the parser works out from it before it looks at the log: the
 * normalised quantifier prefix, the placeholder key, whether the rule
 * applies to the current test arguments, whether the whole parse is
 * abandoned, the characters that separate tokens, the template line and
 * its tokens, the key's token index and the search key.
 */
module ResultRules {
  import opened Wrappers
  import opened PhpStrings
  import opened PhpValues
  import opened Tokenizer

  /** The elements of one `ResultsParser` entry; `None` is an absent element (null). */
  datatype Rule = Rule(
    matchToTestArguments: Option<string>,
    resultScale: Option<string>,
    resultProportion: Option<string>,
    resultPrecision: Option<string>,
    outputTemplate: Option<string>,
    resultKey: Option<string>,
    lineHint: Option<string>,
    lineBeforeHint: Option<string>,
    lineAfterHint: Option<string>,
    resultBeforeString: Option<string>,
    resultAfterString: Option<string>,
    divideResultBy: Option<string>,
    multiplyResultBy: Option<string>,
    stripFromResult: Option<string>,
    stripResultPostfix: Option<string>,
    multiMatch: Option<string>,
    fileFormat: Option<string>)

  /** `$x != null` for an element: present and not the empty string. */
  predicate Given(o: Option<string>)
  {
    o.Some? && o.value != ""
  }

  /** `!empty($x)` for an element: present, and neither "" nor "0". */
  predicate NotEmpty(o: Option<string>)
  {
    o.Some? && o.value != "" && o.value != "0"
  }

  /** The needle PHP 7 searches for when handed an element: an absent one (null) is searched for as the NUL byte. */
  function Needle(o: Option<string>): string
  {
    if o.Some? then o.value else "\0"
  }

  /** The template text; an absent template reads as "". */
  function TemplateText(rule: Rule): string
  {
    rule.outputTemplate.GetOr("")
  }

  /** A given quantifier prefix is made to end in `_`. */
  function NormalizePrefix(prefix: Option<string>): (p: string)
    ensures p == "" <==> !Given(prefix)
    ensures p != "" ==> p[|p| - 1] == '_' && (p == prefix.value || p == prefix.value + "_")
    ensures Given(prefix) && prefix.value[|prefix.value| - 1] == '_' ==> p == prefix.value
  {
    if Given(prefix) && prefix.value[|prefix.value| - 1] != '_' then prefix.value + "_"
    else prefix.GetOr("")
  }

  /** Normalising a normalised prefix changes nothing. */
  lemma NormalizePrefixIdempotent(prefix: Option<string>)
    ensures NormalizePrefix(Some(NormalizePrefix(prefix))) == NormalizePrefix(prefix)
  {
  }

  /**
   * The key the template marks the result with: an absent or empty
   * ResultKey becomes `#_<prefix>RESULT_#`; the two argument
   * placeholders become `#_<prefix><arguments without spaces>_#`.
   */
  function ResultKey(key: Option<string>, prefix: string, args: string, extra: string): (k: string)
    ensures k != ""
  {
    if !Given(key) then "#_" + prefix + "RESULT_#"
    else if key.value == "PTS_TEST_ARGUMENTS" then "#_" + prefix + Replace(args, " ", "") + "_#"
    else if key.value == "PTS_USER_SET_ARGUMENTS" then "#_" + prefix + Replace(extra, " ", "") + "_#"
    else key.value
  }

  /** The placeholder for an absent key is framed by `#_` and `_#` and carries the prefix. */
  lemma DefaultKeyShape(prefix: string, args: string, extra: string)
    ensures var k := ResultKey(None, prefix, args, extra);
      k[..2] == "#_" && k[|k| - 2..] == "_#" && k[2..2 + |prefix|] == prefix
  {
  }

  /**
   * A synthesised key holds no space when the prefix holds none, so it
   * can be a token of a tokenised line; a key given verbatim is kept.
   */
  lemma SynthesizedKeyHasNoSpace(key: Option<string>, prefix: string, args: string, extra: string)
    requires ' ' !in prefix
    ensures (!Given(key) || key.value in {"PTS_TEST_ARGUMENTS", "PTS_USER_SET_ARGUMENTS"})
              ==> ' ' !in ResultKey(key, prefix, args, extra)
    ensures (Given(key) && key.value !in {"PTS_TEST_ARGUMENTS", "PTS_USER_SET_ARGUMENTS"})
              ==> ResultKey(key, prefix, args, extra) == key.value
  {
    ReplaceCharMembers(args, ' ', "", ' ');
    ReplaceCharMembers(extra, ' ', "", ' ');
  }

  /**
   * The rule is skipped when MatchToTestArguments is given and does not
   * occur in the argument string: exactly when a non-empty match text is
   * nowhere in the arguments.
   */
  predicate SkipsRule(rule: Rule, args: string): (skip: bool)
    ensures skip <==> NotEmpty(rule.matchToTestArguments) && Free(args, rule.matchToTestArguments.value)
  {
    NotEmpty(rule.matchToTestArguments)
    && (StrPosFirst(args, rule.matchToTestArguments.value, 0); StrPos(args, rule.matchToTestArguments.value).None?)
  }

  /**
   * With a quantifier prefix, a key missing from the template abandons
   * the whole parse, unless the template names one of the two frame
   * sources. Without a prefix nothing is abandoned.
   */
  predicate AbortsParse(prefix: string, template: string, key: string): (abort: bool)
    ensures prefix == "" ==> !abort
    ensures key != [] && prefix != "" && template !in {"csv-dump-frame-latencies", "libframetime-output"} ==>
      (abort <==> Free(template, key))
  {
    StrRPosLast(template, key, 0);
    prefix != "" && StrRPos(template, key).None?
    && template != "csv-dump-frame-latencies" && template != "libframetime-output"
  }

  /** Where the key's last occurrence starts; `false` counts as 0 in the arithmetic that follows. */
  function KeyStart(template: string, key: string): nat
  {
    StrRPos(template, key).GetOr(0)
  }

  /**
   * The characters turned into spaces before splitting: `(`, `)` and
   * tab always; `,` for a CSV file format; `/` when the template
   * character just before or just after the key is `/` (before index 0
   * PHP reads the last character).
   */
  function SpaceOutChars(template: string, key: string, fileFormat: Option<string>): (chars: seq<char>)
    ensures '(' in chars && ')' in chars && '\t' in chars && '=' !in chars && ' ' !in chars
    ensures ',' in chars <==> fileFormat == Some("CSV")
    ensures '/' in chars <==>
      CharAt(template, KeyStart(template, key) - 1) == Some('/') || CharAt(template, KeyStart(template, key) + |key|) == Some('/')
  {
    var at := KeyStart(template, key);
    var slash := CharAt(template, at - 1) == Some('/') || CharAt(template, at + |key|) == Some('/');
    ['(', ')', '\t'] + (if fileFormat == Some("CSV") then [','] else []) + (if slash then ['/'] else [])
  }

  /**
   * The template line that holds the key's last occurrence: the
   * template up to the first newline after the key, from the last
   * newline before it (that newline included).
   */
  function TemplateLine(template: string, key: string): (line: string)
    ensures |line| <= |template|
    ensures forall i :: 0 < i < |line| ==> line[i] != '\n'
  {
    var at := KeyStart(template, key);
    var eol := StrPos(template, "\n", at + |key|);
    var upto := OrEmpty(Substr(template, 0, Some(if eol.Some? then eol.value else |template|)));
    FromLastNewline(upto);
    OrEmpty(Substr(upto, StrRPos(upto, "\n").GetOr(0)))
  }

  /** Cutting a text at its last newline leaves no newline after the cut's first character. */
  lemma FromLastNewline(s: string)
    ensures var t := OrEmpty(Substr(s, StrRPos(s, "\n").GetOr(0))); |t| <= |s| && forall i :: 0 < i < |t| ==> t[i] != '\n'
  {
    StrRPosLast(s, "\n", 0);
    var a := StrRPos(s, "\n").GetOr(0);
    assert OrEmpty(Substr(s, a)) == s[a..];
    forall i | a < i < |s|
      ensures s[i] != '\n'
    {
      assert !OccursAt(s, "\n", i);
      assert s[i..i + 1] == [s[i]];
    }
  }

  /** Where the template line ends: the first newline after the key, or the end of the template. */
  function LineEnd(template: string, key: string): nat
  {
    var eol := StrPos(template, "\n", KeyStart(template, key) + |key|);
    if eol.Some? then eol.value else |template|
  }

  lemma NoNewlineBetween(s: string, from: nat, upto: nat)
    requires from <= upto <= |s|
    requires forall j :: from <= j < upto ==> !OccursAt(s, "\n", j)
    ensures forall i :: from <= i < upto ==> s[i] != '\n'
  {
    forall i | from <= i < upto ensures s[i] != '\n' {
      assert !OccursAt(s, "\n", i);
      assert s[i..i + 1] == [s[i]];
    }
  }

  lemma LineEndBounds(template: string, key: string)
    requires key != [] && '\n' !in key && StrRPos(template, key).Some?
    ensures var at := StrRPos(template, key).value; at + |key| <= LineEnd(template, key) <= |template|
    ensures forall i :: StrRPos(template, key).value <= i < LineEnd(template, key) ==> template[i] != '\n'
  {
    var at := StrRPos(template, key).value;
    var e := LineEnd(template, key);
    assert OccursAt(template, key, at);
    forall i | at <= i < at + |key| ensures template[i] != '\n' {
      assert template[i] == key[i - at];
    }
    StrPosFirst(template, "\n", at + |key|);
    NoNewlineBetween(template, at + |key|, e);
  }

  /** The template line as a slice of the template: where it starts and ends around the key's last occurrence. */
  lemma TemplateLineBounds(template: string, key: string) returns (a: nat, e: nat)
    requires key != [] && '\n' !in key && StrRPos(template, key).Some?
    ensures var at := StrRPos(template, key).value; a <= at && at + |key| <= e <= |template|
    ensures TemplateLine(template, key) == template[a..e]
    ensures forall i :: a < i < e ==> template[i] != '\n'
  {
    hide Substr, StrPos, StrRPos, FindFrom, FindLast;
    var at := StrRPos(template, key).value;
    e := LineEnd(template, key);
    LineEndBounds(template, key);
    var upto := template[..e];
    assert OrEmpty(Substr(template, 0, Some(e))) == upto;
    var n := StrRPos(upto, "\n");
    StrRPosLast(upto, "\n", 0);
    a := n.GetOr(0);
    if n.Some? {
      assert upto[a..a + 1] == "\n";
      assert template[a] == '\n';
      assert a < at;
    }
    assert TemplateLine(template, key) == upto[a..];
    if a + 1 <= at {
      NoNewlineBetween(upto, a + 1, at);
    }
    assert forall i :: a < i < at ==> template[i] == upto[i];
  }

  /**
   * When the key (which holds no newline) occurs in the template, its
   * template line contains it and has a newline at most at its first
   * position.
   */
  lemma TemplateLineHoldsKey(template: string, key: string)
    requires key != [] && '\n' !in key && StrRPos(template, key).Some?
    ensures Contains(TemplateLine(template, key), key)
    ensures var line := TemplateLine(template, key); forall i :: 0 < i < |line| ==> line[i] != '\n'
  {
    hide TemplateLine, Substr, StrPos, StrRPos, FindFrom, FindLast;
    var at := StrRPos(template, key).value;
    var a, e := TemplateLineBounds(template, key);
    SliceKeepsOccurrence(template, key, a, e, at);
    OccurrenceContained(template[a..e], key, at - a);
  }

  /** Cutting a string around an occurrence keeps it, shifted by the cut's start, and keeps newlines out. */
  lemma SliceKeepsOccurrence(s: string, needle: string, a: nat, e: nat, at: nat)
    requires a <= at && at + |needle| <= e <= |s| && OccursAt(s, needle, at)
    requires forall i :: a < i < e ==> s[i] != '\n'
    ensures OccursAt(s[a..e], needle, at - a)
    ensures forall i :: 0 < i < e - a ==> s[a..e][i] != '\n'
  {
    var line := s[a..e];
    forall k | 0 <= k < |needle| ensures line[at - a + k] == needle[k] {
      assert s[at..at + |needle|][k] == s[at + k];
    }
    assert line[at - a..at - a + |needle|] == needle;
    forall i | 0 < i < |line| ensures line[i] != '\n' {
      assert line[i] == s[a + i];
    }
  }

  /** Whether the x-th character of the key occurs in token x (the partial match of line 643). */
  predicate PartialMatchAt(key: string, tokens: seq<string>, x: nat)
    requires x < |tokens|
  {
    x < |key| && StrPos(tokens[x], [key[x]]).Some?
  }

  /** The first index from `x` on whose token holds the key's character at that index. */
  function PartialPosition(key: string, tokens: seq<string>, x: nat): (r: Option<nat>)
    decreases |tokens| - x
    ensures r.Some? ==> x <= r.value < |tokens| && r.value < |key| && key[r.value] in tokens[r.value]
    ensures forall y :: x <= y < |tokens| && (r.None? || y < r.value) && y < |key| ==> key[y] !in tokens[y]
  {
    if x >= |tokens| then None
    else
      ContainsChar(tokens[x], if x < |key| then key[x] else ' ');
      if PartialMatchAt(key, tokens, x) then Some(x) else PartialPosition(key, tokens, x + 1)
  }

  /**
   * `array_search($key, $tokens)`, falling back to the partial match;
   * `None` is `false`. The first token loosely equal to the key wins;
   * only when there is none does the first partial match count.
   */
  function KeyPosition(key: string, tokens: seq<string>): (pos: Option<nat>)
    ensures pos.Some? ==> pos.value < |tokens|
    ensures pos.Some? ==> LooseEq(tokens[pos.value], key) || (pos.value < |key| && key[pos.value] in tokens[pos.value])
    ensures pos.Some? ==> forall y :: 0 <= y < pos.value ==> !LooseEq(tokens[y], key)
    ensures pos.Some? && !LooseEq(tokens[pos.value], key) ==>
      (forall y :: 0 <= y < |tokens| ==> !LooseEq(tokens[y], key))
      && forall y :: 0 <= y < pos.value && y < |key| ==> key[y] !in tokens[y]
    ensures pos.None? ==> forall y :: 0 <= y < |tokens| ==> !LooseEq(tokens[y], key) && (y < |key| ==> key[y] !in tokens[y])
  {
    var exact := ArraySearch(key, tokens);
    if exact.Some? then exact else PartialPosition(key, tokens, 0)
  }

  /** A token that holds `:` and is longer than one character. */
  predicate IsColonToken(t: string)
  {
    ':' in t && |t| > 1
  }

  /** The index of the first colon token from index `x` on. */
  function ColonIndex(tokens: seq<string>, x: nat): (r: Option<nat>)
    requires x <= |tokens|
    decreases |tokens| - x
    ensures r.Some? ==> x <= r.value < |tokens| && IsColonToken(tokens[r.value])
    ensures forall y :: x <= y < |tokens| && (r.None? || y < r.value) ==> !IsColonToken(tokens[y])
  {
    if x == |tokens| then None
    else
      ContainsChar(tokens[x], ':');
      if StrPos(tokens[x], ":").Some? && |tokens[x]| > 1 then Some(x)
      else ColonIndex(tokens, x + 1)
  }

  /** The line hint is given and the template line contains it. */
  predicate LineHintFound(rule: Rule, templateLine: string)
  {
    Given(rule.lineHint) && Contains(templateLine, rule.lineHint.value)
  }

  /** A before- or after-hint is given and the template contains the line hint (an absent one is searched for as NUL). */
  predicate OtherHintFound(rule: Rule, template: string)
  {
    (Given(rule.lineBeforeHint) || Given(rule.lineAfterHint)) && Contains(template, Needle(rule.lineHint))
  }

  /**
   * The search key: the line hint when the template line contains it;
   * nothing ("" stands for null) when a before- or after-hint is given
   * and the line hint is found in the template; otherwise the first
   * token holding `:`, else the template line up to the key.
   */
  function SearchKey(rule: Rule, template: string, templateLine: string, tokens: seq<string>, key: string): (sk: string)
    ensures sk != "" ==>
      (Given(rule.lineHint) && sk == rule.lineHint.value && Contains(templateLine, sk))
      || (':' in sk && |sk| > 1 && sk in tokens)
      || (|sk| <= |templateLine| && sk == templateLine[..|sk|] && Contains(templateLine, key) && forall j :: 0 <= j < |sk| ==> !OccursAt(templateLine, key, j))
    ensures LineHintFound(rule, templateLine) ==> sk == rule.lineHint.value
    ensures !LineHintFound(rule, templateLine) && OtherHintFound(rule, template) ==> sk == ""
    ensures !LineHintFound(rule, templateLine) && !OtherHintFound(rule, template) && ColonIndex(tokens, 0).Some? ==>
      sk == tokens[ColonIndex(tokens, 0).value]
    ensures !LineHintFound(rule, templateLine) && !OtherHintFound(rule, template) && ColonIndex(tokens, 0).None? ==>
      |sk| <= |templateLine| && sk == templateLine[..|sk|]
      && (forall j :: 0 <= j < |sk| ==> !OccursAt(templateLine, key, j))
      && (key != [] && Contains(templateLine, key) ==> OccursAt(templateLine, key, |sk|))
      && (!Contains(templateLine, key) ==> sk == "")
  {
    if Given(rule.lineHint) && StrPos(templateLine, rule.lineHint.value).Some? then rule.lineHint.value
    else if Given(rule.lineBeforeHint) && StrPos(template, Needle(rule.lineHint)).Some? then ""
    else if Given(rule.lineAfterHint) && StrPos(template, Needle(rule.lineHint)).Some? then ""
    else
      var colon := ColonIndex(tokens, 0);
      if colon.Some? then tokens[colon.value]
      else
        var p := StrPos(templateLine, key);
        StrPosFirst(templateLine, key, 0);
        OrEmpty(Substr(templateLine, 0, Some(p.GetOr(0))))
  }

  /** Everything the parser derives from a rule's template before reading the log. */
  datatype Plan = Plan(
    key: string,
    chars: seq<char>,
    templateLine: string,
    templateTokens: seq<string>,
    position: nat,
    searchKey: string)

  /**
   * The template analysis of lines 611-691; a key position of `false`
   * indexes as 0.
   */
  function Analyze(rule: Rule, key: string): (plan: Plan)
    ensures plan.key == key && plan.position < |plan.templateTokens|
    ensures plan.templateTokens == Tokenize(plan.templateLine, plan.chars)
  {
    var template := TemplateText(rule);
    var chars := SpaceOutChars(template, key, rule.fileFormat);
    var line := TemplateLine(template, key);
    var tokens := Tokenize(line, chars);
    var pos := KeyPosition(key, tokens);
    Plan(key, chars, line, tokens, pos.GetOr(0), SearchKey(rule, template, line, tokens, key))
  }
}
