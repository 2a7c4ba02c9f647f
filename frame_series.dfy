/**
 * Frame-time logs. The `libframetime-output` and
 * `csv-dump-frame-latencies` templates (pts_test_result_parser.php,
 * lines 707-768) turn a log of frame times into one frame rate; the
 * ExtraData entries of generate_extra_data (lines 259-349) turn such a
 * log into an extra result that lists the times.
 */
module FrameSeries {
  import opened Wrappers
  import opened PhpStrings
  import opened PhpValues
  import opened Normalizer

  /** A libframetime line: `Frametime <microseconds> us`. */
  predicate IsFrametimeLine(v: string)
  {
    Tail(v, 3) == " us" && OrEmpty(Substr(v, 0, Some(10))) == "Frametime "
  }

  /** The text between the `Frametime ` prefix and the ` us` suffix; `false` when nothing is left. */
  function FrametimeText(v: string): Value
  {
    FromOption(Substr(OrEmpty(Substr(v, 10)), 0, Some(-3)))
  }

  /** The frame time in milliseconds a line gives: lines of the libframetime shape above 2000 microseconds. */
  function FrameTime(v: string): (t: Option<real>)
    ensures t.Some? ==> IsFrametimeLine(v) && t.value > 2.0
  {
    var us := ToNum(FrametimeText(v));
    if IsFrametimeLine(v) && us > 2000.0 then Some(us / 1000.0) else None
  }

  /** A line written as libframetime writes it gives back its microseconds, in milliseconds. */
  lemma FrameTimeOfLine(n: nat)
    requires n > 2000
    ensures FrameTime("Frametime " + NatToString(n) + " us") == Some(n as real / 1000.0)
  {
    hide Substr, Tail, NatToString, ToNumber, IsNumeric;
    var d := NatToString(n);
    var v := "Frametime " + d + " us";
    assert v[|v| - 3..] == " us";
    assert v[0..10] == "Frametime ";
    assert v[10..] == d + " us";
    assert (d + " us")[..|d|] == d;
    NatToStringRoundTrip(n);
  }

  /** The frame times of the lines, in order. */
  function FrameTimes(lines: seq<string>): (ts: seq<real>)
    ensures |ts| <= |lines|
  {
    if lines == [] then []
    else
      var t := FrameTime(lines[|lines| - 1]);
      FrameTimes(lines[..|lines| - 1]) + (if t.Some? then [t.value] else [])
  }

  /** Every frame time read from a log is above two milliseconds. */
  lemma {:induction false} FrameTimesAboveTwo(lines: seq<string>)
    ensures forall k :: 0 <= k < |FrameTimes(lines)| ==> FrameTimes(lines)[k] > 2.0
  {
    if lines != [] {
      FrameTimesAboveTwo(lines[..|lines| - 1]);
    }
  }

  /** The frame times of a libframetime log after `remove_outliers`; none when the log has fewer than four lines. */
  function LogFrameTimes(output: string, removeOutliers: seq<real> -> seq<real>): (ts: seq<real>)
    ensures |Explode("\n", output)| < 4 ==> ts == []
    ensures (forall xs :: removeOutliers(xs) == xs) ==> forall k :: 0 <= k < |ts| ==> ts[k] > 2.0
  {
    var lines := Explode("\n", output);
    FrameTimesAboveTwo(lines);
    if |lines| >= 4 then removeOutliers(FrameTimes(lines)) else []
  }

  /** The foreach over the lines of a libframetime log. */
  method LibFrametime(output: string, removeOutliers: seq<real> -> seq<real>) returns (times: seq<real>)
    ensures times == LogFrameTimes(output, removeOutliers)
  {
    hide Explode, Substr, Tail, ToNumber, IsNumeric;
    var lines := Explode("\n", output);
    times := [];
    if |lines| >= 4 {
      for i := 0 to |lines|
        invariant times == FrameTimes(lines[..i])
      {
        var v := lines[i];
        if Tail(v, 3) == " us" && OrEmpty(Substr(v, 0, Some(10))) == "Frametime " {
          var frametime := FrametimeText(v);
          if ToNum(frametime) > 2000.0 {
            times := times + [ToNum(frametime) / 1000.0];
          }
        }
        assert lines[..i + 1][..i] == lines[..i];
      }
      assert lines[..|lines|] == lines;
      times := removeOutliers(times);
    }
  }

  /** Numbers as PHP values. */
  function AsValues(xs: seq<real>): (vs: seq<Value>)
    ensures |vs| == |xs| && forall k :: 0 <= k < |xs| ==> vs[k] == Num(xs[k])
  {
    seq(|xs|, k requires 0 <= k < |xs| => Num(xs[k]))
  }

  /** Strings as PHP values. */
  function AsStrings(ss: seq<string>): (vs: seq<Value>)
    ensures |vs| == |ss| && forall k :: 0 <= k < |ss| ==> vs[k] == Str(ss[k])
  {
    seq(|ss|, k requires 0 <= k < |ss| => Str(ss[k]))
  }

  /** A sample's frame rate, `1000 / $v`; a sample that is not numeric or is 0 is unset instead. */
  function Rate(v: Value): (r: Option<real>)
    ensures r.Some? <==> IsNumericValue(v) && ToNum(v) != 0.0
    ensures r.Some? ==> r.value != 0.0 && r.value * ToNum(v) == 1000.0
  {
    if IsNumericValue(v) && ToNum(v) != 0.0 then Some(1000.0 / ToNum(v)) else None
  }

  /** The frame rates of the samples that are kept, in order. */
  function Rates(vs: seq<Value>): (rs: seq<real>)
    ensures |rs| <= |vs|
  {
    if vs == [] then []
    else
      var r := Rate(vs[|vs| - 1]);
      Rates(vs[..|vs| - 1]) + (if r.Some? then [r.value] else [])
  }

  /** When every sample is a non-zero number, each one has a rate, and rate times sample is 1000. */
  lemma {:induction false} RatesOfNumbers(vs: seq<Value>)
    requires forall k :: 0 <= k < |vs| ==> IsNumericValue(vs[k]) && ToNum(vs[k]) != 0.0
    ensures |Rates(vs)| == |vs|
    ensures forall k :: 0 <= k < |vs| ==> Rates(vs)[k] * ToNum(vs[k]) == 1000.0
  {
    if vs != [] {
      var init := vs[..|vs| - 1];
      RatesOfNumbers(init);
      assert forall k :: 0 <= k < |init| ==> init[k] == vs[k];
    }
  }

  /** No rate is 0, and there are none exactly when no sample is a non-zero number. */
  lemma {:induction false} RatesNonZero(vs: seq<Value>)
    ensures forall k :: 0 <= k < |Rates(vs)| ==> Rates(vs)[k] != 0.0
    ensures Rates(vs) == [] <==> forall k :: 0 <= k < |vs| ==> Rate(vs[k]).None?
  {
    if vs != [] {
      var init := vs[..|vs| - 1];
      RatesNonZero(init);
      assert forall k :: 0 <= k < |init| ==> init[k] == vs[k];
    }
  }

  /** The foreach that unsets the unusable samples and turns the others into rates. */
  method FrameRates(vs: seq<Value>) returns (rates: seq<real>)
    ensures rates == Rates(vs)
  {
    rates := [];
    for i := 0 to |vs|
      invariant rates == Rates(vs[..i])
    {
      var v := vs[i];
      if IsNumericValue(v) && ToNum(v) != 0.0 {
        rates := rates + [1000.0 / ToNum(v)];
      }
      assert vs[..i + 1][..i] == vs[..i];
    }
    assert vs[..|vs|] == vs;
  }

  /** `min()` of a non-empty list of numbers. */
  function SeqMin(xs: seq<real>): real
    requires xs != []
  {
    if |xs| == 1 then xs[0]
    else
      var m := SeqMin(xs[1..]);
      if xs[0] <= m then xs[0] else m
  }

  /** `max()` of a non-empty list of numbers. */
  function SeqMax(xs: seq<real>): real
    requires xs != []
  {
    if |xs| == 1 then xs[0]
    else
      var m := SeqMax(xs[1..]);
      if xs[0] >= m then xs[0] else m
  }

  /** The minimum is one of the numbers and no number is below it. */
  lemma {:induction false} SeqMinLeast(xs: seq<real>)
    requires xs != []
    ensures SeqMin(xs) in xs
    ensures forall k :: 0 <= k < |xs| ==> SeqMin(xs) <= xs[k]
  {
    if |xs| > 1 {
      SeqMinLeast(xs[1..]);
      assert forall k :: 1 <= k < |xs| ==> xs[k] == xs[1..][k - 1];
    }
  }

  /** The maximum is one of the numbers and no number is above it. */
  lemma {:induction false} SeqMaxGreatest(xs: seq<real>)
    requires xs != []
    ensures SeqMax(xs) in xs
    ensures forall k :: 0 <= k < |xs| ==> xs[k] <= SeqMax(xs)
  {
    if |xs| > 1 {
      SeqMaxGreatest(xs[1..]);
      assert forall k :: 1 <= k < |xs| ==> xs[k] == xs[1..][k - 1];
    }
  }

  /** The rates reduced as the prefix asks: `MIN_`, `MAX_`, or otherwise their average. */
  function Reduce(rates: seq<real>, prefix: string): (r: real)
    requires rates != []
    ensures prefix == "MIN_" ==> r in rates && forall k :: 0 <= k < |rates| ==> r <= rates[k]
    ensures prefix == "MAX_" ==> r in rates && forall k :: 0 <= k < |rates| ==> rates[k] <= r
  {
    SeqMinLeast(rates);
    SeqMaxGreatest(rates);
    if prefix == "MIN_" then SeqMin(rates)
    else if prefix == "MAX_" then SeqMax(rates)
    else Sum(AsValues(rates)) / |rates| as real
  }

  /** Whatever the prefix, the reduced value lies between the smallest and the largest rate. */
  lemma ReduceWithinRange(rates: seq<real>, prefix: string)
    requires rates != []
    ensures SeqMin(rates) <= Reduce(rates, prefix) <= SeqMax(rates)
  {
    hide Sum, SeqMin, SeqMax, IsNumeric, ToNumber;
    SeqMinLeast(rates);
    SeqMaxGreatest(rates);
    if prefix != "MIN_" && prefix != "MAX_" {
      MeanBounds(AsValues(rates), SeqMin(rates), SeqMax(rates));
    }
  }

  /**
   * The series' value: with at least four samples the first is dropped
   * and the rest are reduced; no usable sample, or a result of 0, gives
   * no value.
   */
  function SeriesValue(samples: seq<Value>, prefix: string): (r: Option<real>)
    ensures r.Some? ==> r.value != 0.0 && |samples| >= 4
  {
    if |samples| >= 4 && Rates(samples[1..]) != [] then
      var val := Reduce(Rates(samples[1..]), prefix);
      if val != 0.0 then Some(val) else None
    else None
  }

  /** The first sample never matters. */
  lemma FirstSampleIgnored(x: Value, samples: seq<Value>, prefix: string)
    requires |samples| >= 4
    ensures SeriesValue([x] + samples[1..], prefix) == SeriesValue(samples, prefix)
  {
    assert ([x] + samples[1..])[1..] == samples[1..];
  }

  /** With the `MIN_` or `MAX_` prefix the value is the smallest or the largest rate. */
  lemma SeriesExtremes(samples: seq<Value>, prefix: string)
    requires SeriesValue(samples, prefix).Some?
    ensures prefix == "MIN_" ==> forall k :: 0 <= k < |Rates(samples[1..])| ==> SeriesValue(samples, prefix).value <= Rates(samples[1..])[k]
    ensures prefix == "MAX_" ==> forall k :: 0 <= k < |Rates(samples[1..])| ==> Rates(samples[1..])[k] <= SeriesValue(samples, prefix).value
    ensures SeriesValue(samples, prefix).value in Rates(samples[1..]) || (prefix != "MIN_" && prefix != "MAX_")
  {
    var rates := Rates(samples[1..]);
    SeqMinLeast(rates);
    SeqMaxGreatest(rates);
  }

  /** The samples a frame-time template reads from the log, and whether the template was one of them. */
  datatype Series = Series(processed: bool, samples: seq<Value>)

  /** `libframetime-output` reads frame times, `csv-dump-frame-latencies` the comma-separated fields. */
  function TemplateSamples(template: string, output: string, removeOutliers: seq<real> -> seq<real>): (s: Series)
    ensures s.processed <==> template == "libframetime-output" || template == "csv-dump-frame-latencies"
    ensures !s.processed ==> s.samples == []
  {
    if template == "libframetime-output" then Series(true, AsValues(LogFrameTimes(output, removeOutliers)))
    else if template == "csv-dump-frame-latencies" then Series(true, AsStrings(Explode(",", output)))
    else Series(false, [])
  }

  /** Lines 707-768: the samples of a frame-time template and the value they give. */
  method FrameSeriesResult(template: string, output: string, prefix: string, removeOutliers: seq<real> -> seq<real>)
    returns (processed: bool, value: Option<real>)
    ensures processed == TemplateSamples(template, output, removeOutliers).processed
    ensures value == SeriesValue(TemplateSamples(template, output, removeOutliers).samples, prefix)
  {
    var samples: seq<Value> := [];
    processed := false;
    if template == "libframetime-output" {
      processed := true;
      var times := LibFrametime(output, removeOutliers);
      samples := AsValues(times);
    } else if template == "csv-dump-frame-latencies" {
      processed := true;
      samples := AsStrings(Explode(",", output));
    }
    value := None;
    if |samples| >= 4 {
      var rates := FrameRates(samples[1..]);
      if rates != [] {
        var val := Reduce(rates, prefix);
        if val != 0.0 {
          value := Some(val);
        }
      }
    }
  }

  /** The fields of a comma-separated log that are numeric, in order. */
  function NumericFields(fields: seq<string>): (ns: seq<string>)
    ensures |ns| <= |fields|
  {
    if fields == [] then []
    else NumericFields(fields[..|fields| - 1]) + (if IsNumeric(fields[|fields| - 1]) then [fields[|fields| - 1]] else [])
  }

  /** Only numeric fields are kept, and every numeric field is kept. */
  lemma {:induction false} NumericFieldsExactly(fields: seq<string>)
    ensures forall k :: 0 <= k < |NumericFields(fields)| ==> IsNumeric(NumericFields(fields)[k])
    ensures AllNumeric(fields) ==> NumericFields(fields) == fields
  {
    hide IsNumeric;
    if fields != [] {
      var init := fields[..|fields| - 1];
      var last := fields[|fields| - 1];
      NumericFieldsExactly(init);
      var ns := NumericFields(fields);
      assert ns == NumericFields(init) + (if IsNumeric(last) then [last] else []);
      forall k | 0 <= k < |ns|
        ensures IsNumeric(ns[k])
      {
        if k < |NumericFields(init)| {
          assert ns[k] == NumericFields(init)[k];
        }
      }
      if AllNumeric(fields) {
        assert forall k :: 0 <= k < |init| ==> init[k] == fields[k];
        assert IsNumeric(fields[|fields| - 1]);
        assert init + [last] == fields;
      }
    }
  }

  /** The times of a csv-dump-frame-latencies log, read trimmed: its numeric fields, when it has at least four fields. */
  function CsvTimes(contents: string): (ts: seq<string>)
    ensures forall k :: 0 <= k < |ts| ==> IsNumeric(ts[k])
    ensures var fields := Explode(",", Trim(contents)); |fields| >= 4 && AllNumeric(fields) ==> ts == fields
    ensures |Explode(",", Trim(contents))| < 4 ==> ts == []
  {
    var fields := Explode(",", Trim(contents));
    NumericFieldsExactly(fields);
    if |fields| >= 4 then NumericFields(fields) else []
  }

  /** The foreach of lines 298-307 that unsets the fields that are not numeric. */
  method CsvFrameTimes(contents: string) returns (times: seq<string>)
    ensures times == CsvTimes(contents)
  {
    var fields := Explode(",", Trim(contents));
    times := [];
    if |fields| >= 4 {
      for i := 0 to |fields|
        invariant times == NumericFields(fields[..i])
      {
        if IsNumeric(fields[i]) {
          times := times + [fields[i]];
        }
        assert fields[..i + 1][..i] == fields[..i];
      }
      assert fields[..|fields|] == fields;
    }
  }

  /**
   * One `frame:` block of an id Tech log: the first word after ` all: `,
   * when ` all: ` is on the block's first line and the word is a
   * positive number.
   */
  function AllTotal(block: string): (t: Option<string>)
    ensures t.Some? ==> IsNumeric(t.value) && ToNumber(t.value) > 0.0
  {
    var a := StrPos(block, " all: ");
    var nl := StrPos(block, "\n");
    if a.Some? && nl.Some? && a.value < nl.value then
      var all := LTrim(OrEmpty(Substr(block, a.value + 6)));
      var space := StrPos(all, " ");
      var word := OrEmpty(Substr(all, 0, Some(if space.Some? then space.value else 0)));
      if IsNumeric(word) && ToNumber(word) > 0.0 then Some(word) else None
    else None
  }

  /** `strstr($log, 'frame:')`, where `false` reads as "": the log from its next `frame:` block on. */
  function FrameBlock(log: Option<string>): (f: Option<string>)
    ensures f.Some? ==> log.Some? && |f.value| <= |log.value| && |f.value| >= 6 && f.value[0] == 'f'
  {
    if log.Some? then
      var r := StrStr(log.value, "frame:");
      if r.Some? then
        var i := |log.value| - |r.value|;
        assert log.value[i..i + 6] == "frame:";
        assert r.value[0] == log.value[i..i + 6][0];
        r
      else None
    else None
  }

  /** `strstr($block, 'bk:')` on a block that starts with `frame:`: what follows is shorter than the block. */
  function NextLog(block: string): (r: Option<string>)
    requires |block| > 0 && block[0] == 'f'
    ensures r.Some? ==> |r.value| < |block|
  {
    var r := StrStr(block, "bk:");
    if r.Some? then
      var j := |block| - |r.value|;
      assert block[j..j + 3] == "bk:";
      assert block[j] == block[j..j + 3][0];
      r
    else None
  }

  /**
   * The totals of the `frame:` blocks of an id Tech log, in order; `None`
   * is PHP's `false`. Each block gives at most one total, so there are
   * fewer totals than characters in the log.
   */
  function ComSpeedsTotals(log: Option<string>): (ts: seq<string>)
    decreases if log.Some? then |log.value| + 1 else 0
    ensures log.None? ==> ts == []
    ensures log.Some? ==> |ts| < |log.value| || ts == []
  {
    var f := FrameBlock(log);
    if f.None? then []
    else
      var e := AllTotal(f.value);
      (if e.Some? then [e.value] else []) + ComSpeedsTotals(NextLog(f.value))
  }

  /** Every total read from an id Tech log is a positive number. */
  lemma {:induction false} ComSpeedsTotalsPositive(log: Option<string>)
    ensures forall k :: 0 <= k < |ComSpeedsTotals(log)| ==> IsNumeric(ComSpeedsTotals(log)[k]) && ToNumber(ComSpeedsTotals(log)[k]) > 0.0
    decreases if log.Some? then |log.value| + 1 else 0
  {
    hide FrameBlock, NextLog, AllTotal, IsNumeric, ToNumber;
    var f := FrameBlock(log);
    if f.Some? {
      ComSpeedsTotalsPositive(NextLog(f.value));
    }
  }

  /** The while loop of lines 313-327 over the `frame:` blocks of the log read trimmed. */
  method ComSpeeds(contents: string) returns (totals: seq<string>)
    ensures totals == ComSpeedsTotals(Some(Trim(contents)))
  {
    hide FrameBlock, NextLog, AllTotal;
    totals := [];
    var log: Option<string> := Some(Trim(contents));
    while true
      invariant totals + ComSpeedsTotals(log) == ComSpeedsTotals(Some(Trim(contents)))
      decreases if log.Some? then |log.value| + 1 else 0
    {
      var f := FrameBlock(log);
      if f.None? {
        break;
      }
      var e := AllTotal(f.value);
      if e.Some? {
        totals := totals + [e.value];
      }
      log := NextLog(f.value);
    }
  }

  /** The times an ExtraData entry reads from the log, by its identifier; other identifiers read none. */
  function ExtraTimes(id: Option<string>, contents: string, removeOutliers: seq<real> -> seq<real>): (ts: seq<Value>)
    ensures id !in {Some("libframetime-output"), Some("csv-dump-frame-latencies"), Some("com-speeds-frame-latency-totals")} ==> ts == []
    ensures id == Some("libframetime-output") ==> forall k :: 0 <= k < |ts| ==> ts[k].Num?
    ensures id in {Some("csv-dump-frame-latencies"), Some("com-speeds-frame-latency-totals")} ==> forall k :: 0 <= k < |ts| ==> ts[k].Str?
  {
    if id == Some("libframetime-output") then AsValues(LogFrameTimes(contents, removeOutliers))
    else if id == Some("csv-dump-frame-latencies") then AsStrings(CsvTimes(contents))
    else if id == Some("com-speeds-frame-latency-totals") then AsStrings(ComSpeedsTotals(Some(Trim(contents))))
    else []
  }

  /**
   * The csv and id Tech logs are read trimmed, so the newline that ends
   * the file adds no empty last field and no line to the log.
   */
  lemma TrailingNewlineIgnored(id: Option<string>, contents: string, removeOutliers: seq<real> -> seq<real>)
    requires id == Some("csv-dump-frame-latencies") || id == Some("com-speeds-frame-latency-totals")
    ensures ExtraTimes(id, contents + "\n", removeOutliers) == ExtraTimes(id, contents, removeOutliers)
  {
    TrimDropsTrailing(contents, '\n');
  }

  /** An extra result: a line graph in milliseconds, lower is better, with the times as its value. */
  datatype Extra = Extra(scale: string, proportion: string, displayFormat: string, description: string, result: string)

  /** With at least 61 times, all but the first are joined with commas into an extra result. */
  function ExtraResult(times: seq<Value>): (e: Option<Extra>)
    ensures e.Some? <==> |times| >= 61
  {
    if |times| >= 61 then
      Some(Extra("Milliseconds", "LIB", "LINE_GRAPH", "Total Frame Time", Implode(",", Texts(times[1..]))))
    else None
  }

  /** When no time's text holds a comma, splitting the extra result at its commas gives back every time but the first. */
  lemma ExtraResultRoundTrip(times: seq<Value>)
    requires |times| >= 61
    requires forall k :: 0 <= k < |times| ==> ',' !in ToStr(times[k])
    ensures Explode(",", ExtraResult(times).value.result) == Texts(times[1..])
  {
    var ts := Texts(times[1..]);
    assert forall k :: 0 <= k < |ts| ==> ts[k] == ToStr(times[k + 1]);
    ExplodeImplode(',', ts);
  }

  /** A numeric string holds no comma. */
  lemma NumericHasNoComma(s: string)
    requires IsNumeric(s)
    ensures ',' !in s
  {
    NumericCharacters(s);
  }

  /** The csv and id Tech extra results list their times exactly: every time is numeric, so none holds a comma. */
  lemma NumericExtraRoundTrip(id: Option<string>, contents: string, removeOutliers: seq<real> -> seq<real>)
    requires id == Some("csv-dump-frame-latencies") || id == Some("com-speeds-frame-latency-totals")
    requires |ExtraTimes(id, contents, removeOutliers)| >= 61
    ensures var times := ExtraTimes(id, contents, removeOutliers);
      Explode(",", ExtraResult(times).value.result) == Texts(times[1..])
  {
    var times := ExtraTimes(id, contents, removeOutliers);
    var strs := if id == Some("csv-dump-frame-latencies") then CsvTimes(contents) else ComSpeedsTotals(Some(Trim(contents)));
    assert times == AsStrings(strs);
    if id == Some("com-speeds-frame-latency-totals") {
      ComSpeedsTotalsPositive(Some(Trim(contents)));
    }
    forall k | 0 <= k < |times|
      ensures ',' !in ToStr(times[k])
    {
      NumericHasNoComma(strs[k]);
    }
    ExtraResultRoundTrip(times);
  }

  /** The extra results of the ExtraData entries, in order; an entry whose log gives fewer than 61 times adds none. */
  function ExtraResults(ids: seq<Option<string>>, contents: string, removeOutliers: seq<real> -> seq<real>): (es: seq<Extra>)
    ensures |es| <= |ids|
  {
    if ids == [] then []
    else
      var e := ExtraResult(ExtraTimes(ids[|ids| - 1], contents, removeOutliers));
      ExtraResults(ids[..|ids| - 1], contents, removeOutliers) + (if e.Some? then [e.value] else [])
  }

  /** Entries with other identifiers, or with none, add no extra result. */
  lemma {:induction false} UnknownEntriesIgnored(ids: seq<Option<string>>, contents: string, removeOutliers: seq<real> -> seq<real>)
    requires forall k :: 0 <= k < |ids| ==> ids[k] !in {Some("libframetime-output"), Some("csv-dump-frame-latencies"), Some("com-speeds-frame-latency-totals")}
    ensures ExtraResults(ids, contents, removeOutliers) == []
  {
    if ids != [] {
      UnknownEntriesIgnored(ids[..|ids| - 1], contents, removeOutliers);
    }
  }

  /** The foreach over the ExtraData entries of generate_extra_data. */
  method GenerateExtraData(ids: seq<Option<string>>, contents: string, removeOutliers: seq<real> -> seq<real>)
    returns (extras: seq<Extra>)
    ensures extras == ExtraResults(ids, contents, removeOutliers)
  {
    hide LogFrameTimes, CsvTimes, ComSpeedsTotals, Texts, Implode, AsValues, AsStrings;
    extras := [];
    for i := 0 to |ids|
      invariant extras == ExtraResults(ids[..i], contents, removeOutliers)
    {
      var frameAllTimes: seq<Value> := [];
      if ids[i] == Some("libframetime-output") {
        var times := LibFrametime(contents, removeOutliers);
        frameAllTimes := AsValues(times);
      } else if ids[i] == Some("csv-dump-frame-latencies") {
        var times := CsvFrameTimes(contents);
        frameAllTimes := AsStrings(times);
      } else if ids[i] == Some("com-speeds-frame-latency-totals") {
        var times := ComSpeeds(contents);
        frameAllTimes := AsStrings(times);
      }
      assert frameAllTimes == ExtraTimes(ids[i], contents, removeOutliers);
      if |frameAllTimes| >= 61 {
        extras := extras + [Extra("Milliseconds", "LIB", "LINE_GRAPH", "Total Frame Time", Implode(",", Texts(frameAllTimes[1..])))];
      }
      assert ids[..i + 1][..i] == ids[..i];
    }
    assert ids[..|ids|] == ids;
  }
}
