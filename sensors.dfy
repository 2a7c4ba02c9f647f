/**
 * System monitors of a test profile (pts_test_result_parser.php, lines
 * 40-200): system_monitor_task_check validates the profile's
 * SystemMonitor declarations and registers a monitor for each usable one;
 * system_monitor_task_post_test reduces what each monitor collected and
 * answers the first value that is not null. The clock, the supported
 * sensor list, the PHP extensions present and the contents of each
 * monitor's channel file are inputs.
 */
module Sensors {
  import opened Wrappers
  import opened PhpStrings
  import opened PhpValues
  import opened Normalizer
  import opened FrameSeries

  /** One SystemMonitor declaration: its Sensor, PollingFrequency and Report texts, each possibly absent. */
  datatype Declaration = Declaration(sensor: Option<string>, polling: Option<string>, report: Option<string>)

  /** A registered monitor: the `sys.time` timer with its start time, or a sampling worker for a sensor. */
  datatype Monitor = Timer(start: real) | Worker(sensor: seq<string>, reportAs: string)

  /** The sensor name split on `.`; an absent name splits as the empty string. */
  function SensorParts(d: Declaration): (parts: seq<string>)
    ensures |parts| >= 1
  {
    Explode(".", d.sensor.GetOr(""))
  }

  /** PHP's loose `==` between two arrays of strings: same length and loosely equal elements. */
  predicate SameParts(a: seq<string>, b: seq<string>)
  {
    |a| == |b| && forall k :: 0 <= k < |a| ==> LooseEq(a[k], b[k])
  }

  /** `in_array($sensor, $supported)` with loose comparison. */
  predicate Supported(parts: seq<string>, supported: seq<seq<string>>)
  {
    exists k :: 0 <= k < |supported| && SameParts(parts, supported[k])
  }

  /** The report types a worker can be registered with. */
  predicate IsReportType(r: string)
  {
    r in {"ALL", "MAX", "MIN", "AVG"}
  }

  /** A usable polling frequency: numeric and at least half a second. */
  predicate PollsOften(p: Option<string>)
  {
    p.Some? && IsNumeric(p.value) && ToNumber(p.value) >= 0.5
  }

  /** The timer started now, or a worker for a supported two-part sensor with a known report type. */
  predicate ValidMonitor(m: Monitor, supported: seq<seq<string>>, now: real)
  {
    match m
    case Timer(start) => start == now
    case Worker(sensor, reportAs) => |sensor| == 2 && Supported(sensor, supported) && IsReportType(reportAs)
  }

  /**
   * What a declaration registers: the timer for `sys.time`, a worker for
   * a supported two-part sensor with a usable polling frequency and a
   * known report type, and nothing otherwise.
   */
  function Accepted(d: Declaration, supported: seq<seq<string>>, now: real): (m: Option<Monitor>)
    ensures m.Some? ==> ValidMonitor(m.value, supported, now)
    ensures m.Some? && m.value.Worker? ==> PollsOften(d.polling) && m.value.sensor == SensorParts(d)
    ensures m.Some? && m.value.Timer? <==> SensorParts(d) == ["sys", "time"]
  {
    var parts := SensorParts(d);
    if parts == ["sys", "time"] then Some(Timer(now))
    else if |parts| != 2 || !Supported(parts, supported) then None
    else if !PollsOften(d.polling) then None
    else if d.report.None? || !IsReportType(d.report.value) then None
    else Some(Worker(parts, d.report.value))
  }

  /**
   * The monitors the check leaves registered, and whether it stopped at a
   * worker because forking is unavailable (keeping the monitors before it).
   */
  datatype Registration = Registration(monitors: seq<Monitor>, aborted: bool)

  /** The declarations read in order; without forking the first worker stops the check. */
  function Registrations(decls: seq<Declaration>, supported: seq<seq<string>>, hasFork: bool, now: real): (r: Registration)
    ensures |r.monitors| <= |decls|
  {
    if decls == [] then Registration([], false)
    else
      var m := Accepted(decls[0], supported, now);
      if m.None? then Registrations(decls[1..], supported, hasFork, now)
      else if m.value.Worker? && !hasFork then Registration([], true)
      else
        var rest := Registrations(decls[1..], supported, hasFork, now);
        Registration([m.value] + rest.monitors, rest.aborted)
  }

  /** Every registered monitor is valid. */
  lemma {:induction false} RegisteredAreValid(decls: seq<Declaration>, supported: seq<seq<string>>, hasFork: bool, now: real)
    ensures forall m <- Registrations(decls, supported, hasFork, now).monitors :: ValidMonitor(m, supported, now)
  {
    hide Accepted;
    if decls != [] {
      RegisteredAreValid(decls[1..], supported, hasFork, now);
    }
  }

  /** With forking, every accepted declaration is registered, in order, and the check does not stop. */
  lemma {:induction false} RegisteredWithFork(decls: seq<Declaration>, supported: seq<seq<string>>, now: real)
    ensures Registrations(decls, supported, true, now) == Registration(AcceptedAll(decls, supported, now), false)
  {
    hide Accepted;
    if decls != [] {
      RegisteredWithFork(decls[1..], supported, now);
    }
  }

  /** Without forking, the check stops exactly when a declaration would need a worker, and otherwise registers only timers. */
  lemma {:induction false} RegisteredWithoutFork(decls: seq<Declaration>, supported: seq<seq<string>>, now: real)
    ensures var r := Registrations(decls, supported, false, now);
      (r.aborted <==> exists k :: 0 <= k < |decls| && IsWorkerDecl(decls[k], supported, now))
      && (!r.aborted ==> forall m <- r.monitors :: m == Timer(now))
  {
    hide Accepted, SensorParts, PollsOften;
    if decls != [] {
      RegisteredWithoutFork(decls[1..], supported, now);
      assert forall k :: 1 <= k < |decls| ==> decls[k] == decls[1..][k - 1];
      if Registrations(decls, supported, false, now).aborted && !IsWorkerDecl(decls[0], supported, now) {
        var k :| 0 <= k < |decls[1..]| && IsWorkerDecl(decls[1..][k], supported, now);
        assert IsWorkerDecl(decls[k + 1], supported, now);
      }
    }
  }

  /** The registrations of a suffix of the declarations, one declaration unfolded. */
  lemma RegistrationStep(ds: seq<Declaration>, i: nat, supported: seq<seq<string>>, hasFork: bool, now: real)
    requires i <= |ds|
    ensures i == |ds| ==> Registrations(ds[i..], supported, hasFork, now) == Registration([], false)
    ensures i < |ds| ==> var m := Accepted(ds[i], supported, now);
      var rest := Registrations(ds[i + 1..], supported, hasFork, now);
      Registrations(ds[i..], supported, hasFork, now)
        == if m.None? then rest
           else if m.value.Worker? && !hasFork then Registration([], true)
           else Registration([m.value] + rest.monitors, rest.aborted)
  {
    hide Accepted;
    if i < |ds| {
      assert ds[i..][1..] == ds[i + 1..];
    }
  }

  /** A declaration that registers a worker. */
  predicate IsWorkerDecl(d: Declaration, supported: seq<seq<string>>, now: real)
  {
    var m := Accepted(d, supported, now);
    m.Some? && m.value.Worker?
  }

  /** The accepted monitors, as a reference to compare the registrations with. */
  function AcceptedAll(decls: seq<Declaration>, supported: seq<seq<string>>, now: real): seq<Monitor>
  {
    if decls == [] then []
    else
      var m := Accepted(decls[0], supported, now);
      (if m.Some? then [m.value] else []) + AcceptedAll(decls[1..], supported, now)
  }

  /** The `sys.time` reading: the elapsed time, or null when the test ended faster than the minimal test time. */
  function TimerReading(start: real, now: real, minimal: real): (v: Value)
    ensures v == Null <==> now - start < minimal
    ensures v != Null ==> v == Num(now - start)
  {
    if now - start < minimal then Null else Num(now - start)
  }

  /** A worker's samples reduced by its report type: the largest, the smallest, the mean or all of them comma-joined. */
  function Reduced(reportAs: string, samples: seq<string>): (v: Value)
    requires |samples| > 0
    ensures !IsReportType(reportAs) <==> v == Null
  {
    if reportAs == "MAX" then Str(Max(samples))
    else if reportAs == "MIN" then Str(Min(samples))
    else if reportAs == "AVG" then Num(Sum(AsStrings(samples)) / |samples| as real)
    else if reportAs == "ALL" then Str(Implode(",", samples))
    else Null
  }

  /** A channel's samples: its contents, read trimmed, split on newlines. */
  function Samples(channel: string): (samples: seq<string>)
    ensures |samples| >= 1
  {
    Explode("\n", Trim(channel))
  }

  /** The channel is read trimmed, so the newline after the last sample adds no empty sample. */
  lemma LastNewlineIgnored(channel: string)
    ensures Samples(channel + "\n") == Samples(channel)
  {
    TrimDropsTrailing(channel, '\n');
  }

  /** What one monitor reports at the end of the test. */
  function Reading(m: Monitor, channel: string, now: real, minimal: real): (v: Value)
    ensures v != False
    ensures m.Timer? ==> (v == Null <==> now - m.start < minimal)
    ensures m.Worker? ==> (v == Null <==> !IsReportType(m.reportAs))
  {
    match m
    case Timer(start) => TimerReading(start, now, minimal)
    case Worker(_, reportAs) => Reduced(reportAs, Samples(channel))
  }

  /**
   * The post-test answer: the first monitor's reading that is not null,
   * false when there is none, and false as soon as a worker is met while
   * the POSIX extension is missing.
   */
  function PostTestOutcome(ms: seq<Monitor>, channels: seq<string>, now: real, minimal: real, hasKill: bool): (r: Value)
    requires |channels| == |ms|
    ensures r == False || !IsNullLike(r)
    ensures ms != [] && ms[0].Worker? && !hasKill ==> r == False
  {
    if ms == [] then False
    else if ms[0].Worker? && !hasKill then False
    else
      var v := Reading(ms[0], channels[0], now, minimal);
      if !IsNullLike(v) then v else PostTestOutcome(ms[1..], channels[1..], now, minimal, hasKill)
  }

  /** The answer is false or the reading of a monitor whose predecessors all read null; the monitors after it are not visited. */
  lemma {:induction false} FirstNonNull(ms: seq<Monitor>, channels: seq<string>, now: real, minimal: real, hasKill: bool)
    requires |channels| == |ms|
    ensures var r := PostTestOutcome(ms, channels, now, minimal, hasKill);
      r == False || exists k :: 0 <= k < |ms| && IsFirstReading(ms, channels, now, minimal, k, r)
  {
    hide Reading;
    if ms != [] && !(ms[0].Worker? && !hasKill) && !IsNullLike(Reading(ms[0], channels[0], now, minimal)) {
      assert IsFirstReading(ms, channels, now, minimal, 0, PostTestOutcome(ms, channels, now, minimal, hasKill));
    } else if ms != [] && !(ms[0].Worker? && !hasKill) {
      FirstNonNull(ms[1..], channels[1..], now, minimal, hasKill);
      var r := PostTestOutcome(ms, channels, now, minimal, hasKill);
      if r != False {
        var k :| 0 <= k < |ms[1..]| && IsFirstReading(ms[1..], channels[1..], now, minimal, k, r);
        assert forall j :: 1 <= j < k + 2 ==> ms[j] == ms[1..][j - 1] && channels[j] == channels[1..][j - 1];
        assert IsFirstReading(ms, channels, now, minimal, k + 1, r);
      }
    }
  }

  /** `r` is monitor k's reading, not null, and every monitor before k reads null. */
  predicate IsFirstReading(ms: seq<Monitor>, channels: seq<string>, now: real, minimal: real, k: nat, r: Value)
    requires |channels| == |ms| && k < |ms|
  {
    r == Reading(ms[k], channels[k], now, minimal) && !IsNullLike(r)
    && forall j :: 0 <= j < k ==> IsNullLike(Reading(ms[j], channels[j], now, minimal))
  }

  /** Once a monitor reads something, what follows it does not matter. */
  lemma LaterMonitorsIgnored(ms: seq<Monitor>, channels: seq<string>, more: seq<Monitor>, moreChannels: seq<string>,
                             now: real, minimal: real, hasKill: bool)
    requires |channels| == |ms| && |moreChannels| == |more|
    requires PostTestOutcome(ms, channels, now, minimal, hasKill) != False
    ensures PostTestOutcome(ms + more, channels + moreChannels, now, minimal, hasKill)
      == PostTestOutcome(ms, channels, now, minimal, hasKill)
  {
    hide Reading;
    if ms != [] {
      assert (ms + more)[0] == ms[0] && (channels + moreChannels)[0] == channels[0];
      assert (ms + more)[1..] == ms[1..] + more;
      assert (channels + moreChannels)[1..] == channels[1..] + moreChannels;
      if !(ms[0].Worker? && !hasKill) && IsNullLike(Reading(ms[0], channels[0], now, minimal)) {
        LaterMonitorsIgnored(ms[1..], channels[1..], more, moreChannels, now, minimal, hasKill);
      }
    }
  }

  /** A worker whose channel is empty reads null, whatever its report type. */
  lemma EmptyChannelReadsNull(sensor: seq<string>, reportAs: string, now: real, minimal: real)
    ensures IsNullLike(Reading(Worker(sensor, reportAs), "", now, minimal))
  {
    assert Samples("") == [""] by {
      assert FindFrom("", "\n", 0).None?;
    }
    assert Sum(AsStrings([""])) == 0.0 by {
      assert AsStrings([""]) == [Str("")];
      assert ToNumber("") == 0.0;
    }
  }

  /** A one-digit sample reads back as its digit. */
  lemma DigitSample(d: nat)
    requires d < 10
    ensures IsNumeric([DigitChar(d)]) && ToNumber([DigitChar(d)]) == d as real
  {
    NatToStringRoundTrip(d);
  }

  /** The samples 1, 2, 3, 4 are numbers. */
  lemma ExampleSamples()
    ensures AllNumeric(["1", "2", "3", "4"])
    ensures ToNumber("1") == 1.0 && ToNumber("2") == 2.0 && ToNumber("3") == 3.0 && ToNumber("4") == 4.0
  {
    hide IsNumeric, ToNumber;
    DigitSample(1);
    assert [DigitChar(1)] == "1";
    DigitSample(2);
    assert [DigitChar(2)] == "2";
    DigitSample(3);
    assert [DigitChar(3)] == "3";
    DigitSample(4);
    assert [DigitChar(4)] == "4";
  }

  /** The samples 1, 2, 3, 4 reduce to 4 for MAX and 1 for MIN. */
  lemma ExtremeExamples()
    ensures Reduced("MAX", ["1", "2", "3", "4"]) == Str("4")
    ensures Reduced("MIN", ["1", "2", "3", "4"]) == Str("1")
  {
    var xs := ["1", "2", "3", "4"];
    ExampleSamples();
    hide IsNumeric, ToNumber, Max, Min, AllNumeric;
    MaxOfNumbers(xs);
    MinOfNumbers(xs);
    assert ToNumber(xs[3]) <= ToNumber(Max(xs));
    assert ToNumber(Min(xs)) <= ToNumber(xs[0]);
  }

  /** The samples 1, 2, 3, 4 reduce to 2.5 for AVG and "1,2,3,4" for ALL. */
  lemma MeanAndAllExamples()
    ensures Reduced("AVG", ["1", "2", "3", "4"]) == Num(2.5)
    ensures Reduced("ALL", ["1", "2", "3", "4"]) == Str("1,2,3,4")
  {
    var xs := ["1", "2", "3", "4"];
    ExampleSamples();
    hide IsNumeric, ToNumber, Max, Min;
    var vs := AsStrings(xs);
    assert vs[3..] == [Str("4")] && vs[2..][1..] == vs[3..] && vs[1..][1..] == vs[2..] && vs[1..] == vs[1..];
    assert Sum(vs[3..]) == 4.0;
    assert Sum(vs[2..]) == 7.0;
    assert Sum(vs[1..]) == 9.0;
    assert Sum(vs) == 10.0;
  }

  /** The foreach of lines 54-128: registers the accepted declarations in order, stopping at a worker when forking is unavailable. */
  method Register(ds: seq<Declaration>, supported: seq<seq<string>>, hasFork: bool, now: real) returns (r: Registration)
    ensures r == Registrations(ds, supported, hasFork, now)
  {
    hide Accepted, Registrations, SensorParts, ValidMonitor, PollsOften;
    ghost var full := Registrations(ds, supported, hasFork, now);
    var registered: seq<Monitor> := [];
    var i := 0;
    while i < |ds|
      invariant 0 <= i <= |ds|
      invariant Registrations(ds[i..], supported, hasFork, now).aborted == full.aborted
      invariant registered + Registrations(ds[i..], supported, hasFork, now).monitors == full.monitors
    {
      RegistrationStep(ds, i, supported, hasFork, now);
      ghost var rest := Registrations(ds[i + 1..], supported, hasFork, now);
      var m := Accepted(ds[i], supported, now);
      if m.Some? {
        if m.value.Worker? && !hasFork {
          return Registration(registered, true);
        }
        assert (registered + [m.value]) + rest.monitors == registered + ([m.value] + rest.monitors);
        registered := registered + [m.value];
      }
      i := i + 1;
    }
    RegistrationStep(ds, i, supported, hasFork, now);
    assert ds[..] == ds[0..];
    return Registration(registered, false);
  }

  /** The registered monitors, kept between the check and the post-test step. */
  class SensorMonitor {
    var monitors: seq<Monitor>

    /** No monitor registered. */
    constructor()
      ensures monitors == []
    {
      monitors := [];
    }

    /**
     * system_monitor_task_check: `decls` is None when the profile has no
     * parser definition. Registers the monitors and answers whether any
     * was registered; without forking, the first worker stops the check
     * with false and keeps what was registered before it.
     */
    method Check(decls: Option<seq<Declaration>>, supported: seq<seq<string>>, hasFork: bool, now: real) returns (ok: bool)
      modifies this
      ensures decls.None? ==> !ok && monitors == old(monitors)
      ensures decls.Some? ==> var r := Registrations(decls.value, supported, hasFork, now);
        monitors == r.monitors && ok == (!r.aborted && |r.monitors| > 0)
    {
      if decls.None? {
        return false;
      }
      var r := Register(decls.value, supported, hasFork, now);
      monitors := r.monitors;
      ok := !r.aborted && |monitors| > 0;
    }

    /**
     * system_monitor_task_post_test: `channels[k]` is what monitor k wrote
     * to its channel file, `now` the clock and `minimal` the minimal test
     * time setting.
     */
    method PostTest(channels: seq<string>, now: real, minimal: real, hasKill: bool) returns (r: Value)
      requires |channels| == |monitors|
      ensures r == PostTestOutcome(monitors, channels, now, minimal, hasKill)
    {
      var i := 0;
      while i < |monitors|
        invariant 0 <= i <= |monitors|
        invariant PostTestOutcome(monitors[i..], channels[i..], now, minimal, hasKill) == PostTestOutcome(monitors, channels, now, minimal, hasKill)
      {
        var m := monitors[i];
        var value: Value;
        if m.Timer? {
          value := TimerReading(m.start, now, minimal);
        } else {
          if !hasKill {
            return False;
          }
          var samples := Samples(channels[i]);
          value := Reduced(m.reportAs, samples);
        }
        assert value == Reading(m, channels[i], now, minimal);
        if !IsNullLike(value) {
          return value;
        }
        assert monitors[i..][1..] == monitors[i + 1..] && channels[i..][1..] == channels[i + 1..];
        i := i + 1;
      }
      return False;
    }
  }
}
