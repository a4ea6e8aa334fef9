/** The body of the scanner loop in `sampleUps`: one line of `upsc` output
    becomes (at most) one update of the device's metric map. */
module Sampler {
  import opened Wrappers
  import opened Strings
  import opened Keys
  import opened Status
  import opened Filter
  import opened Registry

  /** The one field whose value is a status token rather than a number. */
  const StatusField: string := "ups.status"

  /** The outcome of one line: the updated map, or the run-time panic Go
      raises when `parts[1]` is read from a line that has no separator. */
  datatype StepResult = Continue(metrics: Metrics) | IndexOutOfRange

  /** `parts[0]`: the field name of a line. */
  function Key(line: string): string {
    Split(line, Separator)[0]
  }

  /** The line has a `parts[1]`. */
  predicate HasValue(line: string) {
    |Split(line, Separator)| >= 2
  }

  /** `parts[1]`: the text between the first and second separators. */
  function Value(line: string): string
    requires HasValue(line)
  {
    Split(line, Separator)[1]
  }

  /** One pass of the scanner loop. `parseFloat` stands for
      `strconv.ParseFloat(_, 64)`: None when it reports an error. */
  function ProcessLine(cfg: Config, parseFloat: string -> Option<real>, ups: string, m: Metrics, line: string): (r: StepResult)
    requires Valid(m)
    // the run-time panic happens exactly for a kept line without a separator
    ensures r.IndexOutOfRange? <==> !Excluded(cfg, Key(line)) && !Contains(line, Separator)
    ensures r.Continue? ==> Valid(r.metrics)
    // the map only grows and no stored handle is ever replaced
    ensures r.Continue? ==> m.gauges.Keys <= r.metrics.gauges.Keys
    ensures r.Continue? ==> forall n :: n in m.gauges ==> r.metrics.gauges[n] == m.gauges[n]
    // a gauge the line creates carries the device's label, so a map of one device's gauges stays one
    ensures r.Continue? ==> forall n :: n in r.metrics.gauges && n !in m.gauges ==> r.metrics.gauges[n].ups == ups
    ensures r.Continue? && Labelled(m, ups) ==> Labelled(r.metrics, ups)
    // an excluded field changes nothing
    ensures Excluded(cfg, Key(line)) ==> r == Continue(m)
    // a numeric field: dropped when the parse fails, otherwise its gauge is created or fetched and set
    ensures !Excluded(cfg, Key(line)) && Key(line) != StatusField && HasValue(line) ==>
              match parseFloat(Value(line))
              case None => r == Continue(m)
              case Some(v) =>
                && r.Continue?
                && r.metrics.gauges.Keys == m.gauges.Keys + {ToPrometheusKey(Key(line))}
                && Read(r.metrics, ToPrometheusKey(Key(line))) == Some(v)
                && forall n :: n != ToPrometheusKey(Key(line)) ==> Read(r.metrics, n) == Read(m, n)
    // the status field: its gauge is always created or fetched; a known token sets its code, an unknown one sets nothing
    ensures !Excluded(cfg, Key(line)) && Key(line) == StatusField && HasValue(line) ==>
              && r.Continue?
              && r.metrics.gauges.Keys == m.gauges.Keys + {ToPrometheusKey(StatusField)}
              && (forall n :: n != ToPrometheusKey(StatusField) ==> Read(r.metrics, n) == Read(m, n))
              && match StatusCode(Value(line))
                 case Some(code) => Read(r.metrics, ToPrometheusKey(StatusField)) == Some(code as real)
                 case None =>
                   Read(r.metrics, ToPrometheusKey(StatusField))
                   == (if ToPrometheusKey(StatusField) in m.gauges then Read(m, ToPrometheusKey(StatusField)) else Some(0.0))
  {
    SplitSinglePart(line, Separator);
    var parts := Split(line, Separator);
    var key := parts[0];
    if Excluded(cfg, key) then
      Continue(m)
    else if key == StatusField then
      var (g, m1) := CreateAndRegisterGauge(ups, key, m);
      if |parts| < 2 then
        IndexOutOfRange
      else
        match StatusCode(parts[1])
        case Some(code) => Continue(SetGauge(m1, g, code as real))
        case None => Continue(m1)
    else if |parts| < 2 then
      IndexOutOfRange
    else
      match parseFloat(parts[1])
      case None => Continue(m)
      case Some(v) =>
        var (g, m1) := CreateAndRegisterGauge(ups, key, m);
        Continue(SetGauge(m1, g, v))
  }

  /** The lines of one `upsc` run applied in order; the first panic ends
      the run. */
  function SampleOutput(cfg: Config, parseFloat: string -> Option<real>, ups: string, m: Metrics, lines: seq<string>): StepResult
    requires Valid(m)
    decreases |lines|
  {
    if |lines| == 0 then
      Continue(m)
    else
      match ProcessLine(cfg, parseFloat, ups, m, lines[0])
      case IndexOutOfRange => IndexOutOfRange
      case Continue(m1) => SampleOutput(cfg, parseFloat, ups, m1, lines[1..])
  }

  /** Over a whole run, the map stays well formed and labelled with the
      device, only grows and never replaces a stored handle. */
  lemma {:induction false} SampleOutputGrows(cfg: Config, parseFloat: string -> Option<real>, ups: string, m: Metrics, lines: seq<string>)
    requires Valid(m)
    ensures var r := SampleOutput(cfg, parseFloat, ups, m, lines);
            r.Continue? ==>
              && Valid(r.metrics)
              && (Labelled(m, ups) ==> Labelled(r.metrics, ups))
              && m.gauges.Keys <= r.metrics.gauges.Keys
              && forall n :: n in m.gauges ==> r.metrics.gauges[n] == m.gauges[n]
    decreases |lines|
  {
    if |lines| > 0 {
      match ProcessLine(cfg, parseFloat, ups, m, lines[0])
      case IndexOutOfRange =>
      case Continue(m1) =>
        SampleOutputGrows(cfg, parseFloat, ups, m1, lines[1..]);
    }
  }

  /** A metric name is only ever created by a line whose field is kept and
      normalises to it: if every line's field is excluded or normalises to
      some other name, the name is still absent after the run. */
  lemma {:induction false} SampleOutputCreatesOnlyReported(cfg: Config, parseFloat: string -> Option<real>, ups: string, m: Metrics, lines: seq<string>, name: string)
    requires Valid(m) && name !in m.gauges
    requires forall i :: 0 <= i < |lines| ==> Excluded(cfg, Key(lines[i])) || ToPrometheusKey(Key(lines[i])) != name
    ensures var r := SampleOutput(cfg, parseFloat, ups, m, lines);
            r.Continue? ==> name !in r.metrics.gauges
    decreases |lines|
  {
    if |lines| > 0 {
      match ProcessLine(cfg, parseFloat, ups, m, lines[0])
      case IndexOutOfRange =>
      case Continue(m1) =>
        assert Excluded(cfg, Key(lines[0])) || ToPrometheusKey(Key(lines[0])) != name;
        assert name !in m1.gauges;
        assert forall i :: 0 <= i < |lines[1..]| ==> lines[1..][i] == lines[i + 1];
        SampleOutputCreatesOnlyReported(cfg, parseFloat, ups, m1, lines[1..], name);
    }
  }

  /** The scanner loop itself: read the lines one by one and apply each,
      stopping at the first panic. */
  method ScanOutput(cfg: Config, parseFloat: string -> Option<real>, ups: string, m: Metrics, lines: seq<string>) returns (r: StepResult)
    requires Valid(m)
    ensures r == SampleOutput(cfg, parseFloat, ups, m, lines)
    ensures r.Continue? ==> Valid(r.metrics) && m.gauges.Keys <= r.metrics.gauges.Keys
    ensures r.Continue? && Labelled(m, ups) ==> Labelled(r.metrics, ups)
  {
    var cur := m;
    var i := 0;
    while i < |lines|
      invariant 0 <= i <= |lines|
      invariant Valid(cur)
      invariant m.gauges.Keys <= cur.gauges.Keys
      invariant Labelled(m, ups) ==> Labelled(cur, ups)
      invariant SampleOutput(cfg, parseFloat, ups, m, lines) == SampleOutput(cfg, parseFloat, ups, cur, lines[i..])
    {
      assert lines[i..][1..] == lines[i + 1..];
      var step := ProcessLine(cfg, parseFloat, ups, cur, lines[i]);
      match step
      case IndexOutOfRange =>
        return IndexOutOfRange;
      case Continue(next) =>
        cur := next;
      i := i + 1;
    }
    return Continue(cur);
  }

  /** A field contains no separator when it contains no colon. */
  lemma ColonFreeHasNoSeparator(s: string)
    requires ':' !in s
    ensures !Contains(s, Separator)
  {
    forall i | 0 <= i <= |s|
      ensures !OccursAt(s, Separator, i)
    {
      if i + |Separator| <= |s| {
        assert s[i..i + |Separator|][0] == s[i] != ':';
      }
    }
  }

  /** A value holding a further separator is cut at it: everything after
      the second separator of a line is ignored. */
  lemma ExtraSeparatorsIgnored(cfg: Config, parseFloat: string -> Option<real>, ups: string, m: Metrics, a: string, b: string, c: string)
    requires Valid(m)
    requires !Contains(a, Separator) && !Contains(b, Separator)
    ensures ProcessLine(cfg, parseFloat, ups, m, a + Separator + b + Separator + c)
         == ProcessLine(cfg, parseFloat, ups, m, a + Separator + b)
  {
    SeparatorUnbordered();
    SplitSecondPart(a, Separator, b, c);
    SplitTwoParts(a, Separator, b);
  }

  /** `ups.status: OL` splits into the status field and the token. */
  lemma StatusOnlineSplit()
    ensures Split("ups.status: OL", Separator) == ["ups.status", "OL"]
  {
    SeparatorUnbordered();
    ColonFreeHasNoSeparator("ups.status");
    ColonFreeHasNoSeparator("OL");
    assert "ups.status: OL" == "ups.status" + Separator + "OL";
    SplitTwoParts("ups.status", Separator, "OL");
  }

  /** The field and value of `ups.status: OL`. */
  lemma StatusOnlineLine()
    ensures Key("ups.status: OL") == StatusField
    ensures HasValue("ups.status: OL") && Value("ups.status: OL") == "OL"
  {
    StatusOnlineSplit();
  }

  /** `ups.status: OL` sets `upsc_ups_status` to 3; the series carries the
      device's label whenever the line creates it (or the map holds only
      this device's gauges). */
  lemma StatusOnlineScenario(cfg: Config, parseFloat: string -> Option<real>, ups: string, m: Metrics)
    requires Valid(m) && !Excluded(cfg, "ups.status")
    ensures var r := ProcessLine(cfg, parseFloat, ups, m, "ups.status: OL");
            && r.Continue?
            && Read(r.metrics, "upsc_ups_status") == Some(3.0)
            && "upsc_ups_status" in r.metrics.gauges
            && ("upsc_ups_status" !in m.gauges || Labelled(m, ups) ==> r.metrics.gauges["upsc_ups_status"].ups == ups)
  {
    StatusOnlineLine();
    assert StatusCode("OL") == Some(3);
    StatusKeyName();
  }

  /** `battery.charge: 95.5` sets `upsc_battery_charge` to the parsed value;
      the series carries the device's label whenever the line creates it (or
      the map holds only this device's gauges). */
  lemma BatteryChargeScenario(cfg: Config, parseFloat: string -> Option<real>, ups: string, m: Metrics)
    requires Valid(m) && !Excluded(cfg, "battery.charge") && parseFloat("95.5") == Some(95.5)
    ensures var r := ProcessLine(cfg, parseFloat, ups, m, "battery.charge: 95.5");
            && r.Continue?
            && Read(r.metrics, ToPrometheusKey("battery.charge")) == Some(95.5)
            && ToPrometheusKey("battery.charge") in r.metrics.gauges
            && (ToPrometheusKey("battery.charge") !in m.gauges || Labelled(m, ups)
                ==> r.metrics.gauges[ToPrometheusKey("battery.charge")].ups == ups)
  {
    SeparatorUnbordered();
    ColonFreeHasNoSeparator("battery.charge");
    ColonFreeHasNoSeparator("95.5");
    var line := "battery.charge: 95.5";
    assert line == "battery.charge" + Separator + "95.5";
    SplitTwoParts("battery.charge", Separator, "95.5");
    assert Key(line) == "battery.charge" != StatusField;
    assert HasValue(line) && Value(line) == "95.5";
  }

  /** With the inner map the code actually reads (the never-allocated outer
      map yields nil for every device), the line `battery.charge: 95.5`
      reaches gauge creation for `battery.charge` and panics there. */
  lemma BatteryChargeAsWrittenPanics(cfg: Config, parseFloat: string -> Option<real>, ups: string, values: seq<real>)
    requires !Excluded(cfg, "battery.charge") && parseFloat("95.5").Some?
    ensures var line := "battery.charge: 95.5";
            && Key(line) == "battery.charge" != StatusField
            && HasValue(line) && parseFloat(Value(line)).Some?
            && CreateAndRegisterGaugeAsWritten(ups, Key(line), InnerMapOf(map[], ups), values).None?
  {
    var line := "battery.charge: 95.5";
    SeparatorUnbordered();
    ColonFreeHasNoSeparator("battery.charge");
    ColonFreeHasNoSeparator("95.5");
    assert line == "battery.charge" + Separator + "95.5";
    SplitTwoParts("battery.charge", Separator, "95.5");
    NeverAllocatedOuterMapPanics(ups, "battery.charge", values);
  }
}
