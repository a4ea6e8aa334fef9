/** Turning an `upsc` field name such as `battery.charge` into a Prometheus
    metric name such as `upsc_battery_charge`. */
module Keys {

  /** Prefix of every metric the exporter creates. */
  const Prefix: string := "upsc_"

  /** One character of `strings.ReplaceAll(s, ".", "_")`. */
  function Undot(c: char): char {
    if c == '.' then '_' else c
  }

  /** `strings.ReplaceAll(s, ".", "_")`: every dot becomes an underscore,
      every other character stays where it is. */
  function ReplaceDots(s: string): string {
    seq(|s|, i requires 0 <= i < |s| => Undot(s[i]))
  }

  /** The metric name of a field: the prefix followed by the field name with
      its dots replaced. */
  function ToPrometheusKey(s: string): (r: string)
    ensures |r| == |s| + |Prefix|
    ensures r[..|Prefix|] == Prefix
    ensures '.' !in r
    ensures forall i :: 0 <= i < |s| ==> r[i + |Prefix|] == (if s[i] == '.' then '_' else s[i])
  {
    Prefix + ReplaceDots(s)
  }

  /** Normalisation is not injective: a field name and the same name with
      its dots already written as underscores share one metric name. */
  lemma NormalisationMergesDotsAndUnderscores(s: string)
    ensures ToPrometheusKey(ReplaceDots(s)) == ToPrometheusKey(s)
    ensures '.' in s ==> ReplaceDots(s) != s
  {
    var r := ReplaceDots(s);
    assert ReplaceDots(r) == r by {
      forall i | 0 <= i < |r|
        ensures ReplaceDots(r)[i] == r[i]
      {
        assert r[i] == Undot(s[i]);
      }
    }
    if '.' in s {
      var i :| 0 <= i < |s| && s[i] == '.';
      assert r[i] == '_';
    }
  }

  /** The status field maps to the metric `upsc_ups_status`. */
  lemma StatusKeyName()
    ensures ToPrometheusKey("ups.status") == "upsc_ups_status"
  {
    assert ReplaceDots("ups.status") == "ups_status";
  }
}
