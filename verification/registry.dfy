/** One device's map from metric name to gauge, and the create-or-fetch
    operation over it. A gauge is an opaque handle to a settable value:
    handles are identities into a store of current values, so that setting
    a gauge through a handle is seen by every entry that holds that handle,
    as with the pointers the exporter passes around. */
module Registry {
  import opened Wrappers
  import opened Keys

  /** A gauge handle: its identity, the metric name it was created with and
      its constant `ups` label. */
  datatype Gauge = Gauge(id: nat, name: string, ups: string)

  /** One device's metric map, with the current value of every gauge ever
      created (`values[g.id]` is the value of gauge `g`). */
  datatype Metrics = Metrics(gauges: map<string, Gauge>, values: seq<real>)

  /** A device that has reported nothing yet. */
  const Empty: Metrics := Metrics(map[], [])

  /** Every stored handle refers to a created gauge, is filed under its own
      name, and no two names share a handle. */
  predicate Valid(m: Metrics) {
    && (forall k :: k in m.gauges ==> m.gauges[k].id < |m.values| && m.gauges[k].name == k)
    && (forall k1, k2 :: k1 in m.gauges && k2 in m.gauges && m.gauges[k1].id == m.gauges[k2].id ==> k1 == k2)
  }

  /** Every gauge in the map carries the constant label `ups`: the map is
      the one device's map. */
  predicate Labelled(m: Metrics, ups: string) {
    forall k :: k in m.gauges ==> m.gauges[k].ups == ups
  }

  /** The value of the gauge filed under `name`, if there is one. */
  function Read(m: Metrics, name: string): Option<real> {
    if name in m.gauges && m.gauges[name].id < |m.values| then Some(m.values[m.gauges[name].id]) else None
  }

  /** `gauge.Set(v)`: the gauge behind handle `g` now holds `v`. */
  function SetGauge(m: Metrics, g: Gauge, v: real): (r: Metrics)
    requires g.id < |m.values|
    ensures r.gauges == m.gauges
    ensures forall n :: n in m.gauges && m.gauges[n].id == g.id ==> Read(r, n) == Some(v)
    ensures forall n :: !(n in m.gauges && m.gauges[n].id == g.id) ==> Read(r, n) == Read(m, n)
    ensures Valid(m) ==> Valid(r)
  {
    Metrics(m.gauges, m.values[g.id := v])
  }

  /** `CreateAndRegisterGauge`: look up the normalised key; return the
      stored handle if there is one, otherwise create a gauge (value 0,
      label `ups`), file it under the normalised key and return it. */
  function CreateAndRegisterGauge(ups: string, key: string, m: Metrics): (res: (Gauge, Metrics))
    ensures res.1.gauges.Keys == m.gauges.Keys + {ToPrometheusKey(key)}
    ensures ToPrometheusKey(key) in res.1.gauges && res.1.gauges[ToPrometheusKey(key)] == res.0
    ensures forall n :: n in m.gauges ==> res.1.gauges[n] == m.gauges[n]
    ensures ToPrometheusKey(key) in m.gauges ==> res == (m.gauges[ToPrometheusKey(key)], m)
    ensures ToPrometheusKey(key) !in m.gauges ==>
              && res.0.name == ToPrometheusKey(key) && res.0.ups == ups
              && Read(res.1, ToPrometheusKey(key)) == Some(0.0)
    ensures Valid(m) ==> Valid(res.1) && res.0.id < |res.1.values|
    ensures Labelled(m, ups) ==> Labelled(res.1, ups)
    ensures Valid(m) ==> forall n :: n != ToPrometheusKey(key) ==> Read(res.1, n) == Read(m, n)
  {
    var name := ToPrometheusKey(key);
    if name in m.gauges then
      (m.gauges[name], m)
    else
      var g := Gauge(|m.values|, name, ups);
      var m' := Metrics(m.gauges[name := g], m.values + [0.0]);
      assert Valid(m) ==> forall n :: n != name ==> Read(m', n) == Read(m, n) by {
        if Valid(m) {
          forall n | n != name && n in m.gauges
            ensures Read(m', n) == Read(m, n)
          {
            assert m'.values[m.gauges[n].id] == m.values[m.gauges[n].id];
          }
        }
      }
      (g, m')
  }

  /** Create-or-fetch is idempotent: a second call with the same key (from
      any device) returns the same handle and leaves the map as the first
      call left it. */
  lemma CreateAndRegisterTwice(ups: string, ups': string, key: string, m: Metrics)
    ensures var (g1, m1) := CreateAndRegisterGauge(ups, key, m);
            CreateAndRegisterGauge(ups', key, m1) == (g1, m1)
  {
  }

  /** Keys that normalise to the same metric name share one gauge. */
  lemma SameNameSameGauge(ups: string, key: string, key': string, m: Metrics)
    requires ToPrometheusKey(key) == ToPrometheusKey(key')
    ensures var (g1, m1) := CreateAndRegisterGauge(ups, key, m);
            CreateAndRegisterGauge(ups, key', m1) == (g1, m1)
  {
  }

  /** A Go map as the exporter holds it: nil, or allocated with entries. */
  datatype GoMap = NilMap | MadeMap(entries: map<string, Gauge>)

  /** `v, ok := m[k]`: a lookup in a nil map misses like one in an empty map. */
  function GoLookup(m: GoMap, k: string): Option<Gauge> {
    match m
    case NilMap => None
    case MadeMap(e) => if k in e then Some(e[k]) else None
  }

  /** `m[k] = v`: None is the run-time panic of an assignment to a nil map. */
  function GoStore(m: GoMap, k: string, v: Gauge): Option<GoMap> {
    match m
    case NilMap => None
    case MadeMap(e) => Some(MadeMap(e[k := v]))
  }

  /** `prometheusMetrics[upsName]`: the device's inner map read from the
      outer map. Go reads a missing entry (and any entry of a nil outer
      map) as the zero value, a nil map. */
  function InnerMapOf(outer: map<string, map<string, Gauge>>, ups: string): GoMap {
    if ups in outer then MadeMap(outer[ups]) else NilMap
  }

  /** `CreateAndRegisterGauge` as written, step by step on Go's map
      operations: normalise the key, look it up, and on a miss create a
      gauge (value 0, label `ups`) and store it, passing on the store's
      panic as None. `values` holds the current value of every gauge. */
  function CreateAndRegisterGaugeAsWritten(ups: string, key: string, m: GoMap, values: seq<real>): Option<(Gauge, GoMap, seq<real>)> {
    var name := ToPrometheusKey(key);
    match GoLookup(m, name)
    case Some(g) => Some((g, m, values))
    case None =>
      var g := Gauge(|values|, name, ups);
      match GoStore(m, name, g)
      case None => None
      case Some(m') => Some((g, m', values + [0.0]))
  }

  /** On an allocated map the code as written is the create-or-fetch
      `CreateAndRegisterGauge`. */
  lemma AsWrittenOnAllocatedMap(ups: string, key: string, m: Metrics)
    ensures var (g, m') := CreateAndRegisterGauge(ups, key, m);
            CreateAndRegisterGaugeAsWritten(ups, key, MadeMap(m.gauges), m.values)
            == Some((g, MadeMap(m'.gauges), m'.values))
  {
  }

  /** On a nil map the lookup always misses, so every call goes on to the
      store, which panics: no key is ever filed. */
  lemma AsWrittenOnNilMapPanics(ups: string, key: string, values: seq<real>)
    ensures GoLookup(NilMap, ToPrometheusKey(key)).None?
    ensures CreateAndRegisterGaugeAsWritten(ups, key, NilMap, values).None?
  {
  }

  /** The outer map is declared and never assigned or written, so it stays
      empty; every device therefore reads a nil inner map, and the first
      gauge it tries to create panics instead of being filed. */
  lemma NeverAllocatedOuterMapPanics(ups: string, key: string, values: seq<real>)
    ensures InnerMapOf(map[], ups) == NilMap
    ensures CreateAndRegisterGaugeAsWritten(ups, key, InnerMapOf(map[], ups), values).None?
  {
    AsWrittenOnNilMapPanics(ups, key, values);
  }
}
