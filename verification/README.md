# upsc Prometheus exporter — a Dafny model of the per-line pipeline

The exporter polls UPS devices with `upsc <device>` and publishes every
numeric field of its output as a Prometheus gauge named
`upsc_<field with dots as underscores>`. This project models the pure,
sequential part of `main.go` that turns one line of `upsc` output into an
update of the device's map of gauges:

- `Strings` — Go's `strings.Index`, `strings.Split` and `strings.Join` over a
  non-empty separator, and the fact that the separator `": "` cannot overlap
  itself.
- `Keys` — `toPrometheusKey`: the `upsc_` prefix and dot replacement.
- `Status` — the twelve-token ordinal encoding of `ups.status`.
- `Filter` — the resolved exclusion configuration and `ignoredKey`.
- `Registry` — one device's metric map and `CreateAndRegisterGauge`
  (create-or-fetch). Gauges are handles into a store of values, so a gauge
  set through a handle is seen by every map entry holding that handle.
- `Sampler` — the body of the scanner loop (split, exclusion, status switch,
  float branch), its fold over the lines of one `upsc` run, and the loop
  itself.

`strconv.ParseFloat` is a parameter `parseFloat: string -> Option<real>`, and
a compiled regular expression is a `Regex` value carrying its
`matchString: string -> bool`. Gauge values are `real`. `Registry.Valid` is
the representation invariant of the model's map: every handle is allocated,
is filed under its own name, and no two names share one. `Registry.Empty`
satisfies it and every operation preserves it. `ProcessLine` assumes it.

Behaviour of the code worth knowing:

- The line is cut with `strings.Split`, at every `": "`. A value that itself
  holds `": "` is truncated at it (`Sampler.ExtraSeparatorsIgnored`).
- A kept line without a separator has no `parts[1]`. Reading it panics, which
  the model reports as `StepResult.IndexOutOfRange`.
- For `ups.status` the `upsc_ups_status` gauge is created (value 0) or fetched
  before the `switch`. An unknown token then sets nothing.
- Metric maps are per device (`prometheusMetrics[upsName]`): no metric map is
  shared across devices. Every gauge is registered with the one default
  Prometheus registry, which is not modelled.

## Model

| member | source | states |
|---|---|---|
| Keys.ToPrometheusKey | main.go:162-164 | the metric name starts with `upsc_`, is 5 longer than the field name, contains no `.`, and character i+5 is the field's character i with `.` mapped to `_` |
| Keys.NormalisationMergesDotsAndUnderscores | main.go:162-164 | a field name and its underscore spelling get the same metric name, although they differ whenever the name holds a dot |
| Keys.StatusKeyName | main.go:98 | the status field `ups.status` is filed as `upsc_ups_status` |
| Status.StatusCode | main.go:100-125 | a token gets a code exactly when it is one of the twelve table tokens, and the code is that token's position in the table |
| Status.StatusTokensDistinct | main.go:100-125 | the twelve status tokens are pairwise different |
| Status.StatusCodeIsPosition | main.go:100-125 | `CAL, TRIM, BOOST, OL, OB, OVER, LB, RB, BYPASS, OFF, CHRG, DISCHRG` are encoded as 0..11 in that order |
| Status.StatusCodeInjective | main.go:100-125 | two tokens with the same code are the same token |
| Filter.IgnoredKey | main.go:146-160 | the key is ignored exactly when it equals an exclusion string or an exclusion pattern matches it; each alone suffices; with both lists empty nothing is ignored |
| Strings.IndexOf | main.go:87 | the result is the position of the first occurrence of the separator, and None exactly when the separator does not occur |
| Strings.Split | main.go:87 | the split has at least one part and no part contains the separator |
| Strings.JoinSplit | main.go:87 | joining the parts with the separator gives back the line |
| Strings.SplitSinglePart | main.go:87 | a line has exactly one part, itself, exactly when it holds no separator |
| Strings.IndexAfterSeparatorFree | main.go:87 | for a separator that cannot overlap itself, the first occurrence in `a + sep + rest` is at the end of a separator-free `a` |
| Strings.SplitAfterSeparatorFree | main.go:87 | splitting `a + sep + rest` yields `a` followed by the split of `rest` |
| Strings.SplitSecondPart | main.go:87 | in `a + sep + b + sep + c`, part 0 is `a` and part 1 is only `b` |
| Strings.SplitTwoParts | main.go:87 | a line with exactly one separator splits into the text before and after it |
| Strings.SeparatorUnbordered | main.go:87 | the separator `": "` cannot overlap itself |
| Registry.SetGauge | main.go:130 | setting a gauge changes the value read under every name holding that handle and no other, and keeps the map |
| Registry.CreateAndRegisterGauge | main.go:166-184 | on a present normalised key it returns the stored handle and the unchanged map; otherwise it adds exactly that key, with a new gauge of value 0 labelled with the device, and leaves every other entry and value as it was |
| Registry.CreateAndRegisterTwice | main.go:166-183 | a second create-or-fetch of the same key returns the same handle and the same map |
| Registry.AsWrittenOnAllocatedMap | main.go:168-183 | the step-by-step create-or-fetch on Go map operations (lookup, create on a miss, store) equals `CreateAndRegisterGauge` on an allocated map |
| Registry.AsWrittenOnNilMapPanics | main.go:170-181 | on a nil map the lookup misses for every key, so the code goes on to the store, which panics |
| Registry.NeverAllocatedOuterMapPanics | main.go:25 | the never-assigned outer map yields a nil inner map for every device, so its first gauge creation panics |
| Registry.SameNameSameGauge | main.go:168-171 | two field names with the same normalised name share one gauge |
| Sampler.ProcessLine | main.go:87-131 | an excluded field changes nothing; a kept line without separator panics, and only such a line does; an unparseable number changes nothing; a parsed number creates or fetches its gauge and sets exactly it; the status field always creates or fetches its gauge and sets its code only for a known token; a gauge the line creates carries the device's `ups` label; the map only grows and handles are never replaced |
| Sampler.SampleOutputGrows | main.go:86-131 | over a whole run the map stays well formed and labelled with the device, only grows and never replaces a handle |
| Sampler.SampleOutputCreatesOnlyReported | main.go:89-131 | a metric name is never created by a run in which every line's field is excluded or normalises to another name |
| Sampler.ScanOutput | main.go:86-140 | the scanner loop applies the lines in order and stops at the first panic, which equals the fold of the per-line step, and keeps the map well formed, labelled with the device and growing |
| Sampler.ColonFreeHasNoSeparator | main.go:87 | a string with no colon holds no separator |
| Sampler.ExtraSeparatorsIgnored | main.go:87-127 | a line with a second separator is processed as if it ended there |
| Sampler.StatusOnlineScenario | main.go:97-108 | `ups.status: OL` sets `upsc_ups_status` to 3, and the series carries the device's `ups` label when the line creates it or the map holds only that device's gauges |
| Sampler.BatteryChargeScenario | main.go:126-131 | `battery.charge: 95.5` sets `upsc_battery_charge` to the parsed 95.5, and the series carries the device's `ups` label when the line creates it or the map holds only that device's gauges |
| Sampler.BatteryChargeAsWrittenPanics | main.go:126-129 | with the inner map the code actually reads, the kept line `battery.charge: 95.5` with a parseable value reaches gauge creation, which panics |

## Left out

- Flag parsing (main.go:31-46), including the `-e` short flag declared twice: the configuration is the input record `Filter.Config`.
- The HTTP server and metric exposition (main.go:53-64): network I/O.
- Spawning `upsc`, the stdout pipe, the scanner, `scanner.Err`, `cmd.Wait`, `time.Sleep` and the early returns that abandon a device (main.go:73-86, 134-139): process and I/O plumbing. The lines of one run are the input sequence of `Sampler.ScanOutput`. `Wait` and `Sleep` sit inside the per-line loop in the source; that is not modelled.
- The goroutine per device and the range-variable pointer passed to it (main.go:60-61, 68-69): concurrency.
- `prometheus.NewGauge` and `prometheus.MustRegister` (main.go:175-180): foreign calls; a gauge is a handle with a settable value that starts at 0. A registration panic is not modelled.
- Regular-expression compilation and matching (main.go:49-51, 154): a pattern is an uninterpreted `matchString`.
- `strconv.ParseFloat` and float64 values (main.go:127): the parse is an uninterpreted partial function to `real`, so NaN, infinities and rounding are not represented.
- Logging (`log.Info`, `log.Debug`, `log.Error`).
- `Strings.Split` models only a non-empty separator; the exporter never splits on the empty string. Characters stand for bytes. This is exact here because `": "` and `.` are ASCII.
- Sampler.ProcessLine: requires `Registry.Valid(m)`, the model's own invariant of the map, which `Registry.Empty` satisfies and every step preserves. When a status line panics, the gauge created just before the panic is not returned, because the panic ends the process.
- The nil-map panic at main.go:181 is modelled only in `Registry.CreateAndRegisterGaugeAsWritten`, which works on Go map operations (`GoLookup`, `GoStore`). The rest of the model uses the allocated-map behaviour.
- Labels: a device's map is modelled on its own. `Registry.Labelled` says all its gauges carry that device's label. A gauge's label is stated when a line creates it, or when the map already satisfies `Labelled`.

## Findings

| source | as written | input that shows it | evidently intended | confidence | as-written member | corrected member |
|---|---|---|---|---|---|---|
| main.go:25 | `prometheusMetrics` is declared but never allocated or written, so `prometheusMetrics[*upsName]` is a nil map and `m[key] = gauge` at main.go:181 panics | any device's first kept line that reaches gauge creation, e.g. `battery.charge: 95.5` | a per-device map that holds each created gauge, so later lines fetch it | high (not executed) | Registry.CreateAndRegisterGaugeAsWritten, Registry.AsWrittenOnNilMapPanics, Registry.NeverAllocatedOuterMapPanics, Sampler.BatteryChargeAsWrittenPanics | Registry.CreateAndRegisterGauge |
