# ocserv-exporter: the metric-state transition

ocserv-exporter polls an OpenConnect VPN server (ocserv) through `occtl`.
It asks for the server status (`show status`) and for the connected users
(`show users`). It then publishes what it got as Prometheus metrics. This
project models the exporter's refresh, `Exporter.update`, as a pure
transition on an immutable metric registry and proves facts about it in
Dafny.

The registry (module `Metrics`, following the metric declarations in
`cmd/ocserv-exporter/main.go`) holds:

- sixteen unlabelled status gauges (`ocserv_start_time_seconds` …
  `ocserv_rx_bytes`). Each one is absent or holds an integer, so it is
  modelled as a `map<StatusGauge, int>` in which a missing key is an
  absent gauge;
- three per-user gauge families (`ocserv_user_tx_bytes`,
  `ocserv_user_rx_bytes`, `ocserv_user_start_time_seconds`). Each is a map
  from the seven label values (username, remote_ip, mtu, ocserv_ipv4,
  ocserv_ipv6, device, user_agent) to an integer;
- two scrape-error counters (`occtl_status_scrape_error_total`,
  `occtl_users_scrape_error_total`), modelled as `nat`.

A gauge family's `Reset` removes every label combination. `Set` is a map
update and a counter's `Inc` adds one. The two occtl calls are inputs, each
an `Occtl.Result`: a decoded value or an error.

Modules:

- `Occtl` (occtl.dfy): the fetch result and the two decoded records.
- `Metrics` (metrics.dfy): the registry and the metric names.
- `Exporter` (exporter.dfy): `updateStatus`, `updateUsers` and `update`,
  plus lemmas about one update.
- `Refresh` (refresh.dfy): a history of ticks as a sequence of whole
  updates, plus lemmas about the error counters and stale values over
  time.

`update` runs both steps under the exporter's mutex. `metricsHandler` takes
the same mutex (exporter.go:50-56, 106-110). So a reader only ever sees the
registry between whole updates, and the model's unit of change is one
`Update`.

## Behaviour worth knowing

- One lock covers both steps of an update (exporter.go:51-55). A reader
  never sees a registry whose status step has run but whose users step
  has not.
- A failed status fetch resets only `ocserv_active_sessions`,
  `ocserv_handled_sessions` and `ocserv_ips_banned` (exporter.go:63-65).
  The other thirteen status gauges keep whatever they last held: the last
  successful fetch's values, or nothing if no fetch has succeeded yet
  (`UpdateStatus`, `StaleStatusAfterFailure`, `StatusFromLastSuccess`).
- Records that share a label tuple collapse into one series per family, and
  the last record in list order wins (exporter.go:99-103). So the number of
  per-user series equals the number of records only when no two records
  share a tuple (`SeriesCount`, `DuplicateLabelsCollapse`).
- An error counter at 0 in the model stands for a counter that exposes no
  series yet. The exporter's unlabelled counter vectors show nothing until
  their first `Inc` (exporter.go:62, 95), and after that they are at least 1.

## Model

| member | source | states |
|---|---|---|
| Metrics.AllStatusGaugesComplete | cmd/ocserv-exporter/exporter.go:68-83 | the sixteen `Set` calls name every status gauge, each exactly once |
| Metrics.StatusGaugeNamesDistinct | cmd/ocserv-exporter/main.go:21-84 | no two status gauges share a metric name |
| Metrics.UserFamilyNamesDistinct | cmd/ocserv-exporter/main.go:85-96 | the three per-user families have distinct metric names, none shared with a status gauge |
| Metrics.ScrapeCounterNamesDistinct | cmd/ocserv-exporter/main.go:13-20 | the two scrape-error counters have distinct metric names, shared with no gauge or family |
| Metrics.LabelNamesDistinct | cmd/ocserv-exporter/main.go:88 | the per-user families carry seven pairwise distinct label names |
| Exporter.SetStatusGauges | cmd/ocserv-exporter/exporter.go:68-83 | setting gauges one after another adds exactly those gauges, each shows its field of the status, and every other gauge keeps its value |
| Exporter.StatusOnSuccess | cmd/ocserv-exporter/exporter.go:68-83 | after a successful status fetch, all sixteen gauges are present and each equals its source field (RawUpSince, ActiveSessions, …, RawTX, RawRX) |
| Exporter.StatusOnError | cmd/ocserv-exporter/exporter.go:63-65 | a failed status fetch removes the active-sessions, handled-sessions and banned-IPs gauges, and every other gauge keeps its value or stays absent |
| Exporter.UpdateStatus | cmd/ocserv-exporter/exporter.go:58-84 | success: all gauges equal their fields and the error counter is unchanged. Failure: the counter rises by exactly one, three gauges become absent and the other thirteen are unchanged. Either way the user families and the users counter are untouched |
| Exporter.SetUsers | cmd/ocserv-exporter/exporter.go:99-103 | the loop adds exactly the records' label tuples to each family. Each tuple's value comes from the last record that carries it, and other series are unchanged |
| Exporter.UpdateUsers | cmd/ocserv-exporter/exporter.go:86-104 | failure: all three families are empty and the users counter rises by exactly one. Success: each family's keys are exactly the records' label tuples, each value comes from the last record with that tuple, and the counter is unchanged. Status gauges and the status counter are untouched |
| Exporter.Update | cmd/ocserv-exporter/exporter.go:50-56 | one atomic update: status gauges as the status step alone makes them, families as the users step alone makes them, and each counter rises by one exactly when its own fetch failed |
| Exporter.StepsCommute | cmd/ocserv-exporter/exporter.go:54-55 | running the users step before the status step gives the same registry, so the steps do not interfere |
| Exporter.StatusSuccessForgetsHistory | cmd/ocserv-exporter/exporter.go:68-83 | after a successful status fetch, the status gauges depend on that fetch alone, so earlier failures leave nothing behind |
| Exporter.StaleStatusAfterFailure | cmd/ocserv-exporter/exporter.go:59-66 | after a success and then a failure, thirteen gauges still show the earlier fetch's values and the three reset gauges are absent |
| Exporter.UpdateIdempotent | cmd/ocserv-exporter/exporter.go:50-104 | repeating an update with the same successful fetches leaves the registry (gauges and counters) as the first update left it |
| Exporter.UsersFailureLikeEmptyList | cmd/ocserv-exporter/exporter.go:89-97 | a failed users fetch and an empty user list give the same registry except that the users counter is one higher |
| Exporter.DuplicateLabelsCollapse | cmd/ocserv-exporter/exporter.go:99-103 | two records with the same label tuple give one series per family, valued from the later record |
| Exporter.SeriesCount | cmd/ocserv-exporter/exporter.go:99-103 | after a successful users fetch, each family has at most one series per record, and exactly one per record if and only if no two records share a label tuple |
| Refresh.Run | cmd/ocserv-exporter/exporter.go:35-40 | a history of whole updates (the eager first one, then one per tick), applied oldest first; neither counter goes down and each rises by at most one per update |
| Refresh.RunCountsFailures | cmd/ocserv-exporter/exporter.go:58-97 | over any history of ticks, each error counter grows by exactly the number of ticks whose fetch of its kind failed |
| Refresh.CountersFromStartUp | cmd/ocserv-exporter/exporter.go:33-41 | from the start-up registry, each counter equals the number of updates whose fetch of its kind failed |
| Refresh.CountersMonotone | cmd/ocserv-exporter/exporter.go:58-97 | between any two reads, neither counter decreases and each rises by at most the number of ticks in between |
| Refresh.UsersFromLastTickOnly | cmd/ocserv-exporter/exporter.go:86-104 | after any non-empty history, the user families depend only on the last tick's users fetch, so no series from an earlier tick survives |
| Refresh.StatusFromLastSuccess | cmd/ocserv-exporter/exporter.go:58-84 | if the last successful status fetch is the last tick, the gauges are exactly that fetch's values. If failures came after it, the gauges are that fetch's values minus the three reset gauges |

## Left out

- The occtl client and its parser (`ShowStatus`, `ShowUsers`) belong to a library that is not part of this model. Their results are inputs, either a value or an error. Transport and decode errors are not told apart, because the exporter treats them the same.
- The scheduling in the Go method `Exporter.Run` (exporter.go:33-48) is left out: the eager first update, the `time.Tick` goroutine and the HTTP serving (`ServeMux`, `ListenAndServe`, `promhttp`). These are timing and network I/O. The Dafny function `Refresh.Run` keeps only what they produce: the list of fetch results that successive updates obtained.
- The registry is the exporter's own metrics only (main.go:13-96). `promhttp.Handler()` (exporter.go:29) serves client_golang's default registry, which `main` registers into (main.go:107-129). That registry also serves the Go runtime metrics (`go_*`), the process metrics (`process_*`) and the handler's own `promhttp_metric_handler_requests_total` and `promhttp_metric_handler_requests_in_flight`. The requests counter changes on every scrape. None of these are modelled.
- The mutex itself and threads are not modelled. `update` is one atomic transition because both it and `metricsHandler` hold the same lock.
- Prometheus exposition encoding and `GaugeVec` internals are left out. A family is a map, `Reset` empties it and `Set` updates it. Label values are Dafny strings, so the panic that `WithLabelValues` raises on a label value that is not valid UTF-8 (exporter.go:100-102) cannot occur in the model.
- The `float64(...)` conversions are left out. Values are unbounded integers, so precision loss for very large values is not modelled.
- Logging is left out, and so is the `users` field of the exporter, which is cleared and never read.
- Flag parsing, metric registration and client construction in `main` are wiring and are left out. Only the names are kept: the sixteen gauge, three family and two counter metric names, and the seven label names in label order (`StatusGauge.Name`, `UserFamily.Name`, `ScrapeCounter.Name`, `LabelNames`).
