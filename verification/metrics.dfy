/**
  The exporter's metric registry: sixteen unlabelled status gauges, three
  per-user gauge families labelled by the same seven-label tuple, and two
  scrape-error counters. A gauge family is a map from label values to the
  value last set for them; a label combination that is not in the map is
  not exposed at all. `Reset` removes every combination, `Set` is a map
  update, and a counter's `Inc` adds one.
 */
module Metrics {

  /** The sixteen unlabelled status gauges, in declaration order. */
  datatype StatusGauge =
    | StartTime
    | ActiveSessions
    | HandledSessions
    | IpsBanned
    | TotalAuthenticationFailures
    | SessionsHandled
    | TimedOutSessions
    | TimedOutIdleSessions
    | ClosedErrorSessions
    | AuthenticationFailures
    | AverageAuthTime
    | MaxAuthTime
    | AverageSessionTime
    | MaxSessionTime
    | Tx
    | Rx
  {
    /** The exposed metric name, a stable compatibility surface. */
    function Name(): string {
      match this
      case StartTime => "ocserv_start_time_seconds"
      case ActiveSessions => "ocserv_active_sessions"
      case HandledSessions => "ocserv_handled_sessions"
      case IpsBanned => "ocserv_ips_banned"
      case TotalAuthenticationFailures => "ocserv_total_authentication_failures"
      case SessionsHandled => "ocserv_sessions_handled"
      case TimedOutSessions => "ocserv_timed_out_sessions"
      case TimedOutIdleSessions => "ocserv_timed_out_idle_sessions"
      case ClosedErrorSessions => "ocserv_closed_error_sessions"
      case AuthenticationFailures => "ocserv_authentication_failures"
      case AverageAuthTime => "ocserv_average_auth_time_seconds"
      case MaxAuthTime => "ocserv_max_auth_time_seconds"
      case AverageSessionTime => "ocserv_average_session_time_seconds"
      case MaxSessionTime => "ocserv_max_session_time_seconds"
      case Tx => "ocserv_tx_bytes"
      case Rx => "ocserv_rx_bytes"
    }
  }

  /** Every status gauge once, in the order the exporter sets them. */
  const AllStatusGauges: seq<StatusGauge> := [
    StartTime, ActiveSessions, HandledSessions, IpsBanned,
    TotalAuthenticationFailures, SessionsHandled, TimedOutSessions,
    TimedOutIdleSessions, ClosedErrorSessions, AuthenticationFailures,
    AverageAuthTime, MaxAuthTime, AverageSessionTime, MaxSessionTime,
    Tx, Rx]

  /** The label values of one per-user series, in label order. */
  datatype Labels = Labels(
    username: string,
    remoteIp: string,
    mtu: string,
    ocservIpv4: string,
    ocservIpv6: string,
    device: string,
    userAgent: string)

  /** The label names of the per-user families, in the order of `Labels`. */
  const LabelNames: seq<string> :=
    ["username", "remote_ip", "mtu", "ocserv_ipv4", "ocserv_ipv6", "device", "user_agent"]

  /** The three labelled per-user gauge families. */
  datatype UserFamily = UserTx | UserRx | UserStartTime
  {
    function Name(): string {
      match this
      case UserTx => "ocserv_user_tx_bytes"
      case UserRx => "ocserv_user_rx_bytes"
      case UserStartTime => "ocserv_user_start_time_seconds"
    }
  }

  /** The series currently exposed by the three per-user families. */
  datatype UserGauges = UserGauges(
    tx: map<Labels, int>,
    rx: map<Labels, int>,
    startTime: map<Labels, int>)
  {
    function Family(f: UserFamily): map<Labels, int> {
      match f
      case UserTx => tx
      case UserRx => rx
      case UserStartTime => startTime
    }
  }

  /** All three families with every label combination removed. */
  const NoUserGauges: UserGauges := UserGauges(map[], map[], map[])

  /** The two unlabelled scrape-error counters. */
  datatype ScrapeCounter = StatusScrapeError | UsersScrapeError
  {
    function Name(): string {
      match this
      case StatusScrapeError => "occtl_status_scrape_error_total"
      case UsersScrapeError => "occtl_users_scrape_error_total"
    }
  }

  /** The exporter's own metrics (main.go:13-96), as `metricsHandler`
      exposes them. A counter at 0 stands for a counter that exposes no
      series yet: an unlabelled counter vector shows nothing until its
      first `Inc`, and every `Inc` leaves it at 1 or more, so 0 and "not
      yet exposed" coincide. */
  datatype Registry = Registry(
    status: map<StatusGauge, int>,
    users: UserGauges,
    statusScrapeErrors: nat,
    usersScrapeErrors: nat)
  {
    /** The value of counter `c`. */
    function Counter(c: ScrapeCounter): nat {
      match c
      case StatusScrapeError => statusScrapeErrors
      case UsersScrapeError => usersScrapeErrors
    }
  }

  /** The registry at start-up: no gauge set, neither counter exposed. */
  const Initial: Registry := Registry(map[], NoUserGauges, 0, 0)

  /** Gauge `g` shows the same thing in `a` and in `b`: both absent, or both
      present with the same value. */
  predicate SameGauge(a: map<StatusGauge, int>, b: map<StatusGauge, int>, g: StatusGauge) {
    (g in a <==> g in b) && (g in a ==> a[g] == b[g])
  }

  /** `AllStatusGauges` lists every status gauge, each exactly once. */
  lemma AllStatusGaugesComplete()
    ensures |AllStatusGauges| == 16
    ensures forall g: StatusGauge :: g in AllStatusGauges
    ensures forall i, j :: 0 <= i < j < |AllStatusGauges| ==> AllStatusGauges[i] != AllStatusGauges[j]
  {
    forall g: StatusGauge ensures g in AllStatusGauges {
      match g
      case StartTime => assert AllStatusGauges[0] == g;
      case ActiveSessions => assert AllStatusGauges[1] == g;
      case HandledSessions => assert AllStatusGauges[2] == g;
      case IpsBanned => assert AllStatusGauges[3] == g;
      case TotalAuthenticationFailures => assert AllStatusGauges[4] == g;
      case SessionsHandled => assert AllStatusGauges[5] == g;
      case TimedOutSessions => assert AllStatusGauges[6] == g;
      case TimedOutIdleSessions => assert AllStatusGauges[7] == g;
      case ClosedErrorSessions => assert AllStatusGauges[8] == g;
      case AuthenticationFailures => assert AllStatusGauges[9] == g;
      case AverageAuthTime => assert AllStatusGauges[10] == g;
      case MaxAuthTime => assert AllStatusGauges[11] == g;
      case AverageSessionTime => assert AllStatusGauges[12] == g;
      case MaxSessionTime => assert AllStatusGauges[13] == g;
      case Tx => assert AllStatusGauges[14] == g;
      case Rx => assert AllStatusGauges[15] == g;
    }
  }

  /** No two status gauges share a metric name. `prometheus.MustRegister`
      panics on a second collector with a name already registered, so this
      and the three lemmas below are what let `main` register its metrics. */
  lemma StatusGaugeNamesDistinct(g: StatusGauge, h: StatusGauge)
    requires g != h
    ensures g.Name() != h.Name()
  {
  }

  /** No two per-user families share a metric name, and none shares one
      with a status gauge, so registering them beside the gauges succeeds. */
  lemma UserFamilyNamesDistinct(f: UserFamily, f': UserFamily, g: StatusGauge)
    ensures f != f' ==> f.Name() != f'.Name()
    ensures f.Name() != g.Name()
  {
  }

  /** The two counters have distinct names, shared with no gauge or family,
      so registering them beside the gauges and families succeeds. */
  lemma ScrapeCounterNamesDistinct(c: ScrapeCounter, c': ScrapeCounter, g: StatusGauge, f: UserFamily)
    ensures c != c' ==> c.Name() != c'.Name()
    ensures c.Name() != g.Name() && c.Name() != f.Name()
  {
  }

  /** The seven label names are pairwise distinct. A family whose label
      names repeat fails to register, so this is what lets the three
      per-user families register. */
  lemma LabelNamesDistinct()
    ensures |LabelNames| == 7
    ensures forall i, j :: 0 <= i < j < |LabelNames| ==> LabelNames[i] != LabelNames[j]
  {
  }
}
