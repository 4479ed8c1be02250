/**
  One refresh of the exporter: the status step, then the users step, run
  back to back under the exporter's lock, so that a metrics reader (which
  takes the same lock) only ever sees the registry between whole updates.
  Each step is a pure function from the registry and one fetch result to
  the next registry.
 */
module Exporter {
  import opened Occtl
  import opened Metrics

  // ---------------------------------------------------------------------
  // Status step
  // ---------------------------------------------------------------------

  /** The field of the status message that gauge `g` exposes. */
  function StatusField(g: StatusGauge, s: StatusMessage): int {
    match g
    case StartTime => s.rawUpSince
    case ActiveSessions => s.activeSessions
    case HandledSessions => s.handledSessions
    case IpsBanned => s.ipsBanned
    case TotalAuthenticationFailures => s.totalAuthenticationFailures
    case SessionsHandled => s.sessionsHandled
    case TimedOutSessions => s.timedOutSessions
    case TimedOutIdleSessions => s.timedOutIdleSessions
    case ClosedErrorSessions => s.closedDueToErrorSessions
    case AuthenticationFailures => s.authenticationFailures
    case AverageAuthTime => s.rawAverageAuthTime
    case MaxAuthTime => s.rawMaxAuthTime
    case AverageSessionTime => s.rawAverageSessionTime
    case MaxSessionTime => s.rawMaxSessionTime
    case Tx => s.rawTx
    case Rx => s.rawRx
  }

  /** The status gauges exactly as a successful fetch of `s` leaves them:
      every gauge present, showing its field of `s`. */
  function StatusGaugesOf(s: StatusMessage): (r: map<StatusGauge, int>)
    ensures forall g :: g in r && r[g] == StatusField(g, s)
  {
    var r := map g | g in AllStatusGauges :: StatusField(g, s);
    ShowsEveryGauge(r, s);
    r
  }

  /** A status map that shows the fields of `s` for the gauges of
      `AllStatusGauges` shows them for every gauge. */
  lemma ShowsEveryGauge(r: map<StatusGauge, int>, s: StatusMessage)
    requires forall g :: g in AllStatusGauges ==> g in r && r[g] == StatusField(g, s)
    ensures forall g :: g in r && r[g] == StatusField(g, s)
  {
    forall g ensures g in r && r[g] == StatusField(g, s) {
      AllStatusGaugesComplete();
      assert g in AllStatusGauges;
    }
  }

  /** Sets the gauges of `gs`, one after the other, to their fields of `s`;
      every other gauge keeps what it showed. */
  function SetStatusGauges(m: map<StatusGauge, int>, gs: seq<StatusGauge>, s: StatusMessage): (r: map<StatusGauge, int>)
    ensures r.Keys == m.Keys + (set g | g in gs)
    ensures forall g :: g in gs ==> r[g] == StatusField(g, s)
    ensures forall g :: g in m && g !in gs ==> r[g] == m[g]
    decreases |gs|
  {
    if gs == [] then m
    else SetStatusGauges(m[gs[0] := StatusField(gs[0], s)], gs[1..], s)
  }

  /** The gauges a failed status fetch resets. */
  const ResetOnStatusError: set<StatusGauge> := {ActiveSessions, HandledSessions, IpsBanned}

  /** What a successful status fetch of `s` makes of the status gauges `m`:
      the sixteen `Set` calls, in source order. */
  function StatusOnSuccess(m: map<StatusGauge, int>, s: StatusMessage): (r: map<StatusGauge, int>)
    ensures forall g :: g in r && r[g] == StatusField(g, s)
  {
    var r := SetStatusGauges(m, AllStatusGauges, s);
    ShowsEveryGauge(r, s);
    r
  }

  /** What a failed status fetch makes of the status gauges `m`: three gauges
      removed, the rest as they were. */
  function StatusOnError(m: map<StatusGauge, int>): (r: map<StatusGauge, int>)
    ensures ActiveSessions !in r && HandledSessions !in r && IpsBanned !in r
    ensures forall g :: g != ActiveSessions && g != HandledSessions && g != IpsBanned ==>
                          SameGauge(r, m, g)
  {
    m - ResetOnStatusError
  }

  /** `updateStatus`: on success every status gauge shows its field of the
      fetched status; on failure the status error counter goes up by one,
      three gauges are removed and the other thirteen keep whatever they
      showed before, absent or not. The per-user families and the users
      error counter are never touched. */
  function UpdateStatus(reg: Registry, res: Result<StatusMessage>): (r: Registry)
    ensures r.users == reg.users && r.usersScrapeErrors == reg.usersScrapeErrors
    ensures res.Ok? ==>
      && r.statusScrapeErrors == reg.statusScrapeErrors
      && forall g :: g in r.status && r.status[g] == StatusField(g, res.value)
    ensures res.Err? ==>
      && r.statusScrapeErrors == reg.statusScrapeErrors + 1
      && ActiveSessions !in r.status
      && HandledSessions !in r.status
      && IpsBanned !in r.status
      && forall g :: g != ActiveSessions && g != HandledSessions && g != IpsBanned ==>
                       SameGauge(r.status, reg.status, g)
  {
    match res
    case Err(_) =>
      reg.(statusScrapeErrors := reg.statusScrapeErrors + 1, status := StatusOnError(reg.status))
    case Ok(s) =>
      reg.(status := StatusOnSuccess(reg.status, s))
  }

  // ---------------------------------------------------------------------
  // Users step
  // ---------------------------------------------------------------------

  /** The label values of the series a user record sets. */
  function LabelsOf(u: UsersMessage): Labels {
    Labels(u.username, u.remoteIp, u.mtu, u.vpnIpv4, u.vpnIpv6, u.device, u.userAgent)
  }

  /** The value a user record gives family `f`. */
  function FamilyValue(f: UserFamily, u: UsersMessage): int {
    match f
    case UserTx => u.rawTx
    case UserRx => u.rawRx
    case UserStartTime => u.rawConnectedAt
  }

  /** The label tuples of the records of `us`. */
  function LabelSet(us: seq<UsersMessage>): set<Labels> {
    set u | u in us :: LabelsOf(u)
  }

  /** Record `i` is the last one of `us` with its label tuple. */
  predicate LastWithLabels(us: seq<UsersMessage>, i: int)
    requires 0 <= i < |us|
  {
    forall j :: i < j < |us| ==> LabelsOf(us[j]) != LabelsOf(us[i])
  }

  /** The labels of a non-empty list: those of its head and of its tail. */
  lemma LabelSetCons(us: seq<UsersMessage>)
    requires |us| > 0
    ensures LabelSet(us) == {LabelsOf(us[0])} + LabelSet(us[1..])
  {
    assert forall u :: u in us <==> u == us[0] || u in us[1..];
  }

  /** `m` is family `f` as built from `us` alone: one series per distinct
      label tuple, valued from the last record that carries it. */
  predicate Exposes(m: map<Labels, int>, us: seq<UsersMessage>, f: UserFamily) {
    && m.Keys == LabelSet(us)
    && forall i :: 0 <= i < |us| && LastWithLabels(us, i) ==>
         LabelsOf(us[i]) in m && m[LabelsOf(us[i])] == FamilyValue(f, us[i])
  }

  /** The three `Set` calls of one loop iteration. */
  function SetUser(g: UserGauges, u: UsersMessage): UserGauges {
    var k := LabelsOf(u);
    UserGauges(g.tx[k := u.rawTx], g.rx[k := u.rawRx], g.startTime[k := u.rawConnectedAt])
  }

  /** The loop over the fetched users, in list order: a label tuple seen
      again overwrites the earlier series, so the last record wins, and
      series whose labels no record carries are left as they were. */
  function SetUsers(g: UserGauges, us: seq<UsersMessage>): (r: UserGauges)
    ensures forall f :: r.Family(f).Keys == g.Family(f).Keys + LabelSet(us)
    ensures forall f, k :: k in g.Family(f) && k !in LabelSet(us) ==> r.Family(f)[k] == g.Family(f)[k]
    ensures forall f, i :: 0 <= i < |us| && LastWithLabels(us, i) ==>
              r.Family(f)[LabelsOf(us[i])] == FamilyValue(f, us[i])
    decreases |us|
  {
    if us == [] then g
    else
      var rest := us[1..];
      LabelSetCons(us);
      assert forall i :: 1 <= i < |us| && LastWithLabels(us, i) ==> LastWithLabels(rest, i - 1);
      SetUsers(SetUser(g, us[0]), rest)
  }

  /** `updateUsers`: all three families are emptied before the fetch; on
      failure they stay empty and the users error counter goes up by one,
      on success they expose exactly the fetched records. The status gauges
      and the status error counter are never touched. */
  function UpdateUsers(reg: Registry, res: Result<seq<UsersMessage>>): (r: Registry)
    ensures r.status == reg.status && r.statusScrapeErrors == reg.statusScrapeErrors
    ensures res.Err? ==>
      && r.usersScrapeErrors == reg.usersScrapeErrors + 1
      && forall f :: r.users.Family(f) == map[]
    ensures res.Ok? ==>
      && r.usersScrapeErrors == reg.usersScrapeErrors
      && forall f :: Exposes(r.users.Family(f), res.value, f)
  {
    var cleared := reg.(users := NoUserGauges);
    match res
    case Err(_) => cleared.(usersScrapeErrors := reg.usersScrapeErrors + 1)
    case Ok(us) => cleared.(users := SetUsers(NoUserGauges, us))
  }

  // ---------------------------------------------------------------------
  // One whole update
  // ---------------------------------------------------------------------

  /** `update`: the status step, then the users step, as one transition.
      Neither step sees the other's effect: the status gauges are what the
      status step alone makes of `reg`, the user families what the users
      step alone makes of it, and each counter rises by one exactly when
      its own fetch failed. */
  function Update(reg: Registry, st: Result<StatusMessage>, us: Result<seq<UsersMessage>>): (r: Registry)
    ensures r.status == UpdateStatus(reg, st).status
    ensures r.users == UpdateUsers(reg, us).users
    ensures r.statusScrapeErrors == reg.statusScrapeErrors + (if st.Err? then 1 else 0)
    ensures r.usersScrapeErrors == reg.usersScrapeErrors + (if us.Err? then 1 else 0)
  {
    UpdateUsers(UpdateStatus(reg, st), us)
  }

  // ---------------------------------------------------------------------
  // Properties of one update
  // ---------------------------------------------------------------------

  /** The steps do not interfere: running the users step first would give
      the same registry. */
  lemma StepsCommute(reg: Registry, st: Result<StatusMessage>, us: Result<seq<UsersMessage>>)
    ensures UpdateUsers(UpdateStatus(reg, st), us) == UpdateStatus(UpdateUsers(reg, us), st)
  {
  }

  /** After a successful status fetch every status gauge is present and the
      status gauges depend on the fetched status alone, whatever earlier
      failures or successes left behind. */
  lemma StatusSuccessForgetsHistory(reg: Registry, s: StatusMessage)
    ensures UpdateStatus(reg, Ok(s)).status == StatusGaugesOf(s)
  {
    FullStatusMapsEqual(UpdateStatus(reg, Ok(s)).status, StatusGaugesOf(s));
  }

  /** Two status maps in which every gauge is present with the same value
      are the same map. */
  lemma FullStatusMapsEqual(m: map<StatusGauge, int>, n: map<StatusGauge, int>)
    requires forall g :: g in m && g in n && m[g] == n[g]
    ensures m == n
  {
    assert m.Keys == n.Keys;
  }

  /** A failed status fetch after a successful one leaves thirteen gauges
      showing the earlier fetch's values and removes the other three. */
  lemma StaleStatusAfterFailure(reg: Registry, s: StatusMessage, e: string,
                                u1: Result<seq<UsersMessage>>, u2: Result<seq<UsersMessage>>)
    ensures Update(Update(reg, Ok(s), u1), Err(e), u2).status == StatusGaugesOf(s) - ResetOnStatusError
  {
    StatusSuccessForgetsHistory(reg, s);
  }

  /** Two identical successful updates in a row leave the registry as the
      first one left it: gauges and counters alike. */
  lemma UpdateIdempotent(reg: Registry, s: StatusMessage, us: seq<UsersMessage>)
    ensures Update(Update(reg, Ok(s), Ok(us)), Ok(s), Ok(us)) == Update(reg, Ok(s), Ok(us))
  {
    StatusSuccessForgetsHistory(reg, s);
    StatusSuccessForgetsHistory(Update(reg, Ok(s), Ok(us)), s);
  }

  /** A failed users fetch and a fetch that lists nobody expose the same
      registry except for the users error counter. */
  lemma UsersFailureLikeEmptyList(reg: Registry, st: Result<StatusMessage>, e: string)
    ensures var failed := Update(reg, st, Err(e));
            var empty := Update(reg, st, Ok([]));
            failed == empty.(usersScrapeErrors := empty.usersScrapeErrors + 1)
  {
  }

  /** Two records with the same label tuple make one series per family,
      valued from the later record. */
  lemma DuplicateLabelsCollapse(reg: Registry, a: UsersMessage, b: UsersMessage)
    requires LabelsOf(a) == LabelsOf(b)
    ensures forall f :: UpdateUsers(reg, Ok([a, b])).users.Family(f) == map[LabelsOf(b) := FamilyValue(f, b)]
  {
  }

  /** No two records of `us` share a label tuple. */
  predicate DistinctLabels(us: seq<UsersMessage>) {
    forall i, j :: 0 <= i < j < |us| ==> LabelsOf(us[i]) != LabelsOf(us[j])
  }

  /** A list never has more label tuples than records, and has as many
      exactly when no two records share one. */
  lemma {:induction false} LabelSetSize(us: seq<UsersMessage>)
    ensures |LabelSet(us)| <= |us|
    ensures |LabelSet(us)| == |us| <==> DistinctLabels(us)
  {
    if us == [] {
    } else {
      var rest := us[1..];
      LabelSetSize(rest);
      LabelSetCons(us);
      if LabelsOf(us[0]) in LabelSet(rest) {
        var u :| u in rest && LabelsOf(u) == LabelsOf(us[0]);
        var j :| 0 <= j < |rest| && rest[j] == u;
        assert us[j + 1] == u;
        assert !DistinctLabels(us);
        assert LabelSet(us) == LabelSet(rest);
      } else {
        assert |LabelSet(us)| == |LabelSet(rest)| + 1;
        if DistinctLabels(rest) {
          forall i, j | 0 <= i < j < |us| ensures LabelsOf(us[i]) != LabelsOf(us[j]) {
            if i == 0 {
              assert us[j] in rest by { assert us[j] == rest[j - 1]; }
            } else {
              assert us[i] == rest[i - 1] && us[j] == rest[j - 1];
            }
          }
        } else {
          var i, j :| 0 <= i < j < |rest| && LabelsOf(rest[i]) == LabelsOf(rest[j]);
          assert us[i + 1] == rest[i] && us[j + 1] == rest[j];
        }
      }
    }
  }

  /** After a successful users fetch each family holds at most one series
      per record, and exactly one per record when no two records share a
      label tuple. */
  lemma SeriesCount(reg: Registry, us: seq<UsersMessage>, f: UserFamily)
    ensures |UpdateUsers(reg, Ok(us)).users.Family(f)| <= |us|
    ensures |UpdateUsers(reg, Ok(us)).users.Family(f)| == |us| <==> DistinctLabels(us)
  {
    LabelSetSize(us);
    assert UpdateUsers(reg, Ok(us)).users.Family(f).Keys == LabelSet(us);
  }
}
