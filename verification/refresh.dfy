/**
  The refresh loop as a sequence of whole updates. `update` and the
  metrics handler take the same lock, so a reader only sees the registry
  after some number of complete ticks: the registries `Run(Initial, fs[..k])`.
  The timer, the eager first tick and the HTTP server are not modelled;
  a history is simply the list of fetch results the ticks obtained.
 */
module Refresh {
  import opened Occtl
  import opened Metrics
  import opened Exporter

  /** The two fetch results obtained by one tick. */
  datatype Fetch = Fetch(status: Result<StatusMessage>, users: Result<seq<UsersMessage>>)

  /** The registry after the ticks of `fs`: the eager first update and then
      one per timer tick, each a whole update, oldest first. Neither counter
      goes down, and each goes up by at most one per tick. */
  function Run(reg: Registry, fs: seq<Fetch>): (r: Registry)
    ensures reg.statusScrapeErrors <= r.statusScrapeErrors <= reg.statusScrapeErrors + |fs|
    ensures reg.usersScrapeErrors <= r.usersScrapeErrors <= reg.usersScrapeErrors + |fs|
    decreases |fs|
  {
    if fs == [] then reg
    else
      var last := fs[|fs| - 1];
      Update(Run(reg, fs[..|fs| - 1]), last.status, last.users)
  }

  /** Tick `f` failed the fetch that counter `c` counts: the status fetch
      for the status counter, the users fetch for the users counter. */
  predicate Failed(f: Fetch, c: ScrapeCounter) {
    match c
    case StatusScrapeError => f.status.Err?
    case UsersScrapeError => f.users.Err?
  }

  /** The ticks of `fs` whose fetch counted by `c` failed. */
  function Failures(fs: seq<Fetch>, c: ScrapeCounter): set<nat> {
    set i: nat | i < |fs| && Failed(fs[i], c)
  }

  /** Appending one tick adds that tick to the failures of each counter
      whose fetch it failed. */
  lemma FailuresOfLastTick(fs: seq<Fetch>, c: ScrapeCounter)
    requires |fs| > 0
    ensures var n := |fs| - 1;
            |Failures(fs, c)| == |Failures(fs[..n], c)| + (if Failed(fs[n], c) then 1 else 0)
  {
    var n := |fs| - 1;
    var prefix := fs[..n];
    var before, after := Failures(prefix, c), Failures(fs, c);
    var last: set<nat> := if Failed(fs[n], c) then {n} else {};
    forall i | i in after ensures i in before + last {
      if i < n { assert fs[i] == prefix[i]; }
    }
    forall i | i in before ensures i in after {
      assert fs[i] == prefix[i];
    }
    assert after == before + last;
    assert n !in before;
  }

  /** Each error counter grows by exactly the number of ticks whose fetch
      it counts failed. */
  lemma {:induction false} RunCountsFailures(reg: Registry, fs: seq<Fetch>, c: ScrapeCounter)
    ensures Run(reg, fs).Counter(c) == reg.Counter(c) + |Failures(fs, c)|
    decreases |fs|
  {
    if fs == [] {
      assert Failures(fs, c) == {};
    } else {
      var n := |fs| - 1;
      RunCountsFailures(reg, fs[..n], c);
      FailuresOfLastTick(fs, c);
    }
  }

  /** Neither error counter ever goes down, and each rises by at most one
      per tick: a reader who looks again later sees counts at least as
      large and at most that many ticks larger. */
  lemma CountersMonotone(reg: Registry, fs: seq<Fetch>, i: nat, j: nat, c: ScrapeCounter)
    requires i <= j <= |fs|
    ensures Run(reg, fs[..i]).Counter(c) <= Run(reg, fs[..j]).Counter(c)
    ensures Run(reg, fs[..j]).Counter(c) <= Run(reg, fs[..i]).Counter(c) + (j - i)
  {
    RunCountsFailures(reg, fs[..i], c);
    RunCountsFailures(reg, fs[..j], c);
    FailuresOfLongerPrefix(fs, i, j, c);
  }

  /** A longer prefix has at least the failures of a shorter one, and at
      most one more per extra tick. */
  lemma FailuresOfLongerPrefix(fs: seq<Fetch>, i: nat, j: nat, c: ScrapeCounter)
    requires i <= j <= |fs|
    ensures |Failures(fs[..i], c)| <= |Failures(fs[..j], c)| <= |Failures(fs[..i], c)| + (j - i)
  {
    var a, b := fs[..i], fs[..j];
    assert forall t: nat :: t < i ==> a[t] == b[t];
    var between := Range(i, j);
    assert Failures(a, c) <= Failures(b, c);
    assert Failures(b, c) <= Failures(a, c) + between;
    SubsetSize(Failures(a, c), Failures(b, c));
    SubsetSize(Failures(b, c), Failures(a, c) + between);
  }

  /** The ticks from `i` up to but not including `j`. */
  function Range(i: nat, j: nat): (r: set<nat>)
    ensures forall k :: k in r <==> i <= k < j
    ensures |r| == if i <= j then j - i else 0
    decreases j - i
  {
    if j <= i then {} else {i} + Range(i + 1, j)
  }

  lemma SubsetSize<T>(a: set<T>, b: set<T>)
    requires a <= b
    ensures |a| <= |b|
  {
    assert b == a + (b - a);
  }

  /** From start-up, each counter equals the number of ticks whose fetch it
      counts failed. */
  lemma CountersFromStartUp(fs: seq<Fetch>, c: ScrapeCounter)
    ensures Run(Initial, fs).Counter(c) == |Failures(fs, c)|
  {
    RunCountsFailures(Initial, fs, c);
  }

  /** The per-user families after a non-empty history are those the last
      tick's users fetch alone determines: nothing an earlier tick exposed
      survives, whatever the earlier ticks and the starting registry were. */
  lemma UsersFromLastTickOnly(a: Registry, fs: seq<Fetch>, b: Registry, gs: seq<Fetch>)
    requires |fs| > 0 && |gs| > 0
    requires fs[|fs| - 1].users == gs[|gs| - 1].users
    ensures Run(a, fs).users == Run(b, gs).users
  {
  }

  /** The status gauges after a history whose last successful status fetch
      is tick `i`: all sixteen gauges from that fetch if it is the last tick,
      otherwise the thirteen gauges a failure does not reset, still showing
      that fetch's values. */
  lemma {:induction false} StatusFromLastSuccess(reg: Registry, fs: seq<Fetch>, i: nat)
    requires i < |fs| && fs[i].status.Ok?
    requires forall j :: i < j < |fs| ==> fs[j].status.Err?
    ensures i == |fs| - 1 ==> Run(reg, fs).status == StatusGaugesOf(fs[i].status.value)
    ensures i < |fs| - 1 ==> Run(reg, fs).status == StatusGaugesOf(fs[i].status.value) - ResetOnStatusError
    decreases |fs|
  {
    var n := |fs| - 1;
    var prefix := fs[..n];
    if i == n {
      StatusSuccessForgetsHistory(Run(reg, prefix), fs[i].status.value);
    } else {
      StatusFromLastSuccess(reg, prefix, i);
      var before := Run(reg, prefix);
      assert Run(reg, fs).status == StatusOnError(before.status);
      var full := StatusGaugesOf(fs[i].status.value);
      if i == n - 1 {
        assert before.status == full;
      } else {
        assert before.status == full - ResetOnStatusError;
        assert (full - ResetOnStatusError) - ResetOnStatusError == full - ResetOnStatusError;
      }
    }
  }
}
