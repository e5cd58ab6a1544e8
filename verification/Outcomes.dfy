/** What one error-free evaluation writes and sends, read off the log, the rule and the incident table directly. */
module Outcomes {
  import opened Model
  import opened Streaks
  import opened Quorum
  import opened Protocol
  import opened Evaluation
  import opened Decisions

  /** The t newest results of node n on monitor m all have the polarity, and t is within the query's limit. */
  ghost predicate Trails(log: seq<CheckResult>, m: string, n: string, up: bool, t: int) {
    t <= 100 && exists rows :: IsNewestFirst(log, m, n, rows) && TopRows(rows, up, t)
  }

  ghost predicate TopRows(rows: seq<CheckResult>, up: bool, t: int) {
    t <= |rows| && forall i :: 0 <= i < t ==> rows[i].status.Up? == up
  }

  lemma PassesIffTrails(log: seq<CheckResult>, mon: Monitor, up: bool, n: string)
    requires DistinctStampsOf(log, mon.id)
    ensures Passes(log, mon, up, n)
      <==> Trails(log, mon.id, n, up, if up then mon.recoveryThreshold else mon.failureThreshold)
  {
    var t := if up then mon.recoveryThreshold else mon.failureThreshold;
    var newest := Newest(Select(log, mon.id, n));
    NewestSorts(Select(log, mon.id, n));
    CountReads(newest, up);
    if Passes(log, mon, up, n) {
      assert IsNewestFirst(log, mon.id, n, newest) && TopRows(newest, up, t);
    } else if Trails(log, mon.id, n, up, t) {
      var rows :| IsNewestFirst(log, mon.id, n, rows) && TopRows(rows, up, t);
      DeliveryOrderIrrelevant(log, log, mon.id, n, rows, newest);
    }
  }

  /** The online nodes whose newest results reach the monitor's failure (recovery) threshold. */
  ghost function Voters(log: seq<CheckResult>, mon: Monitor, up: bool, online: seq<string>): set<string> {
    set n | n in online && Trails(log, mon.id, n, up, if up then mon.recoveryThreshold else mon.failureThreshold)
  }

  ghost predicate Carries(mon: Monitor, voters: set<string>, online: seq<string>) {
    if mon.quorumType.NOfM? then |voters| >= mon.quorumN else 2 * |voters| > |online|
  }

  lemma CountedAreVoters(log: seq<CheckResult>, mon: Monitor, up: bool, online: seq<string>)
    requires DistinctStampsOf(log, mon.id) && NoDup(online)
    ensures var seen := CountAll(log, mon, up, online, {}, []);
      && NoDup(Nodes(seen)) && Elements(Nodes(seen)) == Voters(log, mon, up, online)
      && (Met(mon, |seen|, |online|) <==> Carries(mon, Voters(log, mon, up, online), online))
  {
    var seen := CountAll(log, mon, up, online, {}, []);
    CountAllIsPassing(log, mon, up, online, {}, []);
    assert Nodes([]) == [] && Nodes(seen) == Passing(log, mon, up, online, {}) && |Nodes(seen)| == |seen|;
    PassingIsSet(log, mon, up, online);
    forall n ensures n in Nodes(seen) <==> n in Voters(log, mon, up, online) { PassesIffTrails(log, mon, up, n); }
    NoDupSize(Nodes(seen));
    assert Elements(Nodes(seen)) == Voters(log, mon, up, online);
    MetIffAtLeastNeed(mon, |seen|, |online|);
  }

  /** l' is l with row i written and notice n sent, unless nothing happened. */
  ghost predicate Wrote(l: Ledger, l': Ledger, i: Incident, n: Notice) {
    l'.incidents == l.incidents[i.id := i] && l'.trace == l.trace + [n]
  }

  ghost predicate Unchanged(l: Ledger, l': Ledger) {
    l' == l
  }

  /** A failing quorum and no unresolved incident: a new one, confirmed by the failing nodes and alerted. */
  lemma NewIncidentIsConfirmed(l: Ledger, log: seq<CheckResult>, mon: Monitor, online: seq<string>, st: Stamp)
    returns (nodes: seq<string>)
    requires DistinctStampsOf(log, mon.id) && NoDup(online)
    requires forall k :: k in l.incidents && l.incidents[k].monitorID == mon.id ==> l.incidents[k].status.Resolved?
    requires Carries(mon, Voters(log, mon, false, online), online)
    ensures NoDup(nodes) && Elements(nodes) == Voters(log, mon, false, online)
    ensures
      var i := Incident(st.id, mon.id, Confirmed, st.createdAt, st.writtenAt, 0, nodes, st.createdAt, st.writtenAt);
      Wrote(l, Evaluate(l, log, mon, online, st, {}, {}), i, Alert(i, mon))
  {
    CountedAreVoters(log, mon, false, online);
    nodes := Nodes(CountAll(log, mon, false, online, {}, []));
    assert ActiveOf(l.incidents, mon.id) == None;
  }

  lemma ActiveIs(l: Ledger, m: string, k: string)
    requires LedgerOK(l) && k in l.incidents && l.incidents[k].monitorID == m && !l.incidents[k].status.Resolved?
    ensures ActiveOf(l.incidents, m) == Some(l.incidents[k])
  {
    assert Open(l.incidents[k], m);
  }

  /** A failing quorum and a suspect incident left over: confirmed and alerted. One already confirmed is left alone. */
  lemma UnresolvedIncidentIsConfirmedOnce(
    l: Ledger, log: seq<CheckResult>, mon: Monitor, online: seq<string>, st: Stamp, k: string)
    returns (nodes: seq<string>)
    requires DistinctStampsOf(log, mon.id) && NoDup(online) && LedgerOK(l)
    requires k in l.incidents && l.incidents[k].monitorID == mon.id && !l.incidents[k].status.Resolved?
    requires Carries(mon, Voters(log, mon, false, online), online)
    ensures NoDup(nodes) && Elements(nodes) == Voters(log, mon, false, online)
    ensures l.incidents[k].status.Confirmed? ==> Unchanged(l, Evaluate(l, log, mon, online, st, {}, {}))
    ensures l.incidents[k].status.Suspect? ==>
      var i := l.incidents[k].(
        status := Confirmed, confirmedAt := st.writtenAt, confirmingNodes := nodes, updatedAt := st.writtenAt);
      Wrote(l, Evaluate(l, log, mon, online, st, {}, {}), i, Alert(i, mon))
  {
    CountedAreVoters(log, mon, false, online);
    ActiveIs(l, mon.id, k);
    nodes := Nodes(CountAll(log, mon, false, online, {}, []));
  }

  /** No failing quorum, an unresolved incident: resolved and announced exactly when a quorum has recovered. */
  lemma UnresolvedIncidentIsResolvedByQuorum(
    l: Ledger, log: seq<CheckResult>, mon: Monitor, online: seq<string>, st: Stamp, k: string)
    requires DistinctStampsOf(log, mon.id) && NoDup(online) && LedgerOK(l)
    requires k in l.incidents && l.incidents[k].monitorID == mon.id && !l.incidents[k].status.Resolved?
    requires !Carries(mon, Voters(log, mon, false, online), online)
    ensures
      var i := l.incidents[k].(status := Resolved, resolvedAt := st.writtenAt, updatedAt := st.writtenAt);
      var l' := Evaluate(l, log, mon, online, st, {}, {});
      if Carries(mon, Voters(log, mon, true, online), online) then Wrote(l, l', i, Recovery(i, mon))
      else Unchanged(l, l')
  {
    CountedAreVoters(log, mon, false, online);
    CountedAreVoters(log, mon, true, online);
    ActiveIs(l, mon.id, k);
  }

  /** No failing quorum and no unresolved incident: nothing happens. */
  lemma QuietMonitorStaysQuiet(l: Ledger, log: seq<CheckResult>, mon: Monitor, online: seq<string>, st: Stamp)
    requires DistinctStampsOf(log, mon.id) && NoDup(online)
    requires forall k :: k in l.incidents && l.incidents[k].monitorID == mon.id ==> l.incidents[k].status.Resolved?
    requires !Carries(mon, Voters(log, mon, false, online), online)
    ensures Unchanged(l, Evaluate(l, log, mon, online, st, {}, {}))
  {
    CountedAreVoters(log, mon, false, online);
    assert ActiveOf(l.incidents, mon.id) == None;
  }
}
