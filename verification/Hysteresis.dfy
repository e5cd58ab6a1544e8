/** What stored incidents say about the verdicts behind them, and the hysteresis theorems. */
module Hysteresis {
  import opened Model
  import opened Streaks
  import opened Quorum
  import opened Protocol
  import opened Incidents
  import opened Evidence
  import opened Snapshots

  ghost predicate Behind(rows: map<string, Incident>, v: Verdict) {
    && v.id in rows
    && rows[v.id].monitorID == v.mon.id
    && (!v.up ==> rows[v.id].confirmedAt != 0 && rows[v.id].confirmingNodes == Nodes(v.seen))
    && (v.up ==> rows[v.id].status.Resolved?)
  }

  ghost predicate Has(vs: seq<Verdict>, k: string, up: bool) {
    exists i :: 0 <= i < |vs| && vs[i].id == k && vs[i].up == up
  }

  /** At most one verdict of each kind per incident, the confirmation first. */
  ghost predicate Ordered(vs: seq<Verdict>) {
    forall i, j :: 0 <= i < j < |vs| && vs[i].id == vs[j].id ==> !vs[i].up && vs[j].up
  }

  ghost predicate LinkOK(rows: map<string, Incident>, vs: seq<Verdict>) {
    && (forall i :: 0 <= i < |vs| ==> Behind(rows, vs[i]))
    && (forall k :: k in rows && rows[k].confirmedAt != 0 ==> Has(vs, k, false))
    && (forall k :: k in rows && rows[k].status.Resolved? ==> Has(vs, k, true))
    && Ordered(vs)
  }

  lemma NewRowKeepsLink(rows: map<string, Incident>, vs: seq<Verdict>, id: string, i: Incident)
    requires LinkOK(rows, vs) && id !in rows && i.confirmedAt == 0 && !i.status.Resolved?
    ensures LinkOK(rows[id := i], vs)
  {
    forall x | 0 <= x < |vs| ensures Behind(rows[id := i], vs[x]) { assert Behind(rows, vs[x]); }
  }

  lemma HasGrows(vs: seq<Verdict>, v: Verdict)
    ensures Has(vs + [v], v.id, v.up)
    ensures forall k, up :: Has(vs, k, up) ==> Has(vs + [v], k, up)
  {
    assert (vs + [v])[|vs|] == v;
    forall k, up | Has(vs, k, up) ensures Has(vs + [v], k, up) {
      var i :| 0 <= i < |vs| && vs[i].id == k && vs[i].up == up;
      assert (vs + [v])[i] == vs[i];
    }
  }

  /**
   v may be recorded: a first confirmation of a suspect row, or the resolution of an unresolved one, leaving row i.
   */
  ghost predicate Records(rows: map<string, Incident>, v: Verdict, i: Incident) {
    && v.id in rows && Evolves(rows[v.id], i) && i.monitorID == v.mon.id
    && !rows[v.id].status.Resolved? && (!v.up ==> rows[v.id].confirmedAt == 0)
    && (v.up ==>
          && i.status.Resolved?
          && i.confirmedAt == rows[v.id].confirmedAt && i.confirmingNodes == rows[v.id].confirmingNodes)
    && (!v.up ==> !i.status.Resolved? && i.confirmedAt != 0 && i.confirmingNodes == Nodes(v.seen))
  }

  lemma OldVerdictStands(rows: map<string, Incident>, w: Verdict, v: Verdict, i: Incident)
    requires Behind(rows, w) && Records(rows, v, i)
    ensures Behind(rows[v.id := i], w) && (w.id == v.id ==> !w.up && v.up)
  {
  }

  lemma WrittenRowKeepsLink(rows: map<string, Incident>, vs: seq<Verdict>, v: Verdict, i: Incident)
    requires LinkOK(rows, vs) && Records(rows, v, i)
    ensures LinkOK(rows[v.id := i], vs + [v])
  {
    HasGrows(vs, v);
    forall x | 0 <= x < |vs|
      ensures Behind(rows[v.id := i], vs[x])
      ensures vs[x].id == v.id ==> !vs[x].up && v.up
    {
      assert Behind(rows, vs[x]);
      OldVerdictStands(rows, vs[x], v, i);
    }
  }

  lemma WriteKeepsLink(s: State)
    requires TableOK(s) && LinkOK(s.incidents, s.verdicts) && (s.pc.Confirming? || s.pc.Resolving?)
    ensures LinkOK(WriteStep(s).incidents, WriteStep(s).verdicts)
  {
    WriteForward(s);
    var s' := WriteStep(s);
    var v := s'.verdicts[|s.verdicts|];
    assert s'.verdicts == s.verdicts + [v] && s'.incidents == s.incidents[v.id := s'.incidents[v.id]];
    WrittenRowKeepsLink(s.incidents, s.verdicts, v, s'.incidents[v.id]);
  }

  lemma CreateKeepsLink(s: State, a: Answer)
    requires LinkOK(s.incidents, s.verdicts) && s.pc.Creating?
    ensures LinkOK(CreateStep(s, a).incidents, CreateStep(s, a).verdicts)
  {
    if a.FreshID? && a.id !in s.incidents {
      NewRowKeepsLink(s.incidents, s.verdicts, a.id, NewIncident(a.id, s.pc.job.mon.id, s.now));
    }
  }

  lemma LinkStep(s: State, e: Event)
    requires TableOK(s) && LinkOK(s.incidents, s.verdicts)
    ensures LinkOK(Step(s, e).incidents, Step(s, e).verdicts)
  {
    if e.Call? && e.ok && s.pc.Creating? {
      CreateKeepsLink(s, e.answer);
    } else if e.Call? && e.ok && (s.pc.Confirming? || s.pc.Resolving?) {
      WriteKeepsLink(s);
    } else {
      OnlyWritersChangeTable(s, e);
      OnlyWritesRecord(s, e);
    }
  }

  lemma {:induction false} ReachableOK(s0: State, es: seq<Event>)
    requires Init(s0)
    ensures TableOK(Run(s0, es)) && EvidenceOK(Run(s0, es)) && LinkOK(Run(s0, es).incidents, Run(s0, es).verdicts)
  {
    TableRun(s0, es);
    EvidenceRun(s0, es);
    if es != [] {
      ReachableOK(s0, es[..|es| - 1]);
      LinkStep(Run(s0, es[..|es| - 1]), es[|es| - 1]);
    }
  }

  lemma NodesOf(seen: seq<Seen>)
    ensures forall i :: 0 <= i < |seen| ==> Nodes(seen)[i] == seen[i].node
  {
  }

  /** The listed nodes are distinct online nodes, enough for a quorum, each with the required streak. */
  ghost predicate Confirmers(log: seq<CheckResult>, nodes: seq<string>, v: Verdict) {
    && nodes == Nodes(v.seen) && NoDup(nodes) && NoDup(v.online) && Elements(nodes) <= Elements(v.online)
    && Met(v.mon, |nodes|, |v.online|)
    && forall i :: 0 <= i < |nodes| ==>
         && v.seen[i].at <= |log|
         && IsNewestFirst(log[..v.seen[i].at], v.mon.id, nodes[i], v.seen[i].rows)
         && v.mon.failureThreshold <= |v.seen[i].rows|
         && forall j :: 0 <= j < v.mon.failureThreshold ==> !v.seen[i].rows[j].status.Up?
  }

  lemma VerdictNamesConfirmers(log: seq<CheckResult>, v: Verdict)
    requires !v.up && VerdictOK(log, v.mon, v.up, v.online, v.seen)
    ensures Confirmers(log, Nodes(v.seen), v)
  {
    NodesOf(v.seen);
    forall j | 0 <= j < |v.seen| ensures SeenOK(log, v.mon, false, v.online, v.seen[j]) {}
    forall j | 0 <= j < |v.seen|
      ensures v.mon.failureThreshold <= |v.seen[j].rows|
      ensures forall k :: 0 <= k < v.mon.failureThreshold ==> !v.seen[j].rows[k].status.Up?
    {
      CountReads(v.seen[j].rows, false);
    }
  }

  lemma VerdictIsUnique(vs: seq<Verdict>, k: string, up: bool) returns (v: Verdict)
    requires Ordered(vs) && Has(vs, k, up)
    ensures v in vs && v.id == k && v.up == up
    ensures forall w :: w in vs && w.id == k && w.up == up ==> w == v
  {
    var i :| 0 <= i < |vs| && vs[i].id == k && vs[i].up == up;
    v := vs[i];
  }

  /**
   Confirmation is always evidenced. Every incident ever confirmed has exactly one confirming verdict. Its
   confirming nodes are distinct, met the quorum by their number, and each had the required failure streak in
   the log as it stood when it was counted. They come from a list of exactly the nodes online after i events,
   the rule from a monitor row enabled after h events, both read in the tick that confirmed, before any count.
   */
  lemma ConfirmationIsEvidenced(s0: State, es: seq<Event>, k: string) returns (v: Verdict, h: nat, i: nat, n: nat)
    requires Init(s0) && k in Run(s0, es).incidents && Run(s0, es).incidents[k].confirmedAt != 0
    ensures v in Run(s0, es).verdicts && v.id == k && !v.up
    ensures forall w :: w in Run(s0, es).verdicts && w.id == k && !w.up ==> w == v
    ensures Confirmers(Run(s0, es).log, Run(s0, es).incidents[k].confirmingNodes, v)
    ensures RestsOn(s0, es, v, h, i, n)
    ensures forall c :: c in Run(s0, es).incidents[k].confirmingNodes ==>
      c in Run(s0, es[..i]).nodes && Run(s0, es[..i]).nodes[c].status.NodeOnline?
  {
    ReachableOK(s0, es);
    var s := Run(s0, es);
    v := VerdictIsUnique(s.verdicts, k, false);
    assert Behind(s.incidents, v);
    VerdictNamesConfirmers(s.log, v);
    h, i, n := TablesOf(s0, es, v);
    forall c | c in Nodes(v.seen) ensures c in v.online { assert c in Elements(Nodes(v.seen)); }
  }

  /** The same for every verdict, recoveries included. */
  lemma VerdictsAreEvidenced(s0: State, es: seq<Event>, v: Verdict) returns (h: nat, i: nat, n: nat)
    requires Init(s0) && v in Run(s0, es).verdicts
    ensures VerdictOK(Run(s0, es).log, v.mon, v.up, v.online, v.seen) && RestsOn(s0, es, v, h, i, n)
  {
    ReachableOK(s0, es);
    h, i, n := TablesOf(s0, es, v);
  }

  /** One node is behind both verdicts, and it reported afresh in between. */
  ghost predicate Flipped(log: seq<CheckResult>, v: Verdict, w: Verdict, a: Seen, b: Seen) {
    && a in v.seen && b in w.seen && a.node == b.node && a.at <= b.at <= |log|
    && |set i: nat | a.at <= i < b.at
          && log[i].monitorID == w.mon.id && log[i].nodeID == b.node && log[i].status.Up? == w.up|
       >= (if w.up then w.mon.recoveryThreshold else w.mon.failureThreshold)
  }

  /**
   Hysteresis by quorum intersection, at its most general: two opposite verdicts on one monitor whose
   counted nodes must overlap are separated by at least a threshold's worth of fresh results of the new
   polarity at a node behind both. Results may arrive in any order, calls may fail, the coordinator may
   crash in between.
   */
  lemma OppositeVerdictsNeedFreshResults(s0: State, es: seq<Event>, x: nat, y: nat) returns (a: Seen, b: Seen)
    requires Init(s0) && x < y < |Run(s0, es).verdicts|
    requires DistinctStampsOf(Run(s0, es).log, Run(s0, es).verdicts[y].mon.id)
    requires var v, w := Run(s0, es).verdicts[x], Run(s0, es).verdicts[y];
      && v.mon.id == w.mon.id && v.up != w.up
      && Threshold(v.mon, v.up) >= 1
      && |v.seen| + |w.seen| > |Elements(v.online) + Elements(w.online)|
    ensures Flipped(Run(s0, es).log, Run(s0, es).verdicts[x], Run(s0, es).verdicts[y], a, b)
  {
    ReachableOK(s0, es);
    var s := Run(s0, es);
    var v, w := s.verdicts[x], s.verdicts[y];
    BackedNodes(s.log, v.mon, v.up, v.online, v.seen);
    BackedNodes(s.log, w.mon, w.up, w.online, w.seen);
    var n := QuorumsIntersect(Nodes(v.seen), Nodes(w.seen), Elements(v.online) + Elements(w.online));
    var i, j;
    a, i := SeenAs(s.log, v.mon, v.up, v.online, v.seen, n);
    b, j := SeenAs(s.log, w.mon, w.up, w.online, w.seen, n);
    assert NotAfter(v.seen, w.seen);
    SeenFlips(s.log, v, w, a, b);
  }

  lemma BackedNodes(log: seq<CheckResult>, mon: Monitor, up: bool, online: seq<string>, seen: seq<Seen>)
    requires Backed(log, mon, up, online, seen)
    ensures NoDup(Nodes(seen)) && Elements(Nodes(seen)) <= Elements(online)
  {
    NodesOf(seen);
    forall i | 0 <= i < |seen| ensures Nodes(seen)[i] in online {
      assert SeenOK(log, mon, up, online, seen[i]);
    }
  }

  lemma SeenAs(
      log: seq<CheckResult>, mon: Monitor, up: bool, online: seq<string>, seen: seq<Seen>, n: string)
      returns (a: Seen, i: nat)
    requires Backed(log, mon, up, online, seen) && n in Nodes(seen)
    ensures i < |seen| && seen[i] == a && a.node == n && SeenOK(log, mon, up, online, a)
  {
    i :| i < |seen| && Nodes(seen)[i] == n;
    a := seen[i];
  }

  lemma SeenFlips(log: seq<CheckResult>, v: Verdict, w: Verdict, a: Seen, b: Seen)
    requires DistinctStampsOf(log, w.mon.id) && v.mon.id == w.mon.id && v.up != w.up && Threshold(v.mon, v.up) >= 1
    requires SeenOK(log, v.mon, v.up, v.online, a) && SeenOK(log, w.mon, w.up, w.online, b)
    requires a in v.seen && b in w.seen && a.node == b.node && a.at <= b.at
    ensures Flipped(log, v, w, a, b)
  {
    if Threshold(w.mon, w.up) > 0 {
      FlipNeedsFreshResults(log, w.mon.id, b.node, a.at, b.at, a.rows, b.rows, w.up, Threshold(w.mon, w.up));
    }
  }

  /** The documented case: one online set, and a rule (majority, say) whose quorums overlap. */
  ghost predicate SameElectorate(v: Verdict, w: Verdict) {
    && Elements(v.online) == Elements(w.online)
    && v.mon.quorumType == w.mon.quorumType && v.mon.quorumN == w.mon.quorumN
    && Overlapping(v.mon, |v.online|)
  }

  /**
   Recovery after an alert: a node among the incident's confirming nodes gained at least
   recoveryThreshold fresh up results between its failure count and its recovery count.
   */
  lemma RecoveryNeedsFreshUps(s0: State, es: seq<Event>, k: string, v: Verdict, w: Verdict) returns (a: Seen, b: Seen)
    requires Init(s0) && DistinctStampsOf(Run(s0, es).log, w.mon.id)
    requires v in Run(s0, es).verdicts && w in Run(s0, es).verdicts
    requires v.id == k == w.id && !v.up && w.up && v.mon.failureThreshold >= 1 && SameElectorate(v, w)
    ensures k in Run(s0, es).incidents && a.node in Run(s0, es).incidents[k].confirmingNodes
    ensures Flipped(Run(s0, es).log, v, w, a, b)
  {
    ReachableOK(s0, es);
    var s := Run(s0, es);
    var x, y := VerdictOrder(s.incidents, s.verdicts, v, w);
    CountsExceedElectorate(s, v, w);
    a, b := OppositeVerdictsNeedFreshResults(s0, es, x, y);
    NodeOfSeen(v.seen, a);
  }

  lemma VerdictOrder(rows: map<string, Incident>, vs: seq<Verdict>, v: Verdict, w: Verdict) returns (x: nat, y: nat)
    requires LinkOK(rows, vs) && v in vs && w in vs && v.id == w.id && !v.up && w.up
    ensures x < y < |vs| && vs[x] == v && vs[y] == w
    ensures v.id in rows && v.mon.id == w.mon.id && rows[v.id].confirmingNodes == Nodes(v.seen)
  {
    x :| x < |vs| && vs[x] == v;
    y :| y < |vs| && vs[y] == w;
    assert Behind(rows, vs[x]) && Behind(rows, vs[y]);
  }

  lemma NodeOfSeen(seen: seq<Seen>, a: Seen)
    requires a in seen
    ensures a.node in Nodes(seen)
  {
    var i :| 0 <= i < |seen| && seen[i] == a;
    assert Nodes(seen)[i] == a.node;
  }

  /**
   Alert after a recovery: a node that had been counted as recovered gained at least failureThreshold
   fresh non-up results before it helped confirm any later incident of the monitor.
   */
  lemma NextAlertNeedsFreshFailures(s0: State, es: seq<Event>, x: nat, y: nat) returns (a: Seen, b: Seen)
    requires Init(s0) && x < y < |Run(s0, es).verdicts|
    requires DistinctStampsOf(Run(s0, es).log, Run(s0, es).verdicts[y].mon.id)
    requires var v, w := Run(s0, es).verdicts[x], Run(s0, es).verdicts[y];
      v.up && !w.up && v.mon.id == w.mon.id && v.mon.recoveryThreshold >= 1 && SameElectorate(v, w)
    ensures Flipped(Run(s0, es).log, Run(s0, es).verdicts[x], Run(s0, es).verdicts[y], a, b)
  {
    ReachableOK(s0, es);
    CountsExceedElectorate(Run(s0, es), Run(s0, es).verdicts[x], Run(s0, es).verdicts[y]);
    a, b := OppositeVerdictsNeedFreshResults(s0, es, x, y);
  }

  lemma CountsExceedElectorate(s: State, v: Verdict, w: Verdict)
    requires EvidenceOK(s) && v in s.verdicts && w in s.verdicts && SameElectorate(v, w)
    ensures |v.seen| + |w.seen| > |Elements(v.online) + Elements(w.online)|
  {
    var x :| 0 <= x < |s.verdicts| && s.verdicts[x] == v;
    var y :| 0 <= y < |s.verdicts| && s.verdicts[y] == w;
    NoDupSize(v.online);
    NoDupSize(w.online);
    MetIffAtLeastNeed(v.mon, |v.seen|, |v.online|);
    MetIffAtLeastNeed(w.mon, |w.seen|, |w.online|);
    assert Elements(v.online) + Elements(w.online) == Elements(v.online);
  }
}
