/** Invariants of the incident table over every run: one open incident per monitor, forward-only lifecycle. */
module Incidents {
  import opened Model
  import opened Protocol

  // ---------- at most one unresolved incident per monitor ----------

  ghost predicate OneOpen(incidents: map<string, Incident>) {
    forall a, b ::
      (a in incidents && b in incidents && !incidents[a].status.Resolved? && Open(incidents[b], incidents[a].monitorID))
      ==> a == b
  }

  ghost predicate Stored(s: State, i: Incident) {
    i.id in s.incidents && s.incidents[i.id] == i
  }

  /** What the loop remembers about the table is still true: nobody else writes incidents. */
  ghost predicate PcAgrees(s: State) {
    match s.pc
    case Creating(job, _) => forall k :: k in s.incidents ==> !Open(s.incidents[k], job.mon.id)
    case Confirming(job, _, i) => Stored(s, i) && i.status.Suspect? && i.monitorID == job.mon.id
    case Alerting(job, i) => Stored(s, i) && i.status.Confirmed? && i.monitorID == job.mon.id
    case Recounting(job, i, _, _) => Stored(s, i) && Open(i, job.mon.id)
    case Resolving(job, i, _) => Stored(s, i) && Open(i, job.mon.id)
    case Announcing(job, i) =>
      && Stored(s, i) && i.status.Resolved? && i.monitorID == job.mon.id
      && forall k :: k in s.incidents ==> !Open(s.incidents[k], job.mon.id)
    case _ => true
  }

  ghost predicate WellTimed(i: Incident, now: int) {
    && 0 < i.startedAt == i.createdAt <= now
    && (i.status.Suspect? ==> i.confirmedAt == 0 && i.resolvedAt == 0 && i.confirmingNodes == [])
    && (i.status.Confirmed? ==> i.confirmedAt != 0 && i.resolvedAt == 0)
    && (i.confirmedAt != 0 ==> i.startedAt <= i.confirmedAt <= now)
    && (i.confirmedAt == 0 ==> i.confirmingNodes == [])
    && (i.status.Resolved? ==>
          && i.startedAt <= i.resolvedAt <= now
          && (i.confirmedAt != 0 ==> i.confirmedAt <= i.resolvedAt))
  }

  ghost predicate RowsOK(incidents: map<string, Incident>, now: int) {
    && now > 0
    && (forall k :: k in incidents ==> incidents[k].id == k && WellTimed(incidents[k], now))
    && OneOpen(incidents)
  }

  ghost predicate TableOK(s: State) {
    RowsOK(s.incidents, s.now) && PcAgrees(s)
  }

  lemma CountKeepsTable(s: State, a: Answer)
    requires TableOK(s) && (s.pc.Counting? || s.pc.Recounting?)
    ensures TableOK(CountStep(s, a))
  {
  }

  lemma LookupKeepsTable(s: State, a: Answer)
    requires TableOK(s) && s.pc.Lookup?
    ensures TableOK(LookupStep(s, a))
  {
  }

  lemma RecountAgrees(s: State, job: Job, i: Incident)
    requires Stored(s, i) && Open(i, job.mon.id)
    ensures PcAgrees(s.(pc := SuccessesCounted(job, i, job.online, [])))
  {
  }

  lemma NextAgrees(s: State, job: Job)
    ensures PcAgrees(s.(pc := Next(job)))
  {
  }

  lemma CheckKeepsTable(s: State, a: Answer)
    requires TableOK(s) && s.pc.Checking?
    ensures TableOK(LookupStep(s, a))
  {
    if a.Active? && IsActive(s.incidents, s.pc.job.mon.id, a.found) {
      NextAgrees(s, s.pc.job);
      if a.found.Some? { RecountAgrees(s, s.pc.job, a.found.value); }
    }
  }

  lemma CreateKeepsTable(s: State, a: Answer)
    requires TableOK(s) && s.pc.Creating?
    ensures TableOK(CreateStep(s, a))
  {
    if a.FreshID? && a.id !in s.incidents {
      assert RowsOK(CreateStep(s, a).incidents, s.now);
    }
  }

  lemma WriteKeepsTable(s: State)
    requires TableOK(s) && (s.pc.Confirming? || s.pc.Resolving?)
    ensures TableOK(WriteStep(s))
  {
    assert RowsOK(WriteStep(s).incidents, s.now);
  }

  lemma FailureKeepsTable(s: State)
    requires TableOK(s)
    ensures TableOK(s.(pc := CallFailed(s.pc)))
  {
  }

  lemma NotifyKeepsTable(s: State)
    requires TableOK(s) && (s.pc.Alerting? || s.pc.Announcing?)
    ensures TableOK(NotifyStep(s))
  {
  }

  lemma CallKeepsTable(s: State, a: Answer)
    requires TableOK(s)
    ensures TableOK(Answered(s, a))
  {
    match s.pc
    case Idle =>
    case Loaded(_) =>
    case Counting(_, _, _) => CountKeepsTable(s, a);
    case Recounting(_, _, _, _) => CountKeepsTable(s, a);
    case Lookup(_, _) => LookupKeepsTable(s, a);
    case Checking(_) => CheckKeepsTable(s, a);
    case Creating(_, _) => CreateKeepsTable(s, a);
    case Confirming(_, _, _) => WriteKeepsTable(s);
    case Resolving(_, _, _) => WriteKeepsTable(s);
    case Alerting(_, _) => NotifyKeepsTable(s);
    case Announcing(_, _) => NotifyKeepsTable(s);
  }

  lemma TickKeepsTable(s: State, d: nat)
    requires TableOK(s)
    ensures TableOK(Step(s, Tick(d)))
  {
    assert forall k :: k in s.incidents ==> WellTimed(s.incidents[k], s.now + d);
  }

  lemma TableStep(s: State, e: Event)
    requires TableOK(s)
    ensures TableOK(Step(s, e))
  {
    match e
    case Tick(d) => TickKeepsTable(s, d);
    case Call(ok, a) => if ok { CallKeepsTable(s, a); } else { FailureKeepsTable(s); }
    case _ =>
  }

  lemma {:induction false} TableRun(s: State, es: seq<Event>)
    requires TableOK(s)
    ensures TableOK(Run(s, es))
  {
    if es != [] {
      TableRun(s, es[..|es| - 1]);
      TableStep(Run(s, es[..|es| - 1]), es[|es| - 1]);
    }
  }

  /**
   In every reachable state - whatever calls failed, whatever landed between calls, after any crash -
   each monitor has at most one unresolved incident and every row's times are in order.
   */
  lemma AtMostOneOpenIncident(s0: State, es: seq<Event>)
    requires Init(s0)
    ensures forall a, b :: a in Run(s0, es).incidents && b in Run(s0, es).incidents ==>
      var i, j := Run(s0, es).incidents[a], Run(s0, es).incidents[b];
      i.monitorID == j.monitorID && !i.status.Resolved? && !j.status.Resolved? ==> a == b
    ensures forall k :: k in Run(s0, es).incidents ==> WellTimed(Run(s0, es).incidents[k], Run(s0, es).now)
  {
    TableRun(s0, es);
  }

  /** So ORDER BY created_at DESC LIMIT 1 never has to choose: the active incident is determined. */
  lemma ActiveIncidentIsDetermined(s0: State, es: seq<Event>, m: string, a: Option<Incident>, b: Option<Incident>)
    requires Init(s0)
    requires IsActive(Run(s0, es).incidents, m, a) && IsActive(Run(s0, es).incidents, m, b)
    ensures a == b
  {
    TableRun(s0, es);
  }

  // ---------- lifecycle ----------

  /** What may happen to one row over time. */
  ghost predicate Evolves(i: Incident, j: Incident) {
    && i.id == j.id && i.monitorID == j.monitorID && i.startedAt == j.startedAt && i.createdAt == j.createdAt
    && (j.status.Suspect? ==> i.status.Suspect?)
    && (i.status.Resolved? ==> i == j)
    && (i.confirmedAt != 0 ==> j.confirmedAt == i.confirmedAt && j.confirmingNodes == i.confirmingNodes)
  }

  ghost predicate Forward(before: map<string, Incident>, after: map<string, Incident>) {
    forall k :: k in before ==> k in after && Evolves(before[k], after[k])
  }

  lemma WriteForward(s: State)
    requires TableOK(s) && (s.pc.Confirming? || s.pc.Resolving?)
    ensures Forward(s.incidents, WriteStep(s).incidents)
  {
    assert Evolves(s.pc.inc, WriteStep(s).incidents[s.pc.inc.id]);
  }

  /** Only three calls write the incident table; CreateIncident adds one suspect row. */
  lemma OnlyWritersChangeTable(s: State, e: Event)
    ensures
      (e.Call? && e.ok && (s.pc.Creating? || s.pc.Confirming? || s.pc.Resolving?))
      || Step(s, e).incidents == s.incidents
    ensures
      s.pc.Creating? ==>
        || Step(s, e).incidents == s.incidents
        || (&& e.Call? && e.answer.FreshID? && e.answer.id !in s.incidents
            && Step(s, e).incidents == s.incidents[e.answer.id := NewIncident(e.answer.id, s.pc.job.mon.id, s.now)])
  {
  }

  /** Only the two updates record a verdict. */
  lemma OnlyWritesRecord(s: State, e: Event)
    requires !(e.Call? && e.ok && (s.pc.Confirming? || s.pc.Resolving?))
    ensures Step(s, e).verdicts == s.verdicts
  {
    if e.Call? && e.ok {
      match s.pc
      case Counting(_, _, _) => assert CountStep(s, e.answer).verdicts == s.verdicts;
      case Recounting(_, _, _, _) => assert CountStep(s, e.answer).verdicts == s.verdicts;
      case Lookup(_, _) => assert LookupStep(s, e.answer).verdicts == s.verdicts;
      case Checking(_) => assert LookupStep(s, e.answer).verdicts == s.verdicts;
      case Creating(_, _) => assert CreateStep(s, e.answer).verdicts == s.verdicts;
      case _ =>
    }
  }

  lemma NewRowForward(before: map<string, Incident>, i: Incident)
    requires i.id !in before
    ensures Forward(before, before[i.id := i]) && Forward(before, before)
  {
  }

  lemma ForwardStep(s: State, e: Event)
    requires TableOK(s)
    ensures Forward(s.incidents, Step(s, e).incidents)
  {
    OnlyWritersChangeTable(s, e);
    if e.Call? && e.ok && (s.pc.Confirming? || s.pc.Resolving?) {
      WriteForward(s);
    } else if e.Call? && e.answer.FreshID? && s.pc.Creating? && e.answer.id !in s.incidents {
      NewRowForward(s.incidents, NewIncident(e.answer.id, s.pc.job.mon.id, s.now));
    }
  }

  /**
   Incident lifecycle: from any reachable state on, rows are never deleted, status only moves forward,
   resolved rows never change, identity and start time are fixed, and evidence is written once.
   */
  lemma {:induction false} LifecycleForward(s: State, es: seq<Event>)
    requires TableOK(s)
    ensures Forward(s.incidents, Run(s, es).incidents)
  {
    if es != [] {
      var init := es[..|es| - 1];
      LifecycleForward(s, init);
      TableRun(s, init);
      ForwardStep(Run(s, init), es[|es| - 1]);
    }
  }

  // ---------- locality ----------

  /** The monitor the loop is working on. */
  ghost predicate WorksOn(pc: PC, m: string) {
    !pc.Idle? && !pc.Loaded? && pc.job.mon.id == m
  }

  lemma OnlyNotifiersSend(s: State, e: Event)
    ensures !(e.Call? && e.ok && (s.pc.Alerting? || s.pc.Announcing?)) ==> Step(s, e).trace == s.trace
  {
  }

  /** Everything m's subscribers and dashboards see is as before. */
  ghost predicate SameFor(s: State, t: State, m: string) {
    && (forall k :: k in s.incidents && s.incidents[k].monitorID == m
          ==> k in t.incidents && t.incidents[k] == s.incidents[k])
    && (forall k :: k in t.incidents && t.incidents[k].monitorID == m
          ==> k in s.incidents && t.incidents[k] == s.incidents[k])
    && (|| t.trace == s.trace
        || (&& |t.trace| > 0 && t.trace[..|t.trace| - 1] == s.trace
            && t.trace[|t.trace| - 1].inc.monitorID != m))
  }

  /** Evaluating one monitor never touches another monitor's incidents or notifications. */
  lemma EvaluationIsMonitorLocal(s: State, e: Event, m: string)
    requires TableOK(s) && !WorksOn(s.pc, m)
    ensures SameFor(s, Step(s, e), m)
  {
    OnlyWritersChangeTable(s, e);
    OnlyNotifiersSend(s, e);
    if e.Call? && e.ok {
      match s.pc
      case Confirming(_, _, i) => assert WriteStep(s).incidents == s.incidents[i.id := WriteStep(s).incidents[i.id]];
      case Resolving(_, i, _) => assert WriteStep(s).incidents == s.incidents[i.id := WriteStep(s).incidents[i.id]];
      case Alerting(_, _) => assert NotifyStep(s).trace[..|s.trace|] == s.trace;
      case Announcing(_, _) => assert NotifyStep(s).trace[..|s.trace|] == s.trace;
      case _ =>
    }
  }
}
