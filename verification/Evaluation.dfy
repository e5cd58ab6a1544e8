/**
 One evaluation on a still store: what a pass of the loop decides when nothing lands between its
 calls, and the properties of that decision.
 */
module Evaluation {
  import opened Model
  import opened Streaks
  import opened Quorum
  import opened Protocol
  import opened Incidents

  /** The counting loop over todo, skipping nodes whose query fails. */
  ghost function CountAll(
      log: seq<CheckResult>, mon: Monitor, up: bool, todo: seq<string>, errs: set<string>, seen: seq<Seen>): seq<Seen>
  {
    if todo == [] then seen
    else CountAll(log, mon, up, todo[1..], errs,
           if todo[0] in errs then seen else Note(seen, todo[0], |log|, Newest(Select(log, mon.id, todo[0])), mon, up))
  }

  datatype Outcome = NoChange | Raise(seen: seq<Seen>) | Recover(seen: seq<Seen>)

  ghost function Decide(
    log: seq<CheckResult>, mon: Monitor, online: seq<string>, active: Option<Incident>,
    failErrs: set<string>, upErrs: set<string>): Outcome
  {
    var failing := CountAll(log, mon, false, online, failErrs, []);
    if Met(mon, |failing|, |online|) then
      if active.None? || active.value.status.Suspect? then Raise(failing) else NoChange
    else if active.None? then NoChange
    else
      var recovered := CountAll(log, mon, true, online, upErrs, []);
      if Met(mon, |recovered|, |online|) then Recover(recovered) else NoChange
  }

  /** The unresolved incident of m; there is at most one in a reachable state. */
  ghost function ActiveOf(incidents: map<string, Incident>, m: string): Option<Incident> {
    if exists k :: k in incidents && Open(incidents[k], m) then
      var k :| k in incidents && Open(incidents[k], m);
      Some(incidents[k])
    else None
  }

  /** What an evaluation writes and sends. */
  datatype Ledger = Ledger(incidents: map<string, Incident>, verdicts: seq<Verdict>, trace: seq<Notice>)

  /**
   What an evaluation draws from outside: the id of an incident it creates, and the clock when it creates and when
   it updates.
   */
  datatype Stamp = Stamp(id: string, createdAt: int, writtenAt: int)

  ghost function Apply(
      l: Ledger, mon: Monitor, online: seq<string>, out: Outcome, active: Option<Incident>, st: Stamp): Ledger
  {
    match out
    case NoChange => l
    case Raise(seen) =>
      var suspect := if active.None? then NewIncident(st.id, mon.id, st.createdAt) else active.value;
      var i := ConfirmedIncident(suspect, Nodes(seen), st.writtenAt);
      Ledger(l.incidents[i.id := i], l.verdicts + [Verdict(false, i.id, mon, online, seen)], l.trace + [Alert(i, mon)])
    case Recover(seen) =>
      if active.None? then l
      else
        var i := ResolvedIncident(active.value, st.writtenAt);
        Ledger(
          l.incidents[i.id := i], l.verdicts + [Verdict(true, i.id, mon, online, seen)], l.trace + [Recovery(i, mon)])
  }

  ghost function Evaluate(
    l: Ledger, log: seq<CheckResult>, mon: Monitor, online: seq<string>, st: Stamp,
    failErrs: set<string>, upErrs: set<string>): Ledger
  {
    var active := ActiveOf(l.incidents, mon.id);
    Apply(l, mon, online, Decide(log, mon, online, active, failErrs, upErrs), active, st)
  }

  // ---------- the step machine refines Evaluate ----------

  ghost function Books(s: State): Ledger {
    Ledger(s.incidents, s.verdicts, s.trace)
  }

  /** The books once the current evaluation is over, predicted from any point inside it. */
  ghost function Finish(s: State, job: Job, st: Stamp, failErrs: set<string>, upErrs: set<string>): Ledger {
    var l, mon, online, active := Books(s), job.mon, job.online, ActiveOf(s.incidents, job.mon.id);
    if !OnJob(s.pc, job) then l
    else match s.pc
      case Counting(_, todo, seen) =>
        FinishFailures(s, job, CountAll(s.log, mon, false, todo, failErrs, seen), st, upErrs)
      case Lookup(_, seen) => FinishLookup(s, job, seen, st)
      case Creating(_, seen) => Apply(l, mon, online, Raise(seen), None, st)
      case Confirming(_, seen, i) => Apply(l, mon, online, Raise(seen), Some(i), st)
      case Alerting(_, i) => l.(trace := l.trace + [Alert(i, mon)])
      case Checking(_) => FinishCheck(s, job, active, st, upErrs)
      case Recounting(_, i, todo, seen) =>
        FinishSuccesses(s, job, i, CountAll(s.log, mon, true, todo, upErrs, seen), st)
      case Resolving(_, i, seen) => Apply(l, mon, online, Recover(seen), Some(i), st)
      case Announcing(_, i) => l.(trace := l.trace + [Recovery(i, mon)])
  }

  ghost function FinishFailures(s: State, job: Job, failing: seq<Seen>, st: Stamp, upErrs: set<string>): Ledger {
    if Met(job.mon, |failing|, |job.online|) then FinishLookup(s, job, failing, st)
    else FinishCheck(s, job, ActiveOf(s.incidents, job.mon.id), st, upErrs)
  }

  ghost function FinishLookup(s: State, job: Job, seen: seq<Seen>, st: Stamp): Ledger {
    var active := ActiveOf(s.incidents, job.mon.id);
    if active.None? || active.value.status.Suspect? then Apply(Books(s), job.mon, job.online, Raise(seen), active, st)
    else Books(s)
  }

  ghost function FinishCheck(s: State, job: Job, active: Option<Incident>, st: Stamp, upErrs: set<string>): Ledger {
    if active.None? then Books(s)
    else FinishSuccesses(s, job, active.value, CountAll(s.log, job.mon, true, job.online, upErrs, []), st)
  }

  ghost function FinishSuccesses(s: State, job: Job, i: Incident, recovered: seq<Seen>, st: Stamp): Ledger {
    if Met(job.mon, |recovered|, |job.online|) then
      Apply(Books(s), job.mon, job.online, Recover(recovered), Some(i), st)
    else Books(s)
  }

  /**
   Nothing that the decision reads changes: no result arrives and the loop is not killed, but the clock may
   advance and heartbeats and edits may land. Calls fail exactly for the queries named.
   */
  ghost predicate Quiet(s: State, e: Event, st: Stamp, failErrs: set<string>, upErrs: set<string>) {
    match e
    case Call(ok, answer) => (
      match s.pc
      case Counting(_, todo, _) => todo != [] && (ok <==> todo[0] !in failErrs)
      case Recounting(_, _, todo, _) => todo != [] && (ok <==> todo[0] !in upErrs)
      case Creating(_, _) => ok && answer == FreshID(st.id) && s.now == st.createdAt
      case Confirming(_, _, _) => ok && s.now == st.writtenAt
      case Resolving(_, _, _) => ok && s.now == st.writtenAt
      case _ => ok)
    case Arrive(_) => false
    case Crash => false
    case _ => true
  }

  lemma ActiveOfIsActive(s: State, m: string)
    requires RowsOK(s.incidents, s.now)
    ensures IsActive(s.incidents, m, ActiveOf(s.incidents, m))
    ensures forall a :: IsActive(s.incidents, m, a) ==> a == ActiveOf(s.incidents, m)
  {
    forall a | IsActive(s.incidents, m, a) ensures a == ActiveOf(s.incidents, m) {}
  }

  lemma CountRowsAgree(s: State, m: string, n: string, rows: seq<CheckResult>)
    requires DistinctStampsOf(s.log, m) && IsNewestFirst(s.log, m, n, rows)
    ensures rows == Newest(Select(s.log, m, n))
  {
    NewestSorts(Select(s.log, m, n));
    DeliveryOrderIrrelevant(s.log, s.log, m, n, rows, Newest(Select(s.log, m, n)));
  }

  lemma CountAllStep(
      log: seq<CheckResult>, mon: Monitor, up: bool, todo: seq<string>, errs: set<string>, seen: seq<Seen>)
    requires todo != []
    ensures CountAll(log, mon, up, todo, errs, seen) == CountAll(log, mon, up, todo[1..], errs,
      if todo[0] in errs then seen else Note(seen, todo[0], |log|, Newest(Select(log, mon.id, todo[0])), mon, up))
  {
  }

  lemma FinishFailuresCounted(
      s: State, job: Job, todo: seq<string>, seen: seq<Seen>, st: Stamp, failErrs: set<string>, upErrs: set<string>)
    ensures Finish(s.(pc := FailuresCounted(job, todo, seen)), job, st, failErrs, upErrs)
         == FinishFailures(s, job, CountAll(s.log, job.mon, false, todo, failErrs, seen), st, upErrs)
  {
  }

  lemma FinishSuccessesCounted(
      s: State, job: Job, i: Incident, todo: seq<string>, seen: seq<Seen>, st: Stamp, failErrs: set<string>,
      upErrs: set<string>)
    ensures Finish(s.(pc := SuccessesCounted(job, i, todo, seen)), job, st, failErrs, upErrs)
         == FinishSuccesses(s, job, i, CountAll(s.log, job.mon, true, todo, upErrs, seen), st)
  {
    NextIsOffJob(job);
  }

  lemma FinishCountStep(s: State, job: Job, e: Event, st: Stamp, failErrs: set<string>, upErrs: set<string>)
    requires DistinctStampsOf(s.log, job.mon.id) && OnJob(s.pc, job) && (s.pc.Counting? || s.pc.Recounting?) && e.Call?
    requires Quiet(s, e, st, failErrs, upErrs)
    ensures Finish(Step(s, e), job, st, failErrs, upErrs) == Finish(s, job, st, failErrs, upErrs)
  {
    var todo, up := s.pc.todo, s.pc.Recounting?;
    var n := todo[0];
    CountAllStep(s.log, job.mon, up, todo, if up then upErrs else failErrs, s.pc.seen);
    if e.ok && e.answer.Rows? && IsNewestFirst(s.log, job.mon.id, n, e.answer.rows) {
      CountRowsAgree(s, job.mon.id, n, e.answer.rows);
      var seen' := Note(s.pc.seen, n, |s.log|, e.answer.rows, job.mon, up);
      if up {
        FinishSuccessesCounted(s, job, s.pc.inc, todo[1..], seen', st, failErrs, upErrs);
      } else {
        FinishFailuresCounted(s, job, todo[1..], seen', st, failErrs, upErrs);
      }
    } else if !e.ok {
      if up {
        FinishSuccessesCounted(s, job, s.pc.inc, todo[1..], s.pc.seen, st, failErrs, upErrs);
      } else {
        FinishFailuresCounted(s, job, todo[1..], s.pc.seen, st, failErrs, upErrs);
      }
    }
  }

  lemma FinishLookupStep(s: State, job: Job, e: Event, st: Stamp, failErrs: set<string>, upErrs: set<string>)
    requires TableOK(s) && OnJob(s.pc, job) && s.pc.Lookup? && e.Call?
    requires Quiet(s, e, st, failErrs, upErrs)
    ensures Finish(Step(s, e), job, st, failErrs, upErrs) == Finish(s, job, st, failErrs, upErrs)
  {
    NextIsOffJob(job);
    if e.answer.Active? && IsActive(s.incidents, job.mon.id, e.answer.found) {
      ActiveOfIsActive(s, job.mon.id);
      assert e.answer.found == ActiveOf(s.incidents, job.mon.id);
    }
  }

  lemma FinishCheckStep(s: State, job: Job, e: Event, st: Stamp, failErrs: set<string>, upErrs: set<string>)
    requires TableOK(s) && OnJob(s.pc, job) && s.pc.Checking? && e.Call?
    requires Quiet(s, e, st, failErrs, upErrs)
    ensures Finish(Step(s, e), job, st, failErrs, upErrs) == Finish(s, job, st, failErrs, upErrs)
  {
    NextIsOffJob(job);
    if e.answer.Active? && IsActive(s.incidents, job.mon.id, e.answer.found) {
      ActiveOfIsActive(s, job.mon.id);
      assert e.answer.found == ActiveOf(s.incidents, job.mon.id);
      if e.answer.found.Some? {
        FinishSuccessesCounted(s, job, e.answer.found.value, job.online, [], st, failErrs, upErrs);
      }
    }
  }

  lemma FinishStep(s: State, job: Job, e: Event, st: Stamp, failErrs: set<string>, upErrs: set<string>)
    requires TableOK(s) && DistinctStampsOf(s.log, job.mon.id) && OnJob(s.pc, job) && Quiet(s, e, st, failErrs, upErrs)
    requires e.Call? && s.pc.Creating? ==> st.id !in s.incidents
    ensures Finish(Step(s, e), job, st, failErrs, upErrs) == Finish(s, job, st, failErrs, upErrs)
  {
    if e.Call? { FinishCall(s, job, e, st, failErrs, upErrs); }
  }

  lemma FinishCall(s: State, job: Job, e: Event, st: Stamp, failErrs: set<string>, upErrs: set<string>)
    requires TableOK(s) && DistinctStampsOf(s.log, job.mon.id) && OnJob(s.pc, job) && e.Call?
    requires Quiet(s, e, st, failErrs, upErrs)
    requires s.pc.Creating? ==> st.id !in s.incidents
    ensures Finish(Step(s, e), job, st, failErrs, upErrs) == Finish(s, job, st, failErrs, upErrs)
  {
    NextIsOffJob(job);
    match s.pc
    case Counting(_, _, _) => FinishCountStep(s, job, e, st, failErrs, upErrs);
    case Recounting(_, _, _, _) => FinishCountStep(s, job, e, st, failErrs, upErrs);
    case Lookup(_, _) => FinishLookupStep(s, job, e, st, failErrs, upErrs);
    case Checking(_) => FinishCheckStep(s, job, e, st, failErrs, upErrs);
    case Creating(_, seen) =>
      var i := NewIncident(st.id, job.mon.id, st.createdAt);
      var confirmed := ConfirmedIncident(i, Nodes(seen), st.writtenAt);
      assert s.incidents[st.id := i][st.id := confirmed] == s.incidents[st.id := confirmed];
    case _ =>
  }

  /** Every event of es is quiet where it happens, and the evaluation of job lasts until the end of es. */
  ghost predicate QuietRun(s: State, es: seq<Event>, job: Job, st: Stamp, failErrs: set<string>, upErrs: set<string>) {
    forall i :: 0 <= i < |es| ==> OnJob(Run(s, es[..i]).pc, job) && Quiet(Run(s, es[..i]), es[i], st, failErrs, upErrs)
  }

  /** Points of an evaluation that no write of it precedes. */
  ghost predicate BeforeWrites(pc: PC, job: Job) {
    OnJob(pc, job) && (pc.Counting? || pc.Lookup? || pc.Creating?)
  }

  lemma {:induction false} FinishIsConstant(
      s: State, es: seq<Event>, job: Job, st: Stamp, failErrs: set<string>, upErrs: set<string>)
    requires TableOK(s) && DistinctStampsOf(s.log, job.mon.id) && st.id !in s.incidents
    requires QuietRun(s, es, job, st, failErrs, upErrs)
    ensures Run(s, es).log == s.log
    ensures Finish(Run(s, es), job, st, failErrs, upErrs) == Finish(s, job, st, failErrs, upErrs)
    ensures BeforeWrites(Run(s, es).pc, job) ==> Run(s, es).incidents == s.incidents
  {
    if es != [] {
      var init, last := es[..|es| - 1], es[|es| - 1];
      assert forall i :: 0 <= i < |init| ==> init[..i] == es[..i];
      assert es[..|es| - 1] == init;
      FinishIsConstant(s, init, job, st, failErrs, upErrs);
      TableRun(s, init);
      var t := Run(s, init);
      FinishStep(t, job, last, st, failErrs, upErrs);
      OnlyArrivalsGrowLog(t, last);
      if BeforeWrites(Run(s, es).pc, job) { QuietStepBeforeWrites(t, last, job); }
    }
  }

  lemma CallKeepsLog(s: State, a: Answer)
    ensures Answered(s, a).log == s.log
  {
    match s.pc
    case Counting(_, _, _) => assert CountStep(s, a).log == s.log;
    case Recounting(_, _, _, _) => assert CountStep(s, a).log == s.log;
    case Lookup(_, _) => assert LookupStep(s, a).log == s.log;
    case Checking(_) => assert LookupStep(s, a).log == s.log;
    case Creating(_, _) => assert CreateStep(s, a).log == s.log;
    case _ =>
  }

  lemma OnlyArrivalsGrowLog(s: State, e: Event)
    requires !e.Arrive?
    ensures Step(s, e).log == s.log
  {
    if e.Call? && e.ok { CallKeepsLog(s, e.answer); }
  }

  lemma QuietStepBeforeWrites(s: State, e: Event, job: Job)
    requires OnJob(s.pc, job) && BeforeWrites(Step(s, e).pc, job)
    ensures Step(s, e).incidents == s.incidents && BeforeWrites(s.pc, job)
  {
    NextIsOffJob(job);
    OnlyWritersChangeTable(s, e);
    match s.pc
    case Recounting(_, i, todo, seen) =>
    case Confirming(_, _, _) =>
    case Resolving(_, _, _) =>
    case Checking(_) =>
    case _ =>
  }

  /**
   Refinement: whatever way the store breaks ties, whichever count queries fail, and while the clock runs
   and heartbeats and edits land, the single calls of one evaluation end in exactly the atomic Evaluate.
   */
  lemma QuietEvaluationIsAtomic(
      s: State, es: seq<Event>, job: Job, st: Stamp, failErrs: set<string>, upErrs: set<string>)
    requires TableOK(s) && DistinctStampsOf(s.log, job.mon.id) && st.id !in s.incidents
    requires s.pc == Counting(job, job.online, [])
    requires QuietRun(s, es, job, st, failErrs, upErrs) && !OnJob(Run(s, es).pc, job)
    ensures Books(Run(s, es)) == Evaluate(Books(s), s.log, job.mon, job.online, st, failErrs, upErrs)
  {
    FinishIsConstant(s, es, job, st, failErrs, upErrs);
  }
}
