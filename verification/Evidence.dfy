/** Every verdict is backed by counted streaks, and two opposite verdicts by fresh results. */
module Evidence {
  import opened Model
  import opened Streaks
  import opened Quorum
  import opened Protocol

  /** Each listed node was online, was listed once, and had the required streak when it was counted. */
  ghost predicate Backed(log: seq<CheckResult>, mon: Monitor, up: bool, online: seq<string>, seen: seq<Seen>) {
    && (forall i, j :: 0 <= i < j < |seen| ==> seen[i].node != seen[j].node)
    && forall i :: 0 <= i < |seen| ==> SeenOK(log, mon, up, online, seen[i])
  }

  ghost predicate SeenOK(log: seq<CheckResult>, mon: Monitor, up: bool, online: seq<string>, n: Seen) {
    && n.node in online
    && n.at <= |log|
    && IsNewestFirst(log[..n.at], mon.id, n.node, n.rows)
    && Counted(n.rows, up) >= Threshold(mon, up)
  }

  ghost predicate VerdictOK(log: seq<CheckResult>, mon: Monitor, up: bool, online: seq<string>, seen: seq<Seen>) {
    Backed(log, mon, up, online, seen) && Met(mon, |seen|, |online|) && NoDup(online)
  }

  /** todo is what remains of online and none of it has been counted yet. */
  ghost predicate Remaining(online: seq<string>, todo: seq<string>, seen: seq<Seen>) {
    && NoDup(online) && NoDup(todo)
    && (forall i :: 0 <= i < |todo| ==> todo[i] in online)
    && (forall i, j :: 0 <= i < |seen| && 0 <= j < |todo| ==> seen[i].node != todo[j])
  }

  ghost predicate PcBacked(log: seq<CheckResult>, pc: PC) {
    match pc
    case Counting(job, todo, seen) => Remaining(job.online, todo, seen) && Backed(log, job.mon, false, job.online, seen)
    case Recounting(job, _, todo, seen) =>
      Remaining(job.online, todo, seen) && Backed(log, job.mon, true, job.online, seen)
    case Lookup(job, seen) => VerdictOK(log, job.mon, false, job.online, seen)
    case Creating(job, seen) => VerdictOK(log, job.mon, false, job.online, seen)
    case Confirming(job, seen, _) => VerdictOK(log, job.mon, false, job.online, seen)
    case Resolving(job, _, seen) => VerdictOK(log, job.mon, true, job.online, seen)
    case Idle => true
    case Loaded(_) => true
    case _ => NoDup(pc.job.online)
  }

  ghost predicate NotAfter(a: seq<Seen>, b: seq<Seen>) {
    forall i, j :: 0 <= i < |a| && 0 <= j < |b| ==> a[i].at <= b[j].at
  }

  function Pending(pc: PC): seq<Seen> {
    if pc.Counting? || pc.Recounting? || pc.Lookup? || pc.Creating? || pc.Confirming? || pc.Resolving? then pc.seen
    else []
  }

  /** Verdicts are backed and recorded in the order their counts were taken. */
  ghost predicate HistoryOK(log: seq<CheckResult>, verdicts: seq<Verdict>, pending: seq<Seen>) {
    && (forall i :: 0 <= i < |verdicts| ==>
          && VerdictOK(log, verdicts[i].mon, verdicts[i].up, verdicts[i].online, verdicts[i].seen)
          && NotAfter(verdicts[i].seen, pending))
    && (forall i, j :: 0 <= i < j < |verdicts| ==> NotAfter(verdicts[i].seen, verdicts[j].seen))
  }

  ghost predicate EvidenceOK(s: State) {
    PcBacked(s.log, s.pc) && HistoryOK(s.log, s.verdicts, Pending(s.pc))
  }

  lemma SeenSurvives(
      log: seq<CheckResult>, r: CheckResult, mon: Monitor, up: bool, online: seq<string>, seen: seq<Seen>)
    requires Backed(log, mon, up, online, seen)
    ensures Backed(log + [r], mon, up, online, seen)
  {
    forall i | 0 <= i < |seen| ensures SeenOK(log + [r], mon, up, online, seen[i]) {
      assert SeenOK(log, mon, up, online, seen[i]);
      assert (log + [r])[..seen[i].at] == log[..seen[i].at];
    }
  }

  lemma ArriveKeepsEvidence(s: State, r: CheckResult)
    requires EvidenceOK(s)
    ensures EvidenceOK(Step(s, Arrive(r)))
  {
    forall i | 0 <= i < |s.verdicts|
      ensures Backed(s.log + [r], s.verdicts[i].mon, s.verdicts[i].up, s.verdicts[i].online, s.verdicts[i].seen)
    {
      SeenSurvives(s.log, r, s.verdicts[i].mon, s.verdicts[i].up, s.verdicts[i].online, s.verdicts[i].seen);
    }
    if s.pc.Counting? || s.pc.Recounting? || s.pc.Lookup? || s.pc.Creating? || s.pc.Confirming? || s.pc.Resolving? {
      SeenSurvives(s.log, r, s.pc.job.mon, s.pc.Recounting? || s.pc.Resolving?, s.pc.job.online, s.pc.seen);
    }
  }

  lemma NoteBacked(
    log: seq<CheckResult>, mon: Monitor, up: bool, online: seq<string>, todo: seq<string>, seen: seq<Seen>,
    rows: seq<CheckResult>)
    requires todo != [] && Remaining(online, todo, seen) && Backed(log, mon, up, online, seen)
    requires IsNewestFirst(log, mon.id, todo[0], rows)
    ensures Remaining(online, todo[1..], Note(seen, todo[0], |log|, rows, mon, up))
    ensures Backed(log, mon, up, online, Note(seen, todo[0], |log|, rows, mon, up))
  {
    assert log[..|log|] == log;
    if Counted(rows, up) >= Threshold(mon, up) {
      assert SeenOK(log, mon, up, online, Seen(todo[0], |log|, rows));
    }
  }

  lemma NoteIsLatest(
      log: seq<CheckResult>, verdicts: seq<Verdict>, seen: seq<Seen>, node: string, rows: seq<CheckResult>,
      mon: Monitor, up: bool)
    requires HistoryOK(log, verdicts, seen)
    ensures HistoryOK(log, verdicts, Note(seen, node, |log|, rows, mon, up))
  {
    forall i | 0 <= i < |verdicts| ensures NotAfter(verdicts[i].seen, Note(seen, node, |log|, rows, mon, up)) {
      var v := verdicts[i];
      forall j | 0 <= j < |v.seen| ensures v.seen[j].at <= |log| {
        assert SeenOK(log, v.mon, v.up, v.online, v.seen[j]);
      }
    }
  }

  /** The loop moves on: its pending counts are kept or dropped. */
  lemma Move(s: State, seen: seq<Seen>, pc: PC)
    requires HistoryOK(s.log, s.verdicts, seen) && PcBacked(s.log, pc)
    requires Pending(pc) == seen || Pending(pc) == []
    ensures EvidenceOK(s.(pc := pc))
  {
  }

  lemma NextBacked(log: seq<CheckResult>, job: Job)
    requires NoDup(job.online)
    ensures PcBacked(log, Next(job)) && Pending(Next(job)) == []
  {
  }

  lemma FailuresCountedBacked(log: seq<CheckResult>, job: Job, todo: seq<string>, seen: seq<Seen>)
    requires Remaining(job.online, todo, seen) && Backed(log, job.mon, false, job.online, seen)
    ensures PcBacked(log, FailuresCounted(job, todo, seen))
    ensures Pending(FailuresCounted(job, todo, seen)) == seen || Pending(FailuresCounted(job, todo, seen)) == []
  {
  }

  lemma SuccessesCountedBacked(log: seq<CheckResult>, job: Job, inc: Incident, todo: seq<string>, seen: seq<Seen>)
    requires Remaining(job.online, todo, seen) && Backed(log, job.mon, true, job.online, seen)
    ensures PcBacked(log, SuccessesCounted(job, inc, todo, seen))
    ensures
      || Pending(SuccessesCounted(job, inc, todo, seen)) == seen
      || Pending(SuccessesCounted(job, inc, todo, seen)) == []
  {
    NextBacked(log, job);
  }

  lemma CountFailureKeepsEvidence(s: State, a: Answer)
    requires EvidenceOK(s) && s.pc.Counting?
    ensures EvidenceOK(CountStep(s, a))
  {
    var job, todo, seen := s.pc.job, s.pc.todo, s.pc.seen;
    if todo != [] && a.Rows? && IsNewestFirst(s.log, job.mon.id, todo[0], a.rows) {
      NoteBacked(s.log, job.mon, false, job.online, todo, seen, a.rows);
      NoteIsLatest(s.log, s.verdicts, seen, todo[0], a.rows, job.mon, false);
      var seen' := Note(seen, todo[0], |s.log|, a.rows, job.mon, false);
      FailuresCountedBacked(s.log, job, todo[1..], seen');
      Move(s, seen', FailuresCounted(job, todo[1..], seen'));
    }
  }

  lemma CountSuccessKeepsEvidence(s: State, a: Answer)
    requires EvidenceOK(s) && s.pc.Recounting?
    ensures EvidenceOK(CountStep(s, a))
  {
    var job, inc, todo, seen := s.pc.job, s.pc.inc, s.pc.todo, s.pc.seen;
    if todo != [] && a.Rows? && IsNewestFirst(s.log, job.mon.id, todo[0], a.rows) {
      NoteBacked(s.log, job.mon, true, job.online, todo, seen, a.rows);
      NoteIsLatest(s.log, s.verdicts, seen, todo[0], a.rows, job.mon, true);
      var seen' := Note(seen, todo[0], |s.log|, a.rows, job.mon, true);
      SuccessesCountedBacked(s.log, job, inc, todo[1..], seen');
      Move(s, seen', SuccessesCounted(job, inc, todo[1..], seen'));
    }
  }

  lemma LookupKeepsEvidence(s: State, a: Answer)
    requires EvidenceOK(s) && s.pc.Lookup?
    ensures EvidenceOK(LookupStep(s, a))
  {
    NextBacked(s.log, s.pc.job);
    var pc := LookupStep(s, a).pc;
    assert LookupStep(s, a) == s.(pc := pc);
    Move(s, s.pc.seen, pc);
  }

  lemma CheckKeepsEvidence(s: State, a: Answer)
    requires EvidenceOK(s) && s.pc.Checking?
    ensures EvidenceOK(LookupStep(s, a))
  {
    var job := s.pc.job;
    if a.Active? && IsActive(s.incidents, job.mon.id, a.found) {
      if a.found.Some? {
        SuccessesCountedBacked(s.log, job, a.found.value, job.online, []);
        Move(s, [], SuccessesCounted(job, a.found.value, job.online, []));
      } else {
        NextBacked(s.log, job);
        Move(s, [], Next(job));
      }
    }
  }

  lemma CreateKeepsEvidence(s: State, a: Answer)
    requires EvidenceOK(s) && s.pc.Creating?
    ensures EvidenceOK(CreateStep(s, a))
  {
    NextBacked(s.log, s.pc.job);
    Move(s, s.pc.seen, CreateStep(s, a).pc);
  }

  lemma NotifyKeepsEvidence(s: State)
    requires EvidenceOK(s) && (s.pc.Alerting? || s.pc.Announcing?)
    ensures EvidenceOK(NotifyStep(s))
  {
    NextBacked(s.log, s.pc.job);
    Move(s, [], Next(s.pc.job));
  }

  lemma WriteKeepsEvidence(s: State)
    requires EvidenceOK(s) && (s.pc.Confirming? || s.pc.Resolving?)
    ensures EvidenceOK(WriteStep(s))
  {
    var vs := WriteStep(s).verdicts;
    assert forall i :: 0 <= i < |s.verdicts| ==> vs[i] == s.verdicts[i];
  }

  lemma FailedCallKeepsEvidence(s: State)
    requires EvidenceOK(s)
    ensures EvidenceOK(s.(pc := CallFailed(s.pc)))
  {
    match s.pc
    case Idle =>
    case Loaded(_) =>
    case Counting(job, todo, seen) => if todo != [] { FailuresCountedBacked(s.log, job, todo[1..], seen); }
    case Recounting(job, inc, todo, seen) => if todo != [] { SuccessesCountedBacked(s.log, job, inc, todo[1..], seen); }
    case _ => NextBacked(s.log, s.pc.job);
    Move(s, Pending(s.pc), CallFailed(s.pc));
  }

  lemma CallKeepsEvidence(s: State, a: Answer)
    requires EvidenceOK(s)
    ensures EvidenceOK(Answered(s, a))
  {
    match s.pc
    case Counting(_, _, _) => CountFailureKeepsEvidence(s, a);
    case Recounting(_, _, _, _) => CountSuccessKeepsEvidence(s, a);
    case Lookup(_, _) => LookupKeepsEvidence(s, a);
    case Checking(_) => CheckKeepsEvidence(s, a);
    case Confirming(_, _, _) => WriteKeepsEvidence(s);
    case Resolving(_, _, _) => WriteKeepsEvidence(s);
    case Creating(_, _) => CreateKeepsEvidence(s, a);
    case Alerting(_, _) => NotifyKeepsEvidence(s);
    case Announcing(_, _) => NotifyKeepsEvidence(s);
    case Idle =>
    case Loaded(_) =>
  }

  lemma EvidenceStep(s: State, e: Event)
    requires EvidenceOK(s)
    ensures EvidenceOK(Step(s, e))
  {
    match e
    case Arrive(r) => ArriveKeepsEvidence(s, r);
    case Call(ok, a) => if ok { CallKeepsEvidence(s, a); } else { FailedCallKeepsEvidence(s); }
    case _ => Move(s, Pending(s.pc), if e.Crash? then Idle else s.pc);
  }

  lemma {:induction false} EvidenceRun(s: State, es: seq<Event>)
    requires EvidenceOK(s)
    ensures EvidenceOK(Run(s, es))
  {
    if es != [] {
      EvidenceRun(s, es[..|es| - 1]);
      EvidenceStep(Run(s, es[..|es| - 1]), es[|es| - 1]);
    }
  }
}
