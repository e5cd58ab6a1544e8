/** A run in which failed reads alone resolve a live incident, for every rule whose quorums need not overlap. */
module Flapping {
  import opened Model
  import opened Streaks
  import opened Quorum
  import opened Protocol
  import opened Incidents
  import opened Evaluation
  import opened Decisions
  import opened ReadErrors

  // ---------- an evaluation can always be run to its end ----------

  /** The call the loop makes next, with an answer the store can give. */
  ghost function NextCall(s: State, st: Stamp, errs: set<string>): Event {
    match s.pc
    case Counting(job, todo, _) =>
      if todo == [] || todo[0] in errs then Call(false, Nothing)
      else Call(true, Rows(Newest(Select(s.log, job.mon.id, todo[0]))))
    case Recounting(job, _, todo, _) =>
      if todo == [] then Call(false, Nothing) else Call(true, Rows(Newest(Select(s.log, job.mon.id, todo[0]))))
    case Lookup(job, _) => Call(true, Active(ActiveOf(s.incidents, job.mon.id)))
    case Checking(job) => Call(true, Active(ActiveOf(s.incidents, job.mon.id)))
    case Creating(_, _) => Call(true, FreshID(st.id))
    case _ => Call(true, Nothing)
  }

  function Left(pc: PC): nat {
    match pc
    case Counting(job, todo, _) => 10 + |job.online| + |todo|
    case Lookup(_, _) => 9
    case Creating(_, _) => 8
    case Confirming(_, _, _) => 7
    case Checking(job) => 9 + |job.online|
    case Recounting(_, _, todo, _) => 5 + |todo|
    case Resolving(_, _, _) => 4
    case _ => 1
  }

  predicate NotStuck(pc: PC) {
    (pc.Counting? || pc.Recounting?) ==> pc.todo != []
  }

  /** The evaluation of job is under way, or has just ended. */
  ghost predicate Progress(s: State, job: Job, s': State) {
    s'.log == s.log && s'.now == s.now && s'.nodes == s.nodes && s'.monitors == s.monitors
    && (s'.pc == Next(job) || (OnJob(s'.pc, job) && NotStuck(s'.pc) && Left(s'.pc) < Left(s.pc)))
  }

  lemma FailuresProgress(job: Job, todo: seq<string>, seen: seq<Seen>, pc: PC)
    requires pc == FailuresCounted(job, todo, seen)
    ensures OnJob(pc, job) && NotStuck(pc) && Left(pc) < 11 + |job.online| + |todo|
  {
  }

  lemma SuccessesProgress(job: Job, inc: Incident, todo: seq<string>, seen: seq<Seen>, pc: PC)
    requires pc == SuccessesCounted(job, inc, todo, seen)
    ensures pc == Next(job) || (OnJob(pc, job) && NotStuck(pc) && Left(pc) < 6 + |todo|)
  {
  }

  lemma FailureCountProgress(s: State, job: Job, st: Stamp, errs: set<string>)
    requires OnJob(s.pc, job) && NotStuck(s.pc) && s.pc.Counting?
    ensures Progress(s, job, Step(s, NextCall(s, st, errs)))
  {
    var todo, seen, n := s.pc.todo[1..], s.pc.seen, s.pc.todo[0];
    var rows := Newest(Select(s.log, job.mon.id, n));
    NewestSorts(Select(s.log, job.mon.id, n));
    var seen' := if n in errs then seen else Note(seen, n, |s.log|, rows, job.mon, false);
    FailuresProgress(job, todo, seen', FailuresCounted(job, todo, seen'));
    assert Step(s, NextCall(s, st, errs)) == s.(pc := FailuresCounted(job, todo, seen'));
  }

  lemma SuccessCountProgress(s: State, job: Job, st: Stamp, errs: set<string>)
    requires OnJob(s.pc, job) && NotStuck(s.pc) && s.pc.Recounting?
    ensures Progress(s, job, Step(s, NextCall(s, st, errs)))
  {
    var todo, n := s.pc.todo[1..], s.pc.todo[0];
    var rows := Newest(Select(s.log, job.mon.id, n));
    NewestSorts(Select(s.log, job.mon.id, n));
    var seen' := Note(s.pc.seen, n, |s.log|, rows, job.mon, true);
    SuccessesProgress(job, s.pc.inc, todo, seen', SuccessesCounted(job, s.pc.inc, todo, seen'));
    assert Step(s, NextCall(s, st, errs)) == s.(pc := SuccessesCounted(job, s.pc.inc, todo, seen'));
  }

  lemma LookupProgress(s: State, job: Job, st: Stamp, errs: set<string>)
    requires TableOK(s) && OnJob(s.pc, job) && (s.pc.Lookup? || s.pc.Checking?)
    ensures Progress(s, job, Step(s, NextCall(s, st, errs)))
  {
    ActiveOfIsActive(s, job.mon.id);
  }

  lemma CallProgress(s: State, job: Job, st: Stamp, errs: set<string>)
    requires TableOK(s) && OnJob(s.pc, job) && NotStuck(s.pc) && s.now == st.createdAt == st.writtenAt
    ensures Progress(s, job, Step(s, NextCall(s, st, errs))) && Quiet(s, NextCall(s, st, errs), st, errs, {})
    ensures errs == {} ==> NextCall(s, st, errs).ok
  {
    match s.pc
    case Counting(_, _, _) => FailureCountProgress(s, job, st, errs);
    case Recounting(_, _, _, _) => SuccessCountProgress(s, job, st, errs);
    case Lookup(_, _) => LookupProgress(s, job, st, errs);
    case Checking(_) => LookupProgress(s, job, st, errs);
    case _ =>
  }

  /** Nothing but calls of the loop, and none fails except failure counts. */
  ghost predicate OnlyCountsFail(s: State, es: seq<Event>) {
    forall i :: 0 <= i < |es| ==> es[i].Call? && (es[i].ok || Run(s, es[..i]).pc.Counting?)
  }

  lemma OnlyCountsFailAppend(s: State, es: seq<Event>, fs: seq<Event>)
    requires OnlyCountsFail(s, es) && OnlyCountsFail(Run(s, es), fs)
    ensures OnlyCountsFail(s, es + fs)
  {
    var all := es + fs;
    forall i | 0 <= i < |all| ensures all[i].Call? && (all[i].ok || Run(s, all[..i]).pc.Counting?) {
      if i < |es| {
        assert all[..i] == es[..i];
      } else {
        assert all[..i] == es + fs[..i - |es|];
        RunAppend(s, es, fs[..i - |es|]);
      }
    }
  }

  lemma OnlyCountsFailOne(s: State, e: Event)
    requires e.Call? && (e.ok || s.pc.Counting?)
    ensures OnlyCountsFail(s, [e])
  {
    assert [e][..0] == [];
  }

  lemma QuietRunSnoc(s: State, es: seq<Event>, e: Event, job: Job, st: Stamp, errs: set<string>)
    requires QuietRun(s, es, job, st, errs, {})
    requires OnJob(Run(s, es).pc, job) && Quiet(Run(s, es), e, st, errs, {})
    ensures QuietRun(s, es + [e], job, st, errs, {}) && Run(s, es + [e]) == Step(Run(s, es), e)
  {
    var es' := es + [e];
    assert es'[..|es|] == es;
    assert forall i :: 0 <= i < |es| ==> es'[..i] == es[..i] && es'[i] == es[i];
  }

  /** From its first count an evaluation runs to its end without interference, failing just the counts in errs. */
  lemma {:induction false} Completes(s: State, job: Job, st: Stamp, errs: set<string>) returns (es: seq<Event>)
    requires TableOK(s) && s.pc == Counting(job, job.online, []) && job.online != []
    requires s.now == st.createdAt == st.writtenAt
    ensures QuietRun(s, es, job, st, errs, {}) && OnlyCountsFail(s, es) && (errs == {} ==> Faultless(es))
    ensures var t := Run(s, es);
      t.pc == Next(job) && t.log == s.log && t.now == s.now && t.nodes == s.nodes && t.monitors == s.monitors
  {
    es := [];
    while Run(s, es).pc != Next(job)
      invariant QuietRun(s, es, job, st, errs, {}) && OnlyCountsFail(s, es) && (errs == {} ==> Faultless(es))
      invariant var t := Run(s, es);
        && t.log == s.log && t.now == s.now && t.nodes == s.nodes && t.monitors == s.monitors
        && (t.pc == Next(job) || (OnJob(t.pc, job) && NotStuck(t.pc)))
      decreases Run(s, es).pc != Next(job), Left(Run(s, es).pc)
    {
      var t := Run(s, es);
      var e := NextCall(t, st, errs);
      TableRun(s, es);
      CallProgress(t, job, st, errs);
      QuietRunSnoc(s, es, e, job, st, errs);
      OnlyCountsFailOne(t, e);
      OnlyCountsFailAppend(s, es, [e]);
      es := es + [e];
    }
  }

  // ---------- one tick for one monitor ----------

  /** A store with one enabled monitor and the given nodes online, its coordinator between two ticks. */
  ghost predicate Resting(s: State, mon: Monitor, online: seq<string>, log: seq<CheckResult>) {
    && TableOK(s) && s.pc.Idle? && s.log == log && DistinctStamps(log)
    && mon.enabled && s.monitors == map[mon.id := mon] && IsOnlineList(online, s.nodes) && online != []
  }

  lemma ListsAnswered(s: State, mon: Monitor, online: seq<string>)
    requires s.pc.Idle? && mon.enabled && s.monitors == map[mon.id := mon] && IsOnlineList(online, s.nodes)
    requires online != []
    ensures OnlyCountsFail(s, [Call(true, Monitors([mon]))] + [Call(true, OnlineNodes(online))])
    ensures Run(s, [Call(true, Monitors([mon]))] + [Call(true, OnlineNodes(online))])
         == s.(pc := Counting(Job(mon, [], online), online, []))
  {
    var a, b := Call(true, Monitors([mon])), Call(true, OnlineNodes(online));
    assert mon.id in s.monitors && IsEnabledList([mon], s.monitors);
    assert ([a] + [b])[..1] == [a] && [a][..0] == [];
    assert Run(s, []) == s && Run(s, [a]) == s.(pc := Loaded([mon]));
    assert [mon][1..] == [];
    OnlyCountsFailOne(s, a);
    OnlyCountsFailOne(Run(s, [a]), b);
    OnlyCountsFailAppend(s, [a], [b]);
  }

  /** A tick whose counts fail for errs ends in the atomic evaluation with those errors. */
  lemma OneTickRuns(s: State, mon: Monitor, online: seq<string>, log: seq<CheckResult>, id: string, errs: set<string>)
    returns (es: seq<Event>)
    requires Resting(s, mon, online, log) && id !in s.incidents
    ensures OnlyCountsFail(s, es) && (errs == {} ==> Faultless(es))
    ensures Resting(Run(s, es), mon, online, log) && Run(s, es).now == s.now
    ensures Books(Run(s, es)) == Evaluate(Books(s), log, mon, online, Stamp(id, s.now, s.now), errs, {})
  {
    var heads := [Call(true, Monitors([mon]))] + [Call(true, OnlineNodes(online))];
    var job, st := Job(mon, [], online), Stamp(id, s.now, s.now);
    ListsAnswered(s, mon, online);
    var t := Run(s, heads);
    var rest := Completes(t, job, st, errs);
    QuietEvaluationIsAtomic(t, rest, job, st, errs, {});
    RunAppend(s, heads, rest);
    OnlyCountsFailAppend(s, heads, rest);
    TableRun(s, heads + rest);
    es := heads + rest;
  }

  // ---------- flapping ----------

  /** The incident table and the notices after one alert. */
  ghost predicate Alerted(l: Ledger, mon: Monitor, i: Incident) {
    l.incidents == map[i.id := i] && i.status.Confirmed? && i.monitorID == mon.id && l.trace == [Alert(i, mon)]
  }

  /** Two quorums and the rest of the nodes, with thresholds the query can reach. */
  ghost predicate Split(mon: Monitor, down: seq<string>, up: seq<string>, rest: seq<string>) {
    && 1 <= mon.failureThreshold <= LIMIT && 1 <= mon.recoveryThreshold <= LIMIT
    && NoDup(down + up) && |down| == |up| == Need(mon, |down + up + rest|) && 1 <= |down|
  }

  /** A failing quorum makes the first evaluation alert. */
  lemma QuorumAlerts(log: seq<CheckResult>, mon: Monitor, online: seq<string>, st: Stamp) returns (i: Incident)
    requires |Passing(log, mon, false, online, {})| >= Need(mon, |online|)
    ensures i.id == st.id && Alerted(Evaluate(Ledger(map[], [], []), log, mon, online, st, {}, {}), mon, i)
  {
    CountSize(log, mon, false, online, {});
    var failing := CountAll(log, mon, false, online, {}, []);
    MetIffAtLeastNeed(mon, |failing|, |online|);
    assert ActiveOf(map[], mon.id) == None;
    i := ConfirmedIncident(NewIncident(st.id, mon.id, st.createdAt), Nodes(failing), st.writtenAt);
  }

  /** With the down half's answers lost, the next evaluation of the same log resolves the incident. */
  lemma LostAnswersRecover(
      l: Ledger, mon: Monitor, down: seq<string>, up: seq<string>, rest: seq<string>, i: Incident, st: Stamp)
    requires Split(mon, down, up, rest) && Alerted(l, mon, i)
    ensures var l' := Evaluate(l, SplitLog(mon, down, up), mon, down + up + rest, st, Elements(down), {});
      l'.trace == [Alert(i, mon)] + [Recovery(ResolvedIncident(i, st.writtenAt), mon)]
    ensures Evaluate(l, SplitLog(mon, down, up), mon, down + up + rest, st, {}, {}) == l
  {
    var log, online := SplitLog(mon, down, up), down + up + rest;
    SplitLogCounts(mon, down, up, rest);
    LostAnswersResolve(log, mon, online, i, Elements(down), Need(mon, |online|));
    assert i.id in l.incidents && Open(l.incidents[i.id], mon.id);
    assert ActiveOf(l.incidents, mon.id) == Some(i);
  }

  /** The error-free evaluation, with whatever id and times, leaves the books as they are. */
  ghost predicate Content(l: Ledger, log: seq<CheckResult>, mon: Monitor, online: seq<string>) {
    forall st :: Evaluate(l, log, mon, online, st, {}, {}) == l
  }

  lemma AlertedIsContent(l: Ledger, mon: Monitor, down: seq<string>, up: seq<string>, rest: seq<string>, i: Incident)
    requires Split(mon, down, up, rest) && Alerted(l, mon, i)
    ensures Content(l, SplitLog(mon, down, up), mon, down + up + rest)
  {
    forall st ensures Evaluate(l, SplitLog(mon, down, up), mon, down + up + rest, st, {}, {}) == l {
      LostAnswersRecover(l, mon, down, up, rest, i, st);
    }
  }

  /** The second tick. */
  lemma RecoveryRuns(
      s: State, mon: Monitor, down: seq<string>, up: seq<string>, rest: seq<string>, i: Incident)
      returns (es: seq<Event>)
    requires Split(mon, down, up, rest) && Resting(s, mon, down + up + rest, SplitLog(mon, down, up))
    requires Alerted(Books(s), mon, i)
    ensures OnlyCountsFail(s, es)
    ensures Run(s, es).trace == [Alert(i, mon)] + [Recovery(ResolvedIncident(i, s.now), mon)]
  {
    var id := i.id + ['x'];
    assert |id| != |i.id|;
    es := OneTickRuns(s, mon, down + up + rest, SplitLog(mon, down, up), id, Elements(down));
    LostAnswersRecover(Books(s), mon, down, up, rest, i, Stamp(id, s.now, s.now));
  }

  /**
   Failed reads alone make a monitor flap. For every rule whose quorums need not overlap there is a log and a
   run of store calls on it, with no result arriving, no crash and no failure but of failure counts, that alerts
   and then sends the recovery, although the error-free evaluation would have left the alerted books alone.
   */
  lemma FailedReadsAloneRecover(s0: State, mon: Monitor, down: seq<string>, up: seq<string>, rest: seq<string>)
    returns (es: seq<Event>, fs: seq<Event>, i: Incident)
    requires Split(mon, down, up, rest) && Init(s0) && s0.log == SplitLog(mon, down, up)
    requires mon.enabled && s0.monitors == map[mon.id := mon] && IsOnlineList(down + up + rest, s0.nodes)
    ensures OnlyCountsFail(s0, es + fs)
    ensures Run(s0, es + fs).trace == [Alert(i, mon)] + [Recovery(ResolvedIncident(i, s0.now), mon)]
    ensures Run(s0, es).trace == [Alert(i, mon)] && Content(Books(Run(s0, es)), s0.log, mon, down + up + rest)
  {
    SplitLogFacts(mon, down, up);
    es := OneTickRuns(s0, mon, down + up + rest, s0.log, "i", {});
    SplitLogCounts(mon, down, up, rest);
    i := QuorumAlerts(s0.log, mon, down + up + rest, Stamp("i", s0.now, s0.now));
    AlertedIsContent(Books(Run(s0, es)), mon, down, up, rest, i);
    fs := RecoveryRuns(Run(s0, es), mon, down, up, rest, i);
    RunAppend(s0, es, fs);
    OnlyCountsFailAppend(s0, es, fs);
  }
}
