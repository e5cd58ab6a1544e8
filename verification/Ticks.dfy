/** A whole tick of the machine is a fold of atomic evaluations, so their theorems hold of the machine. */
module Ticks {
  import opened Model
  import opened Streaks
  import opened Protocol
  import opened Incidents
  import opened Notifications
  import opened Evaluation
  import opened Decisions

  lemma {:induction false} EvaluateAllHead(
    l: Ledger, log: seq<CheckResult>, mons: seq<Monitor>, online: seq<string>, stamps: string -> Stamp)
    requires mons != []
    ensures EvaluateAll(l, log, mons, online, stamps)
         == EvaluateAll(Evaluate(l, log, mons[0], online, stamps(mons[0].id), {}, {}), log, mons[1..], online, stamps)
  {
    var n := |mons| - 1;
    if n == 0 {
      assert mons[..0] == [] && mons[1..] == [];
    } else {
      EvaluateAllHead(l, log, mons[..n], online, stamps);
      assert mons[..n][1..] == mons[1..][..n - 1];
    }
  }

  /**
   No result arrives and no call fails; the clock, heartbeats and edits are free. The call e is one of a
   running tick, and what it creates or updates carries the unused id and the times that stamps gives its monitor.
   */
  ghost predicate Undisturbed(s: State, e: Event, stamps: string -> Stamp) {
    && !e.Arrive? && !e.Crash?
    && (e.Call? ==>
          && !s.pc.Idle? && !s.pc.Loaded?
          && Quiet(s, e, stamps(s.pc.job.mon.id), {}, {})
          && (s.pc.Creating? ==> stamps(s.pc.job.mon.id).id !in s.incidents))
  }

  ghost predicate QuietTick(s: State, es: seq<Event>, stamps: string -> Stamp) {
    forall i :: 0 <= i < |es| ==> Undisturbed(Run(s, es[..i]), es[i], stamps)
  }

  /** The books once the tick is over, predicted from any point inside it. */
  ghost function Predicted(s: State, stamps: string -> Stamp): Ledger {
    if s.pc.Idle? || s.pc.Loaded? then Books(s)
    else
      var job := s.pc.job;
      EvaluateAll(Finish(s, job, stamps(job.mon.id), {}, {}), s.log, job.rest, job.online, stamps)
  }

  lemma PredictedAtStart(s: State, mons: seq<Monitor>, online: seq<string>, stamps: string -> Stamp)
    requires s.pc == StartMonitor(mons, online) && online != []
    ensures Predicted(s, stamps) == EvaluateAll(Books(s), s.log, mons, online, stamps)
  {
    if mons != [] {
      var job := Job(mons[0], mons[1..], online);
      var st := stamps(job.mon.id);
      assert s.pc == Counting(job, online, []);
      assert Finish(s, job, st, {}, {}) == Evaluate(Books(s), s.log, job.mon, online, st, {}, {});
      EvaluateAllHead(Books(s), s.log, mons, online, stamps);
    }
  }

  /** What is not a call of the loop leaves its books and its place alone. */
  lemma EnvironmentKeepsBooks(s: State, e: Event)
    requires !e.Call? && !e.Arrive? && !e.Crash?
    ensures Step(s, e).pc == s.pc && Books(Step(s, e)) == Books(s) && Step(s, e).log == s.log
  {
  }

  ghost predicate InTick(s: State, online: seq<string>) {
    s.pc.Idle? || (!s.pc.Loaded? && s.pc.job.online == online)
  }

  lemma PredictedStep(s: State, e: Event, online: seq<string>, stamps: string -> Stamp)
    requires TableOK(s) && DistinctStamps(s.log) && Undisturbed(s, e, stamps) && online != [] && InTick(s, online)
    ensures Predicted(Step(s, e), stamps) == Predicted(s, stamps) && InTick(Step(s, e), online)
  {
    var s' := Step(s, e);
    OnlyArrivalsGrowLog(s, e);
    if !s.pc.Idle? {
      FinishStep(s, s.pc.job, e, stamps(s.pc.job.mon.id), {}, {});
    }
    if e.Call? {
      StaysOrMovesOn(s, e);
      if !OnJob(s'.pc, s.pc.job) { PredictedAtStart(s', s.pc.job.rest, online, stamps); }
    } else {
      EnvironmentKeepsBooks(s, e);
    }
  }

  lemma {:induction false} PredictedRun(s: State, es: seq<Event>, online: seq<string>, stamps: string -> Stamp)
    requires TableOK(s) && DistinctStamps(s.log) && online != [] && QuietTick(s, es, stamps) && InTick(s, online)
    ensures Run(s, es).log == s.log && Predicted(Run(s, es), stamps) == Predicted(s, stamps)
    ensures InTick(Run(s, es), online)
  {
    if es != [] {
      var init, last := es[..|es| - 1], es[|es| - 1];
      assert forall i :: 0 <= i < |init| ==> init[..i] == es[..i];
      PredictedRun(s, init, online, stamps);
      TableRun(s, init);
      OnlyArrivalsGrowLog(Run(s, init), last);
      PredictedStep(Run(s, init), last, online, stamps);
    }
  }

  /**
   Refinement of a whole tick: single store calls through all monitors, however the database breaks ties,
   while the clock runs and heartbeats and edits land, end in exactly the fold of the atomic evaluations.
   */
  lemma QuietTickIsEvaluateAll(
      s: State, es: seq<Event>, mons: seq<Monitor>, online: seq<string>, stamps: string -> Stamp)
    requires TableOK(s) && DistinctStamps(s.log) && s.pc == StartMonitor(mons, online) && online != []
    requires QuietTick(s, es, stamps) && Run(s, es).pc.Idle?
    ensures Books(Run(s, es)) == EvaluateAll(Books(s), s.log, mons, online, stamps)
  {
    PredictedRun(s, es, online, stamps);
    PredictedAtStart(s, mons, online, stamps);
  }

  /** The order in which the store lists the monitors does not matter: every one gets the same incidents and notices. */
  lemma ListOrderIsIrrelevant(
    s: State, es: seq<Event>, t: State, fs: seq<Event>, mons: seq<Monitor>, mons': seq<Monitor>, online: seq<string>,
    stamps: string -> Stamp)
    requires TableOK(s) && DistinctStamps(s.log) && online != [] && FreshIds(s.incidents, stamps)
    requires DistinctMonitors(mons) && DistinctMonitors(mons') && forall mon :: mon in mons <==> mon in mons'
    requires s.pc == StartMonitor(mons, online) && t == s.(pc := StartMonitor(mons', online))
    requires QuietTick(s, es, stamps) && Run(s, es).pc.Idle? && QuietTick(t, fs, stamps) && Run(t, fs).pc.Idle?
    ensures Run(s, es).incidents == Run(t, fs).incidents
    ensures forall m :: Of(Run(s, es).trace, m) == Of(Run(t, fs).trace, m)
  {
    QuietTickIsEvaluateAll(s, es, mons, online, stamps);
    QuietTickIsEvaluateAll(t, fs, mons', online, stamps);
    MonitorOrderIsIrrelevant(Books(s), s.log, mons, mons', online, stamps);
  }

  // ---------- ticks in a history ----------

  ghost predicate Keyed(table: map<string, Monitor>) {
    forall k :: k in table ==> table[k].id == k
  }

  /**
   An answered call moves the loop on; a call fails only if the store is faulty, or refuses to create a row.
   Monitors are filed under their primary key.
   */
  ghost predicate Served(s: State, e: Event, faulty: bool) {
    match e
    case Call(ok, _) =>
      if ok then Step(s, e).pc != s.pc && (s.pc.Creating? ==> Step(s, e).pc.Confirming?) else faulty || s.pc.Creating?
    case SetMonitors(table) => Keyed(table)
    case _ => true
  }

  /** A tick starts with a call made while the loop is idle. */
  ghost predicate StartsTick(s: State, e: Event) {
    s.pc.Idle? && e.Call?
  }

  /** The state a history leads to, the ticks begun in it, and whether all its calls were served. */
  datatype Track = Track(st: State, ticks: nat, served: bool)

  ghost function Tracked(s: State, es: seq<Event>, faulty: bool): Track {
    if es == [] then Track(s, 0, true)
    else
      var t, e := Tracked(s, es[..|es| - 1], faulty), es[|es| - 1];
      Track(Step(t.st, e), if StartsTick(t.st, e) then t.ticks + 1 else t.ticks, t.served && Served(t.st, e, faulty))
  }

  lemma {:induction false} TrackedState(s: State, es: seq<Event>, faulty: bool)
    ensures Tracked(s, es, faulty).st == Run(s, es)
  {
    if es != [] { TrackedState(s, es[..|es| - 1], faulty); }
  }

  lemma TrackedSnoc(s: State, es: seq<Event>, e: Event, faulty: bool, t: State, ticks: nat)
    requires Tracked(s, es, faulty) == Track(t, ticks, true) && Served(t, e, faulty)
    ensures Tracked(s, es + [e], faulty) == Track(Step(t, e), if StartsTick(t, e) then ticks + 1 else ticks, true)
  {
    assert (es + [e])[..|es|] == es;
  }

  lemma {:induction false} TrackedAppend(s: State, es: seq<Event>, fs: seq<Event>, faulty: bool)
    ensures
      var a := Tracked(s, es, faulty);
      var b := Tracked(a.st, fs, faulty);
      Tracked(s, es + fs, faulty) == Track(b.st, a.ticks + b.ticks, a.served && b.served)
  {
    if fs == [] {
      assert es + fs == es;
    } else {
      var k := |fs| - 1;
      assert (es + fs)[..|es + fs| - 1] == es + fs[..k];
      TrackedAppend(s, es, fs[..k], faulty);
    }
  }

  /** No result arrives, the loop is not killed and no call fails; whatever else happens may. */
  ghost predicate Calm(es: seq<Event>) {
    forall i :: 0 <= i < |es| ==> !es[i].Arrive? && !es[i].Crash? && (es[i].Call? ==> es[i].ok)
  }

  lemma {:induction false} CalmNeedsNoFault(s: State, es: seq<Event>, faulty: bool)
    requires Calm(es) && Tracked(s, es, faulty).served
    ensures Tracked(s, es, false) == Tracked(s, es, faulty)
  {
    if es != [] { CalmNeedsNoFault(s, es[..|es| - 1], faulty); }
  }

  /** A calm history that begins n ticks and in which every call is answered. */
  ghost predicate Smooth(s: State, es: seq<Event>, n: nat) {
    Calm(es) && Tracked(s, es, false) == Track(Run(s, es), n, true)
  }

  lemma SmoothSplit(s: State, es: seq<Event>, k: nat, n: nat) returns (a: nat)
    requires k <= |es| && Smooth(s, es, n)
    ensures a <= n && Smooth(s, es[..k], a) && Smooth(Run(s, es[..k]), es[k..], n - a)
    ensures Run(s, es) == Run(Run(s, es[..k]), es[k..])
  {
    assert es == es[..k] + es[k..];
    TrackedAppend(s, es[..k], es[k..], false);
    TrackedState(s, es[..k], false);
    TrackedState(Run(s, es[..k]), es[k..], false);
    a := Tracked(s, es[..k], false).ticks;
  }

  lemma SmoothOne(s: State, e: Event, n: nat)
    requires Smooth(s, [e], n)
    ensures Run(s, [e]) == Step(s, e) && Served(s, e, false) && n == if StartsTick(s, e) then 1 else 0
  {
    assert [e][..0] == [] && Tracked(s, [], false) == Track(s, 0, true);
  }

  lemma {:induction false} KeyedRun(s: State, es: seq<Event>, faulty: bool)
    requires Keyed(s.monitors) && Tracked(s, es, faulty).served
    ensures Keyed(Run(s, es).monitors)
  {
    if es != [] {
      var init := es[..|es| - 1];
      KeyedRun(s, init, faulty);
      TrackedState(s, init, faulty);
      MonitorsSetOnlyByEdits(Run(s, init), es[|es| - 1]);
    }
  }

  lemma MonitorsSetOnlyByEdits(s: State, e: Event)
    ensures !e.SetMonitors? ==> Step(s, e).monitors == s.monitors
  {
    if e.Call? && e.ok {
      match s.pc
      case Counting(_, _, _) => assert CountStep(s, e.answer).monitors == s.monitors;
      case Recounting(_, _, _, _) => assert CountStep(s, e.answer).monitors == s.monitors;
      case Lookup(_, _) => assert LookupStep(s, e.answer).monitors == s.monitors;
      case Checking(_) => assert LookupStep(s, e.answer).monitors == s.monitors;
      case Creating(_, _) => assert CreateStep(s, e.answer).monitors == s.monitors;
      case _ =>
    }
  }

  /** The first call of a history; before it nothing the loop owns changes. */
  lemma {:induction false} FirstCall(s: State, es: seq<Event>) returns (k: nat)
    requires Calm(es)
    ensures k <= |es| && (k < |es| ==> es[k].Call?)
    ensures var t := Run(s, es[..k]); t.pc == s.pc && Books(t) == Books(s) && t.log == s.log
    ensures Tracked(s, es[..k], false).ticks == 0
  {
    k := 0;
    assert es[..0] == [];
    while k < |es| && !es[k].Call?
      invariant k <= |es|
      invariant var t := Run(s, es[..k]); t.pc == s.pc && Books(t) == Books(s) && t.log == s.log
      invariant Tracked(s, es[..k], false).ticks == 0
    {
      assert es[..k + 1][..k] == es[..k];
      EnvironmentKeepsBooks(Run(s, es[..k]), es[k]);
      k := k + 1;
    }
  }

  // ---------- the ids and times a tick draws ----------

  /** How far an evaluation has got with the rows it writes. */
  function WriteStage(pc: PC): nat {
    match pc
    case Creating(_, _) => 1
    case Confirming(_, _, _) => 2
    case Resolving(_, _, _) => 2
    case Alerting(_, _) => 3
    case Announcing(_, _) => 3
    case _ => 0
  }

  /** In the rest of this tick the evaluation of m will only pass stages from r on, if any. */
  ghost predicate Past(pc: PC, m: string, r: nat) {
    || pc.Idle?
    || (&& !pc.Loaded?
        && (pc.job.mon.id == m ==> WriteStage(pc) >= r)
        && forall q :: q in pc.job.rest ==> q.id != m)
  }

  ghost predicate DistinctAhead(pc: PC) {
    pc.Idle? || (!pc.Loaded? && DistinctMonitors(pc.job.rest) && forall q :: q in pc.job.rest ==> q.id != pc.job.mon.id)
  }

  lemma StageGrows(s: State, e: Event)
    requires e.Call? && !s.pc.Idle? && !s.pc.Loaded? && OnJob(Step(s, e).pc, s.pc.job)
    ensures WriteStage(Step(s, e).pc) >= WriteStage(s.pc)
  {
    NextIsOffJob(s.pc.job);
  }

  lemma PastStep(s: State, e: Event, m: string, r: nat)
    requires !e.Crash? && !StartsTick(s, e) && Past(s.pc, m, r)
    ensures Past(Step(s, e).pc, m, r)
  {
    if e.Call? {
      StaysOrMovesOn(s, e);
      if OnJob(Step(s, e).pc, s.pc.job) { StageGrows(s, e); }
    }
  }

  lemma DistinctStep(s: State, e: Event)
    requires !e.Crash? && !StartsTick(s, e) && DistinctAhead(s.pc)
    ensures DistinctAhead(Step(s, e).pc)
  {
    if e.Call? {
      StaysOrMovesOn(s, e);
      if !OnJob(Step(s, e).pc, s.pc.job) && s.pc.job.rest != [] {
        DistinctTail(s.pc.job.rest);
      }
    }
  }

  lemma DistinctTail(mons: seq<Monitor>)
    requires DistinctMonitors(mons) && mons != []
    ensures DistinctMonitors(mons[1..]) && forall q :: q in mons[1..] ==> q.id != mons[0].id
  {
    forall q | q in mons[1..] ensures q.id != mons[0].id {
      var i :| 0 <= i < |mons[1..]| && mons[1..][i] == q;
      assert mons[i + 1] == q;
    }
  }

  predicate Writes(pc: PC) {
    pc.Creating? || pc.Confirming? || pc.Resolving?
  }

  /** A served write leaves its stage behind. */
  lemma WriteIsPast(s: State, e: Event)
    requires Writes(s.pc) && e.Call? && e.ok && Served(s, e, false) && DistinctAhead(s.pc)
    ensures Past(Step(s, e).pc, s.pc.job.mon.id, WriteStage(s.pc) + 1)
    ensures s.pc.Creating? ==>
      && e.answer.FreshID? && e.answer.id !in s.incidents && e.answer.id in Step(s, e).incidents
      && Step(s, e).incidents[e.answer.id].monitorID == s.pc.job.mon.id
  {
    if s.pc.Creating? {
      assert Step(s, e) == CreateStep(s, e.answer);
    } else {
      assert Step(s, e) == WriteStep(s);
    }
  }

  /** If e was a write at p, the tick will not come back to it. */
  ghost predicate PastWrite(p: PC, e: Event, pc: PC) {
    e.Call? && Writes(p) ==> Past(pc, p.job.mon.id, WriteStage(p) + 1)
  }

  ghost predicate WritesPast(s: State, es: seq<Event>, pc: PC) {
    forall i :: 0 <= i < |es| ==> PastWrite(Run(s, es[..i]).pc, es[i], pc)
  }

  lemma WritesPastSnoc(s: State, es: seq<Event>, e: Event)
    requires !e.Crash? && !StartsTick(Run(s, es), e) && WritesPast(s, es, Run(s, es).pc)
    requires PastWrite(Run(s, es).pc, e, Step(Run(s, es), e).pc)
    ensures WritesPast(s, es + [e], Run(s, es + [e]).pc)
  {
    var es', t := es + [e], Run(s, es);
    assert es'[..|es|] == es;
    forall i | 0 <= i < |es'| ensures PastWrite(Run(s, es'[..i]).pc, es'[i], Step(t, e).pc) {
      if i < |es| {
        assert es'[..i] == es[..i] && es'[i] == es[i];
        PastWriteStays(Run(s, es[..i]).pc, es[i], t, e);
      }
    }
  }

  lemma PastWriteStays(p: PC, f: Event, t: State, e: Event)
    requires !e.Crash? && !StartsTick(t, e) && PastWrite(p, f, t.pc)
    ensures PastWrite(p, f, Step(t, e).pc)
  {
    if f.Call? && Writes(p) { PastStep(t, e, p.job.mon.id, WriteStage(p) + 1); }
  }

  /** The stamp of m as the write at s fixes it. */
  ghost function Stamped(st: Stamp, s: State, e: Event): Stamp {
    if s.pc.Creating? && e.Call? && e.answer.FreshID? then st.(id := e.answer.id, createdAt := s.now)
    else st.(writtenAt := s.now)
  }

  ghost function With(stamps: string -> Stamp, m: string, st: Stamp): string -> Stamp {
    (k: string) => if k == m then st else stamps(k)
  }

  lemma StampKept(u: State, f: Event, t: State, e: Event, stamps: string -> Stamp)
    requires Undisturbed(u, f, stamps) && Writes(t.pc) && PastWrite(u.pc, f, t.pc)
    requires e.Call? && (t.pc.Creating? ==> e.answer.FreshID?)
    ensures var m := t.pc.job.mon.id; Undisturbed(u, f, With(stamps, m, Stamped(stamps(m), t, e)))
  {
  }

  /** Fixing the stamp of a write leaves the earlier events of the tick as quiet as they were. */
  lemma StampsCanGrow(s: State, es: seq<Event>, stamps: string -> Stamp, e: Event)
    requires QuietTick(s, es, stamps) && WritesPast(s, es, Run(s, es).pc) && Writes(Run(s, es).pc) && e.Call?
    requires Run(s, es).pc.Creating? ==> e.answer.FreshID?
    ensures var t := Run(s, es); var m := t.pc.job.mon.id; QuietTick(s, es, With(stamps, m, Stamped(stamps(m), t, e)))
  {
    var t := Run(s, es);
    var m := t.pc.job.mon.id;
    forall i | 0 <= i < |es| ensures Undisturbed(Run(s, es[..i]), es[i], With(stamps, m, Stamped(stamps(m), t, e))) {
      StampKept(Run(s, es[..i]), es[i], t, e, stamps);
    }
  }

  /** A served call of a calm tick is undisturbed; only a write looks at the stamps. */
  lemma ServedIsUndisturbed(s: State, e: Event, stamps: string -> Stamp)
    requires !e.Arrive? && !e.Crash? && Served(s, e, false) && (e.Call? ==> e.ok && !s.pc.Idle? && !s.pc.Loaded?)
    requires e.Call? && Writes(s.pc) ==> (s.pc.Creating? ==> e.answer.FreshID? && e.answer.id !in s.incidents)
    requires e.Call? && Writes(s.pc) ==> var st := stamps(s.pc.job.mon.id); st == Stamped(st, s, e)
    ensures Undisturbed(s, e, stamps)
  {
    if e.Call? && (s.pc.Counting? || s.pc.Recounting?) {
      assert Step(s, e) == CountStep(s, e.answer);
    }
  }

  lemma QuietTickSnoc(s: State, es: seq<Event>, e: Event, stamps: string -> Stamp)
    requires QuietTick(s, es, stamps) && Undisturbed(Run(s, es), e, stamps)
    ensures QuietTick(s, es + [e], stamps)
  {
    var es' := es + [e];
    assert es'[..|es|] == es;
    assert forall i :: 0 <= i < |es| ==> es'[..i] == es[..i] && es'[i] == es[i];
  }

  /** An id no table of shorter ids holds. */
  function Pad(bound: nat, m: string): string {
    seq(bound, i => 'x') + m
  }

  lemma PadIsInjective(bound: nat, m: string, m': string)
    requires Pad(bound, m) == Pad(bound, m')
    ensures m == m'
  {
    assert m == Pad(bound, m)[bound..] && m' == Pad(bound, m')[bound..];
  }

  /** Every id is spare, or was drawn in the tick for its monitor. */
  ghost predicate Drawn(s: State, t: State, stamps: string -> Stamp, bound: nat) {
    forall m :: stamps(m).id == Pad(bound, m) || DrawnFor(s, t, stamps(m).id, m, bound)
  }

  ghost predicate DrawnFor(s: State, t: State, id: string, m: string, bound: nat) {
    |id| < bound && id !in s.incidents && id in t.incidents && t.incidents[id].monitorID == m
  }

  ghost predicate ShortKeys(incidents: map<string, Incident>, bound: nat) {
    forall k :: k in incidents ==> |k| < bound
  }

  ghost predicate ShortAnswers(es: seq<Event>, bound: nat) {
    forall i :: 0 <= i < |es| && es[i].Call? && es[i].answer.FreshID? ==> |es[i].answer.id| < bound
  }

  lemma DrawnAreFresh(s: State, t: State, stamps: string -> Stamp, bound: nat)
    requires Drawn(s, t, stamps, bound) && ShortKeys(s.incidents, bound)
    ensures FreshIds(s.incidents, stamps)
  {
    forall m, m' | stamps(m).id == stamps(m').id ensures m == m' {
      if stamps(m).id == Pad(bound, m) && stamps(m').id == Pad(bound, m') { PadIsInjective(bound, m, m'); }
    }
  }

  lemma {:induction false} SetIsBounded(keys: set<string>) returns (bound: nat)
    ensures forall k :: k in keys ==> |k| < bound
  {
    bound := 0;
    var todo := keys;
    while todo != {}
      invariant todo <= keys && forall k :: k in keys - todo ==> |k| < bound
      decreases todo
    {
      var k :| k in todo;
      todo := todo - {k};
      if |k| >= bound { bound := |k| + 1; }
    }
  }

  lemma IdsAreBounded(incidents: map<string, Incident>, es: seq<Event>) returns (bound: nat)
    ensures ShortKeys(incidents, bound) && ShortAnswers(es, bound)
  {
    var answers := set i | 0 <= i < |es| && es[i].Call? && es[i].answer.FreshID? :: es[i].answer.id;
    bound := SetIsBounded(incidents.Keys + answers);
    forall i | 0 <= i < |es| && es[i].Call? && es[i].answer.FreshID? ensures |es[i].answer.id| < bound {
      assert es[i].answer.id in answers;
    }
  }

  lemma DrawnStays(s: State, t: State, e: Event, stamps: string -> Stamp, bound: nat)
    requires TableOK(t) && Drawn(s, t, stamps, bound)
    ensures Drawn(s, Step(t, e), stamps, bound)
  {
    ForwardStep(t, e);
    forall m ensures stamps(m).id == Pad(bound, m) || DrawnFor(s, Step(t, e), stamps(m).id, m, bound) {
      if DrawnFor(s, t, stamps(m).id, m, bound) {
        assert Evolves(t.incidents[stamps(m).id], Step(t, e).incidents[stamps(m).id]);
      }
    }
  }

  /** What the induction below carries: the stamps drawn so far explain the history. */
  ghost predicate Explains(s: State, es: seq<Event>, stamps: string -> Stamp, bound: nat) {
    && QuietTick(s, es, stamps) && DistinctAhead(Run(s, es).pc) && WritesPast(s, es, Run(s, es).pc)
    && Drawn(s, Run(s, es), stamps, bound)
  }

  lemma StampTheWrite(
      s: State, es: seq<Event>, e: Event, stamps: string -> Stamp, bound: nat)
      returns (stamps': string -> Stamp)
    requires TableOK(s) && Explains(s, es, stamps, bound) && Writes(Run(s, es).pc)
    requires e.Call? && e.ok && Served(Run(s, es), e, false) && (e.answer.FreshID? ==> |e.answer.id| < bound)
    ensures QuietTick(s, es, stamps') && Drawn(s, Step(Run(s, es), e), stamps', bound)
    ensures var t := Run(s, es); stamps'(t.pc.job.mon.id) == Stamped(stamps'(t.pc.job.mon.id), t, e)
  {
    var t := Run(s, es);
    var m := t.pc.job.mon.id;
    WriteIsPast(t, e);
    stamps' := With(stamps, m, Stamped(stamps(m), t, e));
    StampsCanGrow(s, es, stamps, e);
    TableRun(s, es);
    LifecycleForward(s, es);
    DrawnStays(s, t, e, stamps, bound);
  }

  lemma ExplainsSnoc(
      s: State, es: seq<Event>, e: Event, stamps: string -> Stamp, bound: nat)
      returns (stamps': string -> Stamp)
    requires TableOK(s) && Explains(s, es, stamps, bound)
    requires var t := Run(s, es);
      Served(t, e, false) && !StartsTick(t, e) && !e.Arrive? && !e.Crash?
      && (e.Call? ==> e.ok && (e.answer.FreshID? ==> |e.answer.id| < bound))
    ensures Explains(s, es + [e], stamps', bound)
  {
    var t := Run(s, es);
    assert (es + [e])[..|es|] == es;
    DistinctStep(t, e);
    if e.Call? && Writes(t.pc) {
      stamps' := StampTheWrite(s, es, e, stamps, bound);
      WriteIsPast(t, e);
    } else {
      stamps' := stamps;
      TableRun(s, es);
      DrawnStays(s, t, e, stamps, bound);
    }
    ServedIsUndisturbed(t, e, stamps');
    QuietTickSnoc(s, es, e, stamps');
    WritesPastSnoc(s, es, e);
  }

  lemma {:induction false} StampsOfTick(s: State, es: seq<Event>, bound: nat) returns (stamps: string -> Stamp)
    requires TableOK(s) && !s.pc.Loaded? && DistinctAhead(s.pc) && Smooth(s, es, 0) && ShortAnswers(es, bound)
    ensures Explains(s, es, stamps, bound)
  {
    if es == [] {
      stamps := (m: string) => Stamp(Pad(bound, m), 0, 0);
    } else {
      var init, e := es[..|es| - 1], es[|es| - 1];
      TrackedState(s, init, false);
      stamps := StampsOfTick(s, init, bound);
      stamps := ExplainsSnoc(s, init, e, stamps, bound);
      assert init + [e] == es;
    }
  }

  // ---------- one tick ----------

  lemma NothingCalledWhileIdle(s: State, es: seq<Event>)
    requires s.pc.Idle? && Smooth(s, es, 0)
    ensures Books(Run(s, es)) == Books(s)
  {
    var k := FirstCall(s, es);
    if k < |es| {
      var a := SmoothSplit(s, es, k, 0);
      var t := Run(s, es[..k]);
      var b := SmoothSplit(t, es[k..], 1, 0);
      assert es[k..][..1] == [es[k]];
      SmoothOne(t, es[k], 0);
    } else {
      assert es[..k] == es;
    }
  }

  /** The rest of a tick, from the first monitor on. */
  lemma RestOfTick(s: State, es: seq<Event>, mons: seq<Monitor>, online: seq<string>) returns (stamps: string -> Stamp)
    requires TableOK(s) && DistinctStamps(s.log) && DistinctMonitors(mons) && s.pc == StartMonitor(mons, online)
    requires Smooth(s, es, 0) && Run(s, es).pc.Idle?
    ensures FreshIds(s.incidents, stamps)
    ensures Books(Run(s, es)) == if online == [] then Books(s) else EvaluateAll(Books(s), s.log, mons, online, stamps)
  {
    var bound := IdsAreBounded(s.incidents, es);
    if mons != [] { DistinctTail(mons); }
    stamps := StampsOfTick(s, es, bound);
    DrawnAreFresh(s, Run(s, es), stamps, bound);
    if online == [] {
      NothingCalledWhileIdle(s, es);
    } else {
      QuietTickIsEvaluateAll(s, es, mons, online, stamps);
    }
  }

  lemma EnabledListIsDistinct(ms: seq<Monitor>, table: map<string, Monitor>)
    requires IsEnabledList(ms, table) && Keyed(table)
    ensures DistinctMonitors(ms)
  {
    forall i, j | 0 <= i < j < |ms| ensures ms[i].id != ms[j].id {
      assert ms[i] in ms && ms[j] in ms;
    }
  }

  /**
   The lists a tick works on are those of tables it met on the way, and nothing but the fold happened to the books.
   */
  ghost predicate IsTick(s: State, es: seq<Event>, mons: seq<Monitor>, online: seq<string>, stamps: string -> Stamp) {
    && DistinctMonitors(mons) && NoDup(online) && FreshIds(s.incidents, stamps)
    && ListedIn(s, es, mons, online)
    && Folded(Books(s), s.log, Run(s, es), mons, online, stamps)
  }

  /** The books of u are those of one pass over l; without an online node there is no pass. */
  ghost predicate Folded(
      l: Ledger, log: seq<CheckResult>, u: State, mons: seq<Monitor>, online: seq<string>, stamps: string -> Stamp)
  {
    Books(u) == if online == [] then l else EvaluateAll(l, log, mons, online, stamps)
  }

  ghost predicate ListedIn(s: State, es: seq<Event>, mons: seq<Monitor>, online: seq<string>) {
    exists i, j ::
      && 0 <= i < j <= |es|
      && IsEnabledList(mons, Run(s, es[..i]).monitors) && IsOnlineList(online, Run(s, es[..j]).nodes)
  }

  /** A calm history of exactly one whole tick. */
  ghost predicate OneTick(s: State, es: seq<Event>) {
    s.pc.Idle? && Smooth(s, es, 1) && Run(s, es).pc.Idle?
  }

  /** The next call in a calm history that does not end where it begins. */
  lemma NextCall(s: State, es: seq<Event>, n: nat) returns (k: nat)
    requires Smooth(s, es, n) && (n > 0 || Run(s, es).pc != s.pc)
    ensures k < |es| && es[k].Call?
    ensures var t := Run(s, es[..k]);
      && t.pc == s.pc && Books(t) == Books(s) && t.log == s.log
      && Served(t, es[k], false) && Step(t, es[k]) == Run(s, es[..k + 1])
      && Smooth(Step(t, es[k]), es[k + 1..], if s.pc.Idle? && n > 0 then n - 1 else n)
      && Run(s, es) == Run(Step(t, es[k]), es[k + 1..])
  {
    k := FirstCall(s, es);
    assert es[..|es|] == es;
    if k < |es| {
      var a := SmoothSplit(s, es, k + 1, n);
      var b := SmoothSplit(s, es[..k + 1], k, a);
      assert es[..k + 1][..k] == es[..k] && es[..k + 1][k..] == [es[k]];
      SmoothOne(Run(s, es[..k]), es[k], a - b);
    }
  }

  /** The tick from the point where the monitors are loaded. */
  lemma TickFromLoaded(s: State, es: seq<Event>, mons: seq<Monitor>, l: Ledger, log: seq<CheckResult>)
    returns (k: nat, online: seq<string>, stamps: string -> Stamp)
    requires l == Books(s) && log == s.log
    requires TableOK(s) && DistinctStamps(s.log) && DistinctMonitors(mons) && s.pc == Loaded(mons)
    requires Smooth(s, es, 0) && Run(s, es).pc.Idle?
    ensures k < |es| && IsOnlineList(online, Run(s, es[..k]).nodes) && FreshIds(l.incidents, stamps)
    ensures Folded(l, log, Run(s, es), mons, online, stamps)
  {
    k := NextCall(s, es, 0);
    online := es[k].answer.ids;
    TableRun(s, es[..k + 1]);
    stamps := RestOfTick(Step(Run(s, es[..k]), es[k]), es[k + 1..], mons, online);
  }

  /** The tick up to the point where the monitors are loaded. */
  lemma TickToLoaded(s: State, es: seq<Event>) returns (i: nat, mons: seq<Monitor>)
    requires Keyed(s.monitors) && OneTick(s, es)
    ensures i < |es| && IsEnabledList(mons, Run(s, es[..i]).monitors) && DistinctMonitors(mons)
    ensures var t := Run(s, es[..i + 1]);
      && t.pc == Loaded(mons) && Books(t) == Books(s) && t.log == s.log
      && Smooth(t, es[i + 1..], 0) && Run(s, es) == Run(t, es[i + 1..])
  {
    i := NextCall(s, es, 1);
    mons := es[i].answer.ms;
    KeyedPrefix(s, es, i);
    MonitorsListed(Run(s, es[..i]), es[i]);
  }

  /** A tick whose monitors were loaded after i events, in state t. */
  lemma TickOnceLoaded(s: State, es: seq<Event>, i: nat, t: State, mons: seq<Monitor>)
    returns (j: nat, online: seq<string>, stamps: string -> Stamp)
    requires i <= |es| && t == Run(s, es[..i]) && DistinctMonitors(mons)
    requires TableOK(t) && DistinctStamps(t.log) && t.pc == Loaded(mons) && Books(t) == Books(s) && t.log == s.log
    requires Smooth(t, es[i..], 0) && Run(s, es) == Run(t, es[i..]) && Run(t, es[i..]).pc.Idle?
    ensures i <= j <= |es| && IsOnlineList(online, Run(s, es[..j]).nodes)
    ensures FreshIds(s.incidents, stamps) && Folded(Books(s), s.log, Run(s, es), mons, online, stamps)
  {
    var k;
    k, online, stamps := TickFromLoaded(t, es[i..], mons, Books(s), s.log);
    OnlineInWhole(s, es, i, k, online);
    j := i + k;
  }

  /** One calm tick is the fold of the atomic evaluations over lists of the tables it met, with fresh ids. */
  lemma CalmTickIsEvaluateAll(
      s: State, es: seq<Event>)
      returns (mons: seq<Monitor>, online: seq<string>, stamps: string -> Stamp)
    requires TableOK(s) && DistinctStamps(s.log) && Keyed(s.monitors) && OneTick(s, es)
    ensures IsTick(s, es, mons, online, stamps)
  {
    var i, j;
    i, mons := TickToLoaded(s, es);
    TableRun(s, es[..i + 1]);
    j, online, stamps := TickOnceLoaded(s, es, i + 1, Run(s, es[..i + 1]), mons);
    ListsFound(s, es, i, j, mons, online);
  }

  lemma ListsFound(s: State, es: seq<Event>, i: nat, j: nat, mons: seq<Monitor>, online: seq<string>)
    requires i < j <= |es| && IsEnabledList(mons, Run(s, es[..i]).monitors)
    requires IsOnlineList(online, Run(s, es[..j]).nodes)
    ensures ListedIn(s, es, mons, online)
  {
  }

  lemma OnlineInWhole(s: State, es: seq<Event>, i: nat, k: nat, online: seq<string>)
    requires i + k <= |es| && IsOnlineList(online, Run(Run(s, es[..i]), es[i..][..k]).nodes)
    ensures IsOnlineList(online, Run(s, es[..i + k]).nodes)
  {
    RunTo(s, es, i, k);
  }

  lemma KeyedPrefix(s: State, es: seq<Event>, i: nat)
    requires Keyed(s.monitors) && Tracked(s, es, false).served && i <= |es|
    ensures Keyed(Run(s, es[..i]).monitors)
  {
    assert es == es[..i] + es[i..];
    TrackedAppend(s, es[..i], es[i..], false);
    KeyedRun(s, es[..i], false);
  }

  lemma MonitorsListed(s: State, e: Event)
    requires s.pc.Idle? && Keyed(s.monitors) && e.Call? && e.ok && Served(s, e, false)
    ensures e.answer.Monitors? && IsEnabledList(e.answer.ms, s.monitors) && DistinctMonitors(e.answer.ms)
    ensures Step(s, e) == s.(pc := Loaded(e.answer.ms))
  {
    EnabledListIsDistinct(e.answer.ms, s.monitors);
  }

  lemma RunTo(s: State, es: seq<Event>, i: nat, k: nat)
    requires i + k <= |es|
    ensures Run(Run(s, es[..i]), es[i..][..k]) == Run(s, es[..i + k])
  {
    assert es[..i + k] == es[..i] + es[i..][..k];
    RunAppend(s, es[..i], es[i..][..k]);
  }

  // ---------- two ticks ----------

  function EnabledRows(table: map<string, Monitor>): set<Monitor> {
    set k | k in table && table[k].enabled :: table[k]
  }

  function OnlineIds(table: map<string, Node>): set<string> {
    set k | k in table && table[k].status.NodeOnline?
  }

  /** Neither the enabled monitors nor the set of online nodes changes; heartbeats may land. */
  ghost predicate Unedited(s: State, es: seq<Event>) {
    forall i :: 0 <= i <= |es| ==>
      var t := Run(s, es[..i]);
      EnabledRows(t.monitors) == EnabledRows(s.monitors) && OnlineIds(t.nodes) == OnlineIds(s.nodes)
  }

  lemma ListsHold(s: State, es: seq<Event>, mons: seq<Monitor>, online: seq<string>)
    requires Unedited(s, es) && ListedIn(s, es, mons, online)
    ensures forall mon :: mon in mons <==> mon in EnabledRows(s.monitors)
    ensures forall n :: n in online <==> n in OnlineIds(s.nodes)
  {
    var i, j :| 0 <= i < j <= |es|
      && IsEnabledList(mons, Run(s, es[..i]).monitors) && IsOnlineList(online, Run(s, es[..j]).nodes);
    assert EnabledRows(Run(s, es[..i]).monitors) == EnabledRows(s.monitors);
    assert OnlineIds(Run(s, es[..j]).nodes) == OnlineIds(s.nodes);
  }

  /**
   Idempotence of the machine: two consecutive ticks over unchanged results, with the same monitors enabled
   and the same nodes online, while the clock runs and heartbeats land. The second writes and sends nothing.
   */
  lemma SecondTickIsSilent(s: State, es: seq<Event>, fs: seq<Event>)
    requires TableOK(s) && DistinctStamps(s.log) && Keyed(s.monitors)
    requires OneTick(s, es) && OneTick(Run(s, es), fs)
    requires Unedited(s, es) && Unedited(Run(s, es), fs)
    ensures Books(Run(s, es + fs)) == Books(Run(s, es))
  {
    var t := Run(s, es);
    TableRun(s, es);
    KeyedRun(s, es, false);
    CalmKeepsLog(s, es);
    var mons, online, stamps := CalmTickIsEvaluateAll(s, es);
    var mons', online', stamps' := CalmTickIsEvaluateAll(t, fs);
    ListsHold(s, es, mons, online);
    ListsHold(t, fs, mons', online');
    assert es[..|es|] == es;
    assert EnabledRows(t.monitors) == EnabledRows(s.monitors) && OnlineIds(t.nodes) == OnlineIds(s.nodes);
    RunAppend(s, es, fs);
    SameMembers(online, online');
    if online != [] {
      SecondPassIsSilent(Books(s), s.log, mons, online, stamps, mons', online', stamps');
    }
  }

  lemma SameMembers(a: seq<string>, b: seq<string>)
    requires forall x :: x in a <==> x in b
    ensures a == [] <==> b == []
  {
    if a != [] { assert a[0] in b; }
    if b != [] { assert b[0] in a; }
  }

  lemma {:induction false} CalmKeepsLog(s: State, es: seq<Event>)
    requires Calm(es)
    ensures Run(s, es).log == s.log
  {
    if es != [] {
      CalmKeepsLog(s, es[..|es| - 1]);
      OnlyArrivalsGrowLog(Run(s, es[..|es| - 1]), es[|es| - 1]);
    }
  }
}
