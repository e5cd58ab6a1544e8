/** The monitor and the online list behind every verdict were rows of the tables, read in the tick that gave it. */
module Snapshots {
  import opened Model
  import opened Protocol
  import opened Incidents
  import opened Evidence

  /** In a tick still running at the end of es, the monitors were listed after h events and the online nodes after i. */
  ghost predicate Snapshot(s0: State, es: seq<Event>, h: nat, i: nat, ms: seq<Monitor>, online: seq<string>) {
    && h < i < |es|
    && IsEnabledList(ms, Run(s0, es[..h]).monitors)
    && IsOnlineList(online, Run(s0, es[..i]).nodes)
    && StillRunning(s0, es, h)
  }

  ghost predicate StillRunning(s0: State, es: seq<Event>, h: nat) {
    forall j :: h < j <= |es| ==> !Run(s0, es[..j]).pc.Idle?
  }

  ghost predicate SeenSince(seen: seq<Seen>, at: nat) {
    forall x :: 0 <= x < |seen| ==> seen[x].at >= at
  }

  /** A job is work on listed monitors, and its counts were taken after the online list. */
  ghost predicate JobFrom(s0: State, es: seq<Event>, job: Job, seen: seq<Seen>) {
    exists h: nat, i: nat, ms :: JobListed(s0, es, job, seen, h, i, ms)
  }

  ghost predicate JobListed(s0: State, es: seq<Event>, job: Job, seen: seq<Seen>, h: nat, i: nat, ms: seq<Monitor>) {
    && Snapshot(s0, es, h, i, ms, job.online)
    && job.mon in ms && (forall q :: q in job.rest ==> q in ms)
    && SeenSince(seen, |Run(s0, es[..i]).log|)
  }

  ghost predicate LoadedFrom(s0: State, es: seq<Event>, ms: seq<Monitor>) {
    exists h: nat :: LoadedAt(s0, es, ms, h)
  }

  ghost predicate LoadedAt(s0: State, es: seq<Event>, ms: seq<Monitor>, h: nat) {
    h < |es| && IsEnabledList(ms, Run(s0, es[..h]).monitors) && StillRunning(s0, es, h)
  }

  ghost predicate PcFrom(s0: State, es: seq<Event>) {
    var pc := Run(s0, es).pc;
    match pc
    case Idle => true
    case Loaded(ms) => LoadedFrom(s0, es, ms)
    case _ => JobFrom(s0, es, pc.job, Pending(pc))
  }

  /** v was recorded by event n, in a tick that had listed its monitor as enabled and exactly its nodes as online. */
  ghost predicate VerdictFrom(s0: State, es: seq<Event>, n: nat, v: Verdict) {
    && n < |es|
    && Run(s0, es[..n + 1]).verdicts == Run(s0, es[..n]).verdicts + [v]
    && JobFrom(s0, es[..n], Job(v.mon, [], v.online), v.seen)
  }

  ghost predicate Recorded(s0: State, es: seq<Event>, v: Verdict) {
    exists n: nat :: VerdictFrom(s0, es, n, v)
  }

  ghost predicate AllRecorded(s0: State, es: seq<Event>) {
    forall v :: v in Run(s0, es).verdicts ==> Recorded(s0, es, v)
  }

  lemma Prefix(es: seq<Event>, e: Event)
    ensures (es + [e])[..|es|] == es && (es + [e])[..|es| + 1] == es + [e]
    ensures forall j :: 0 <= j <= |es| ==> (es + [e])[..j] == es[..j]
  {
  }

  lemma RunningOn(s0: State, es: seq<Event>, e: Event, h: nat)
    requires h <= |es| && StillRunning(s0, es, h) && !Run(s0, es + [e]).pc.Idle?
    ensures StillRunning(s0, es + [e], h)
  {
    Prefix(es, e);
    forall j | h < j <= |es| + 1 ensures !Run(s0, (es + [e])[..j]).pc.Idle? {
      if j <= |es| { assert (es + [e])[..j] == es[..j]; }
    }
  }

  lemma SnapshotStays(s0: State, es: seq<Event>, e: Event, h: nat, i: nat, ms: seq<Monitor>, online: seq<string>)
    requires Snapshot(s0, es, h, i, ms, online) && !Run(s0, es + [e]).pc.Idle?
    ensures Snapshot(s0, es + [e], h, i, ms, online)
  {
    Prefix(es, e);
    assert (es + [e])[..h] == es[..h] && (es + [e])[..i] == es[..i];
    RunningOn(s0, es, e, h);
  }

  lemma {:induction false} LogGrows(s0: State, es: seq<Event>, i: nat)
    requires i <= |es|
    ensures |Run(s0, es[..i]).log| <= |Run(s0, es).log|
  {
    if i == |es| {
      assert es[..i] == es;
    } else {
      var init := es[..|es| - 1];
      assert init[..i] == es[..i];
      LogGrows(s0, init, i);
      LogStep(Run(s0, init), es[|es| - 1]);
    }
  }

  lemma LogStep(s: State, e: Event)
    ensures |Step(s, e).log| >= |s.log|
  {
    if e.Call? && e.ok {
      match s.pc
      case Counting(_, _, _) => assert CountStep(s, e.answer).log == s.log;
      case Recounting(_, _, _, _) => assert CountStep(s, e.answer).log == s.log;
      case Lookup(_, _) => assert LookupStep(s, e.answer).log == s.log;
      case Checking(_) => assert LookupStep(s, e.answer).log == s.log;
      case Creating(_, _) => assert CreateStep(s, e.answer).log == s.log;
      case _ =>
    }
  }

  /** Pending counts were pending before, or have just been taken. */
  ghost predicate Carried(s: State, pc: PC) {
    forall x :: x in Pending(pc) ==> x in Pending(s.pc) || x.at == |s.log|
  }

  lemma CountCarries(s: State, a: Answer)
    requires s.pc.Counting? || s.pc.Recounting?
    ensures Carried(s, CountStep(s, a).pc)
  {
  }

  lemma LookupCarries(s: State, a: Answer)
    requires s.pc.Lookup? || s.pc.Checking?
    ensures Carried(s, LookupStep(s, a).pc)
  {
  }

  lemma FailureCarries(s: State)
    ensures Carried(s, CallFailed(s.pc))
  {
  }

  lemma CallCarries(s: State, e: Event)
    requires e.Call?
    ensures Carried(s, Step(s, e).pc)
  {
    if !e.ok {
      FailureCarries(s);
    } else if s.pc.Counting? || s.pc.Recounting? {
      CountCarries(s, e.answer);
    } else if s.pc.Lookup? || s.pc.Checking? {
      LookupCarries(s, e.answer);
    } else if s.pc.Creating? {
      assert Step(s, e) == CreateStep(s, e.answer);
    }
  }

  lemma SeenStep(s: State, e: Event, at: nat)
    requires e.Call? && SeenSince(Pending(s.pc), at) && at <= |s.log|
    ensures SeenSince(Pending(Step(s, e).pc), at)
  {
    CallCarries(s, e);
    var seen := Pending(Step(s, e).pc);
    forall x | 0 <= x < |seen| ensures seen[x].at >= at {
      assert seen[x] in seen;
    }
  }

  /** The successor's job is on the same lists, and its counts are no older. */
  ghost predicate Follows(log: seq<CheckResult>, job: Job, seen: seq<Seen>, job': Job, seen': seq<Seen>) {
    && job'.online == job.online
    && (job'.mon == job.mon || job'.mon in job.rest)
    && (forall q :: q in job'.rest ==> q in job.rest)
    && (forall at: nat :: at <= |log| && SeenSince(seen, at) ==> SeenSince(seen', at))
  }

  lemma JobListedStays(
    s0: State, es: seq<Event>, e: Event, job: Job, seen: seq<Seen>, job': Job, seen': seq<Seen>, h: nat, i: nat,
    ms: seq<Monitor>)
    requires JobListed(s0, es, job, seen, h, i, ms) && Follows(Run(s0, es).log, job, seen, job', seen')
    requires !Run(s0, es + [e]).pc.Idle?
    ensures JobListed(s0, es + [e], job', seen', h, i, ms)
  {
    SnapshotStays(s0, es, e, h, i, ms, job.online);
    assert (es + [e])[..i] == es[..i];
    LogGrows(s0, es, i);
  }

  lemma JobFromStays(s0: State, es: seq<Event>, e: Event, job: Job, seen: seq<Seen>, job': Job, seen': seq<Seen>)
    requires JobFrom(s0, es, job, seen) && Follows(Run(s0, es).log, job, seen, job', seen')
    requires !Run(s0, es + [e]).pc.Idle?
    ensures JobFrom(s0, es + [e], job', seen')
  {
    var h: nat, i: nat, ms :| JobListed(s0, es, job, seen, h, i, ms);
    JobListedStays(s0, es, e, job, seen, job', seen', h, i, ms);
  }

  lemma StepFollows(s: State, e: Event)
    requires !s.pc.Idle? && !s.pc.Loaded? && !e.Crash? && !Step(s, e).pc.Idle?
    ensures !Step(s, e).pc.Loaded? && Follows(s.log, s.pc.job, Pending(s.pc), Step(s, e).pc.job, Pending(Step(s, e).pc))
  {
    if e.Call? {
      StaysOrMovesOn(s, e);
      forall at: nat | at <= |s.log| && SeenSince(Pending(s.pc), at) ensures SeenSince(Pending(Step(s, e).pc), at) {
        SeenStep(s, e, at);
      }
    }
  }

  /** On to the next event with the job kept, or its successor taken up. */
  lemma JobStays(s0: State, es: seq<Event>, e: Event)
    requires var s := Run(s0, es); !s.pc.Idle? && !s.pc.Loaded? && JobFrom(s0, es, s.pc.job, Pending(s.pc))
    requires !e.Crash?
    ensures PcFrom(s0, es + [e])
  {
    Prefix(es, e);
    var s, s' := Run(s0, es), Run(s0, es + [e]);
    if !s'.pc.Idle? {
      StepFollows(s, e);
      JobFromStays(s0, es, e, s.pc.job, Pending(s.pc), s'.pc.job, Pending(s'.pc));
    }
  }

  lemma FromIdle(s: State, e: Event)
    requires s.pc.Idle?
    ensures Step(s, e).pc.Idle? || (Step(s, e).pc.Loaded? && IsEnabledList(Step(s, e).pc.ms, s.monitors))
  {
  }

  lemma FromLoaded(s: State, e: Event)
    requires s.pc.Loaded?
    ensures
      var pc := Step(s, e).pc;
      pc.Idle? || pc == s.pc || exists ids :: pc == StartMonitor(s.pc.ms, ids) && IsOnlineList(ids, s.nodes)
  {
  }

  lemma JustLoaded(s0: State, es: seq<Event>, e: Event, ms: seq<Monitor>)
    requires IsEnabledList(ms, Run(s0, es).monitors) && !Run(s0, es + [e]).pc.Idle?
    ensures LoadedAt(s0, es + [e], ms, |es|)
  {
    var es' := es + [e];
    assert es'[..|es|] == es && es'[..|es'|] == es';
  }

  lemma MonitorsLoaded(s0: State, es: seq<Event>, e: Event)
    requires Run(s0, es).pc.Idle?
    ensures PcFrom(s0, es + [e])
  {
    Prefix(es, e);
    FromIdle(Run(s0, es), e);
    var pc := Run(s0, es + [e]).pc;
    if pc.Loaded? { JustLoaded(s0, es, e, pc.ms); }
  }

  lemma LoadedStays(s0: State, es: seq<Event>, e: Event, ms: seq<Monitor>, h: nat)
    requires LoadedAt(s0, es, ms, h) && !Run(s0, es + [e]).pc.Idle?
    ensures LoadedAt(s0, es + [e], ms, h)
  {
    RunningOn(s0, es, e, h);
    assert (es + [e])[..h] == es[..h];
  }

  lemma JustOnline(
      s0: State, es: seq<Event>, e: Event, ms: seq<Monitor>, h: nat, online: seq<string>, rest: seq<Monitor>)
    requires LoadedAt(s0, es + [e], ms, h) && h < |es| && IsOnlineList(online, Run(s0, es).nodes)
    requires rest != [] && forall q :: q in rest ==> q in ms
    ensures JobListed(s0, es + [e], Job(rest[0], rest[1..], online), [], h, |es|, ms)
  {
    assert (es + [e])[..|es|] == es;
  }

  lemma NodesLoaded(s0: State, es: seq<Event>, e: Event)
    requires PcFrom(s0, es) && Run(s0, es).pc.Loaded?
    ensures PcFrom(s0, es + [e])
  {
    var s := Run(s0, es);
    Prefix(es, e);
    var s' := Run(s0, es + [e]);
    FromLoaded(s, e);
    if !s'.pc.Idle? {
      var h: nat :| LoadedAt(s0, es, s.pc.ms, h);
      LoadedStays(s0, es, e, s.pc.ms, h);
      if s'.pc != s.pc { JustOnline(s0, es, e, s.pc.ms, h, s'.pc.job.online, s.pc.ms); }
    }
  }

  lemma PcFromStep(s0: State, es: seq<Event>, e: Event)
    requires PcFrom(s0, es)
    ensures PcFrom(s0, es + [e])
  {
    var s := Run(s0, es);
    Prefix(es, e);
    if !e.Crash? {
      if s.pc.Idle? {
        MonitorsLoaded(s0, es, e);
      } else if s.pc.Loaded? {
        NodesLoaded(s0, es, e);
      } else {
        JobStays(s0, es, e);
      }
    }
  }

  /** Only the two writes record a verdict, and it is the job's. */
  lemma VerdictStep(s: State, e: Event)
    ensures
      || Step(s, e).verdicts == s.verdicts
      || (&& (s.pc.Confirming? || s.pc.Resolving?)
          && exists v ::
               && Step(s, e).verdicts == s.verdicts + [v]
               && v.mon == s.pc.job.mon && v.online == s.pc.job.online && v.seen == s.pc.seen)
  {
    if (s.pc.Confirming? || s.pc.Resolving?) && e.Call? && e.ok {
      var v := WriteStep(s).verdicts[|s.verdicts|];
      assert WriteStep(s).verdicts == s.verdicts + [v];
    } else {
      OnlyWritesRecord(s, e);
    }
  }

  lemma RecordedStays(s0: State, es: seq<Event>, e: Event, v: Verdict)
    requires Recorded(s0, es, v)
    ensures Recorded(s0, es + [e], v)
  {
    var n: nat :| VerdictFrom(s0, es, n, v);
    assert (es + [e])[..n] == es[..n] && (es + [e])[..n + 1] == es[..n + 1];
    assert VerdictFrom(s0, es + [e], n, v);
  }

  lemma RecordedStep(s0: State, es: seq<Event>, e: Event)
    requires PcFrom(s0, es) && AllRecorded(s0, es)
    ensures AllRecorded(s0, es + [e])
  {
    var s, es' := Run(s0, es), es + [e];
    Prefix(es, e);
    VerdictStep(s, e);
    forall v | v in Run(s0, es').verdicts ensures Recorded(s0, es', v) {
      if v in s.verdicts {
        RecordedStays(s0, es, e, v);
      } else {
        NewVerdictFrom(s0, es, s.pc.job, v);
        assert VerdictFrom(s0, es', |es|, v);
      }
    }
  }

  lemma NewVerdictFrom(s0: State, es: seq<Event>, job: Job, v: Verdict)
    requires JobFrom(s0, es, job, v.seen) && v.mon == job.mon && v.online == job.online
    ensures JobFrom(s0, es, Job(v.mon, [], v.online), v.seen)
  {
    var h: nat, i: nat, ms :| JobListed(s0, es, job, v.seen, h, i, ms);
    assert JobListed(s0, es, Job(v.mon, [], v.online), v.seen, h, i, ms);
  }

  /**
   Every verdict rests on the tables: in one uninterrupted tick its monitor was listed as an enabled row, its
   online list as exactly the online nodes, then its counts were taken, then it was recorded.
   */
  lemma {:induction false} VerdictsRestOnTables(s0: State, es: seq<Event>)
    requires Init(s0)
    ensures PcFrom(s0, es) && AllRecorded(s0, es)
  {
    if es != [] {
      var init, e := es[..|es| - 1], es[|es| - 1];
      VerdictsRestOnTables(s0, init);
      PcFromStep(s0, init, e);
      RecordedStep(s0, init, e);
      assert init + [e] == es;
    }
  }

  /**
   The tables behind v, spelled out: the row listed after h events, the nodes after i, the counts later, the
   verdict at n.
   */
  ghost predicate RestsOn(s0: State, es: seq<Event>, v: Verdict, h: nat, i: nat, n: nat) {
    && h < i < n < |es|
    && (exists k :: k in Run(s0, es[..h]).monitors && Run(s0, es[..h]).monitors[k] == v.mon && v.mon.enabled)
    && NoDup(v.online)
    && (forall k :: k in v.online <==> k in Run(s0, es[..i]).nodes && Run(s0, es[..i]).nodes[k].status == NodeOnline)
    && SeenSince(v.seen, |Run(s0, es[..i]).log|)
    && (forall j :: h < j <= n ==> !Run(s0, es[..j]).pc.Idle?)
    && Run(s0, es[..n + 1]).verdicts == Run(s0, es[..n]).verdicts + [v]
  }

  lemma TablesOf(s0: State, es: seq<Event>, v: Verdict) returns (h: nat, i: nat, n: nat)
    requires Init(s0) && v in Run(s0, es).verdicts
    ensures RestsOn(s0, es, v, h, i, n)
  {
    VerdictsRestOnTables(s0, es);
    assert Recorded(s0, es, v);
    n :| VerdictFrom(s0, es, n, v);
    var ms;
    h, i, ms := SnapshotOf(s0, es[..n], v);
    SnapshotInPrefix(s0, es, n, h, i, ms, v);
  }

  lemma SnapshotOf(s0: State, es: seq<Event>, v: Verdict) returns (h: nat, i: nat, ms: seq<Monitor>)
    requires JobFrom(s0, es, Job(v.mon, [], v.online), v.seen)
    ensures Snapshot(s0, es, h, i, ms, v.online) && v.mon in ms && SeenSince(v.seen, |Run(s0, es[..i]).log|)
  {
    h, i, ms :| JobListed(s0, es, Job(v.mon, [], v.online), v.seen, h, i, ms);
  }

  lemma SnapshotInPrefix(s0: State, es: seq<Event>, n: nat, h: nat, i: nat, ms: seq<Monitor>, v: Verdict)
    requires n < |es| && Run(s0, es[..n + 1]).verdicts == Run(s0, es[..n]).verdicts + [v]
    requires Snapshot(s0, es[..n], h, i, ms, v.online) && v.mon in ms && SeenSince(v.seen, |Run(s0, es[..n][..i]).log|)
    ensures RestsOn(s0, es, v, h, i, n)
  {
    assert es[..n][..h] == es[..h] && es[..n][..i] == es[..i];
    forall j | h < j <= n ensures !Run(s0, es[..j]).pc.Idle? { assert es[..n][..j] == es[..j]; }
  }
}
