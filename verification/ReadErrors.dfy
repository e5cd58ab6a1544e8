/** When read errors are harmless: exactly when a failing and a recovered quorum exclude each other. */
module ReadErrors {
  import opened Model
  import opened Streaks
  import opened Quorum
  import opened Protocol
  import opened Incidents
  import opened Evaluation
  import opened Decisions

  /** No failing query can make an evaluation send what the error-free one would not. */
  ghost predicate ErrorsHarmless(mon: Monitor, online: seq<string>) {
    forall log: seq<CheckResult>, active: Option<Incident>, failErrs: set<string>, upErrs: set<string> ::
      DistinctStamps(log) ==>
      OnlyDelays(Decide(log, mon, online, active, failErrs, upErrs), Decide(log, mon, online, active, {}, {}))
  }

  // ---------- logs in which chosen nodes report one status ----------

  /** t results of one node, at times from a on. */
  function Burst(m: string, n: string, status: CheckStatus, a: int, t: nat): seq<CheckResult> {
    seq(t, i => CheckResult(m, n, status, a + i))
  }

  function Reports(m: string, nodes: seq<string>, status: CheckStatus, a: int, t: nat): seq<CheckResult> {
    if nodes == [] then [] else Burst(m, nodes[0], status, a, t) + Reports(m, nodes[1..], status, a, t)
  }

  lemma {:induction false} ReportsRows(m: string, nodes: seq<string>, status: CheckStatus, a: int, t: nat)
    ensures forall r :: r in Reports(m, nodes, status, a, t) ==>
      r.monitorID == m && r.nodeID in nodes && r.status == status && a <= r.timestamp < a + t
  {
    if nodes != [] { ReportsRows(m, nodes[1..], status, a, t); }
  }

  lemma DistinctConcat(a: seq<CheckResult>, b: seq<CheckResult>)
    requires DistinctStamps(a) && DistinctStamps(b)
    requires forall r, q :: r in a && q in b ==> r.nodeID != q.nodeID || r.timestamp != q.timestamp
    ensures DistinctStamps(a + b)
  {
    var log := a + b;
    forall i, j | 0 <= i < j < |log| && Mine(log[j], log[i].monitorID, log[i].nodeID)
      ensures log[i].timestamp != log[j].timestamp
    {
      assert i < |a| ==> log[i] in a;
      assert j >= |a| ==> log[j] in b;
    }
  }

  lemma {:induction false} ReportsDistinct(m: string, nodes: seq<string>, status: CheckStatus, a: int, t: nat)
    requires NoDup(nodes)
    ensures DistinctStamps(Reports(m, nodes, status, a, t))
  {
    if nodes != [] {
      ReportsDistinct(m, nodes[1..], status, a, t);
      ReportsRows(m, nodes[1..], status, a, t);
      DistinctConcat(Burst(m, nodes[0], status, a, t), Reports(m, nodes[1..], status, a, t));
    }
  }

  lemma {:induction false} BurstSelected(m: string, n: string, status: CheckStatus, a: int, t: nat)
    ensures Select(Burst(m, n, status, a, t), m, n) == Burst(m, n, status, a, t)
  {
    if t > 0 {
      assert Burst(m, n, status, a, t)[..t - 1] == Burst(m, n, status, a, t - 1);
      BurstSelected(m, n, status, a, t - 1);
    }
  }

  lemma {:induction false} ReportsSelected(
      m: string, nodes: seq<string>, status: CheckStatus, a: int, t: nat, n: string)
    requires n in nodes
    ensures |Select(Reports(m, nodes, status, a, t), m, n)| >= t
  {
    var head, tail := Burst(m, nodes[0], status, a, t), Reports(m, nodes[1..], status, a, t);
    SelectAppend(head, tail, m, n);
    if n == nodes[0] { BurstSelected(m, n, status, a, t); } else { ReportsSelected(m, nodes[1..], status, a, t, n); }
  }

  /** A node all of whose results have one polarity is counted by their number. */
  lemma UniformNodePasses(log: seq<CheckResult>, mon: Monitor, up: bool, n: string)
    requires forall r :: r in log && Mine(r, mon.id, n) ==> r.status.Up? == up
    requires |Select(log, mon.id, n)| >= Threshold(mon, up) && Threshold(mon, up) <= LIMIT
    ensures Passes(log, mon, up, n)
  {
    var rows := Newest(Select(log, mon.id, n));
    NewestSorts(Select(log, mon.id, n));
    assert |multiset(rows)| == |rows|;
    forall i | 0 <= i < |rows| ensures rows[i].status.Up? == up {
      assert rows[i] in multiset(rows);
      SelectCounts(log, mon.id, n, rows[i]);
    }
    StreakAtLeast(rows, up, |rows|);
    CountedIsCappedStreak(rows, up);
  }

  lemma SilentNodeFails(log: seq<CheckResult>, mon: Monitor, up: bool, n: string)
    requires Threshold(mon, up) >= 1 && forall r :: r in log ==> !Mine(r, mon.id, n)
    ensures !Passes(log, mon, up, n)
  {
    var rows := Newest(Select(log, mon.id, n));
    NewestSorts(Select(log, mon.id, n));
    if rows != [] {
      assert rows[0] in multiset(rows);
      SelectCounts(log, mon.id, n, rows[0]);
    }
  }

  lemma {:induction false} PassingConcat(
      log: seq<CheckResult>, mon: Monitor, up: bool, a: seq<string>, b: seq<string>, errs: set<string>)
    ensures Passing(log, mon, up, a + b, errs) == Passing(log, mon, up, a, errs) + Passing(log, mon, up, b, errs)
  {
    if a == [] {
      assert a + b == b;
    } else {
      assert (a + b)[1..] == a[1..] + b;
      PassingConcat(log, mon, up, a[1..], b, errs);
    }
  }

  lemma {:induction false} PassingAll(log: seq<CheckResult>, mon: Monitor, up: bool, todo: seq<string>)
    requires forall n :: n in todo ==> Passes(log, mon, up, n)
    ensures |Passing(log, mon, up, todo, {})| == |todo|
  {
    if todo != [] { PassingAll(log, mon, up, todo[1..]); }
  }

  lemma {:induction false} PassingNone(
      log: seq<CheckResult>, mon: Monitor, up: bool, todo: seq<string>, errs: set<string>)
    requires forall n :: n in todo ==> n in errs || !Passes(log, mon, up, n)
    ensures Passing(log, mon, up, todo, errs) == []
  {
    if todo != [] { PassingNone(log, mon, up, todo[1..], errs); }
  }

  /** Half the nodes down and as many up: the log on which losing the down half's answers resolves a live incident. */
  function SplitLog(mon: Monitor, down: seq<string>, up: seq<string>): seq<CheckResult>
    requires mon.failureThreshold >= 0 && mon.recoveryThreshold >= 0
  {
    Reports(mon.id, down, Down, 0, mon.failureThreshold) + Reports(mon.id, up, Up, 0, mon.recoveryThreshold)
  }

  lemma NoDupHalves(a: seq<string>, b: seq<string>)
    requires NoDup(a + b)
    ensures NoDup(a) && NoDup(b) && forall n :: n in a ==> n !in b
  {
    assert forall i :: 0 <= i < |a| ==> (a + b)[i] == a[i];
    assert forall j :: 0 <= j < |b| ==> (a + b)[|a| + j] == b[j];
  }

  lemma SplitLogFacts(mon: Monitor, down: seq<string>, up: seq<string>)
    requires 1 <= mon.failureThreshold <= LIMIT && 1 <= mon.recoveryThreshold <= LIMIT
    requires NoDup(down + up)
    ensures DistinctStamps(SplitLog(mon, down, up))
    ensures forall n :: n in down ==> Passes(SplitLog(mon, down, up), mon, false, n)
    ensures forall n :: n in up ==> Passes(SplitLog(mon, down, up), mon, true, n)
    ensures forall n :: n !in down ==> !Passes(SplitLog(mon, down, up), mon, false, n)
  {
    var a, b := Reports(mon.id, down, Down, 0, mon.failureThreshold), Reports(mon.id, up, Up, 0, mon.recoveryThreshold);
    var log := a + b;
    NoDupHalves(down, up);
    ReportsRows(mon.id, down, Down, 0, mon.failureThreshold);
    ReportsRows(mon.id, up, Up, 0, mon.recoveryThreshold);
    ReportsDistinct(mon.id, down, Down, 0, mon.failureThreshold);
    ReportsDistinct(mon.id, up, Up, 0, mon.recoveryThreshold);
    DistinctConcat(a, b);
    forall n | n in down ensures Passes(log, mon, false, n) {
      SelectAppend(a, b, mon.id, n);
      ReportsSelected(mon.id, down, Down, 0, mon.failureThreshold, n);
      UniformNodePasses(log, mon, false, n);
    }
    forall n | n in up ensures Passes(log, mon, true, n) {
      SelectAppend(a, b, mon.id, n);
      ReportsSelected(mon.id, up, Up, 0, mon.recoveryThreshold, n);
      UniformNodePasses(log, mon, true, n);
    }
    forall n | n !in down ensures !Passes(log, mon, false, n) {
      if n in up { NotBothPass(log, mon, n); } else { SilentNodeFails(log, mon, false, n); }
    }
  }

  /** On the split log the whole down half is failing, the whole up half recovered, and no other node failing. */
  lemma SplitLogCounts(mon: Monitor, down: seq<string>, up: seq<string>, rest: seq<string>)
    requires 1 <= mon.failureThreshold <= LIMIT && 1 <= mon.recoveryThreshold <= LIMIT
    requires NoDup(down + up)
    ensures var log, online := SplitLog(mon, down, up), down + up + rest;
      && |Passing(log, mon, false, online, {})| >= |down|
      && |Passing(log, mon, true, online, {})| >= |up|
      && Passing(log, mon, false, online, Elements(down)) == []
  {
    var log := SplitLog(mon, down, up);
    SplitLogFacts(mon, down, up);
    PassingNone(log, mon, false, down + up + rest, Elements(down));
    PassingConcat(log, mon, false, down + up, rest, {});
    PassingConcat(log, mon, false, down, up, {});
    PassingAll(log, mon, false, down);
    PassingConcat(log, mon, true, down + up, rest, {});
    PassingConcat(log, mon, true, down, up, {});
    PassingAll(log, mon, true, up);
  }

  /** When quorums need not overlap, the nodes split into a failing quorum, a recovered one and the rest. */
  lemma TwoQuorums(mon: Monitor, online: seq<string>) returns (down: seq<string>, up: seq<string>, rest: seq<string>)
    requires NoDup(online) && 2 * Need(mon, |online|) <= |online|
    ensures online == down + up + rest && |down| == |up| == Need(mon, |online|) && NoDup(down + up)
  {
    var k := Need(mon, |online|);
    down, up, rest := online[..k], online[k..2 * k], online[2 * k..];
    assert online[..2 * k] == down + up;
  }

  lemma DisjointQuorumsAreHarmed(mon: Monitor, online: seq<string>, active: Incident)
    requires 1 <= mon.failureThreshold <= LIMIT && 1 <= mon.recoveryThreshold <= LIMIT
    requires NoDup(online) && 1 <= Need(mon, |online|) && 2 * Need(mon, |online|) <= |online|
    requires active.status.Confirmed?
    ensures !ErrorsHarmless(mon, online)
  {
    var down, up, rest := TwoQuorums(mon, online);
    var log, errs := SplitLog(mon, down, up), Elements(down);
    SplitLogFacts(mon, down, up);
    SplitLogCounts(mon, down, up, rest);
    LostAnswersResolve(log, mon, online, active, errs, Need(mon, |online|));
    var lossy := Decide(log, mon, online, Some(active), errs, {});
    var clean := Decide(log, mon, online, Some(active), {}, {});
    assert !OnlyDelays(lossy, clean);
  }

  /** The decision from the three counts alone. */
  lemma LostAnswersResolve(
      log: seq<CheckResult>, mon: Monitor, online: seq<string>, active: Incident, errs: set<string>, k: nat)
    requires k == Need(mon, |online|) && k >= 1 && active.status.Confirmed?
    requires |Passing(log, mon, false, online, errs)| == 0
    requires |Passing(log, mon, false, online, {})| >= k && |Passing(log, mon, true, online, {})| >= k
    ensures Decide(log, mon, online, Some(active), errs, {}).Recover?
    ensures Decide(log, mon, online, Some(active), {}, {}).NoChange?
  {
    CountSize(log, mon, false, online, errs);
    CountSize(log, mon, false, online, {});
    CountSize(log, mon, true, online, {});
    MetIffAtLeastNeed(mon, |CountAll(log, mon, false, online, errs, [])|, |online|);
    MetIffAtLeastNeed(mon, |CountAll(log, mon, false, online, {}, [])|, |online|);
    MetIffAtLeastNeed(mon, |CountAll(log, mon, true, online, {}, [])|, |online|);
  }

  lemma CountSize(log: seq<CheckResult>, mon: Monitor, up: bool, online: seq<string>, errs: set<string>)
    ensures |CountAll(log, mon, up, online, errs, [])| == |Passing(log, mon, up, online, errs)|
  {
    CountAllIsPassing(log, mon, up, online, errs, []);
    var c := CountAll(log, mon, up, online, errs, []);
    assert |Nodes(c)| == |c| && Nodes([]) == [];
  }

  /** A threshold above the LIMIT is never reached. */
  lemma {:induction false} NobodyPasses(
      log: seq<CheckResult>, mon: Monitor, up: bool, todo: seq<string>, errs: set<string>)
    requires Threshold(mon, up) > LIMIT
    ensures Passing(log, mon, up, todo, errs) == []
  {
    if todo != [] {
      CountedIsCappedStreak(Newest(Select(log, mon.id, todo[0])), up);
      NobodyPasses(log, mon, up, todo[1..], errs);
    }
  }

  /**
   A failing and a recovered quorum exclude each other: the rule's quorums overlap, or one of the two counts
   cannot reach its threshold under the LIMIT, or the rule needs no node and so never gets to recovery.
   */
  predicate Robust(mon: Monitor, total: nat) {
    Overlapping(mon, total) || mon.failureThreshold > LIMIT || mon.recoveryThreshold > LIMIT || Need(mon, total) == 0
  }

  lemma ErrorsOnlyDelay(
    log: seq<CheckResult>, mon: Monitor, online: seq<string>, active: Option<Incident>, failErrs: set<string>,
    upErrs: set<string>)
    requires mon.failureThreshold >= 1 && mon.recoveryThreshold >= 1 && Robust(mon, |online|)
    ensures OnlyDelays(Decide(log, mon, online, active, failErrs, upErrs), Decide(log, mon, online, active, {}, {}))
  {
    if Overlapping(mon, |online|) {
      ReadErrorsOnlyDelay(log, mon, online, active, failErrs, upErrs);
    } else if Need(mon, |online|) == 0 {
      MetIffAtLeastNeed(mon, |CountAll(log, mon, false, online, failErrs, [])|, |online|);
      DelaysUnlessBothMet(log, mon, online, active, failErrs, upErrs);
    } else {
      var up := mon.recoveryThreshold > LIMIT;
      NobodyPasses(log, mon, up, online, if up then upErrs else {});
      CountSize(log, mon, up, online, if up then upErrs else {});
      MetIffAtLeastNeed(mon, 0, |online|);
      DelaysUnlessBothMet(log, mon, online, active, failErrs, upErrs);
    }
  }

  /**
   The exact condition under which read errors only delay, for every rule: errors are harmless on every log if
   and only if any two quorums overlap, or a threshold is out of the query's reach, or the rule needs no node.
   */
  lemma ErrorsHarmlessIffRobust(mon: Monitor, online: seq<string>)
    requires mon.failureThreshold >= 1 && mon.recoveryThreshold >= 1 && NoDup(online)
    ensures ErrorsHarmless(mon, online) <==> Robust(mon, |online|)
  {
    if Robust(mon, |online|) {
      forall log: seq<CheckResult>, active: Option<Incident>, failErrs: set<string>, upErrs: set<string> |
        DistinctStamps(log)
        ensures OnlyDelays(Decide(log, mon, online, active, failErrs, upErrs), Decide(log, mon, online, active, {}, {}))
      {
        ErrorsOnlyDelay(log, mon, online, active, failErrs, upErrs);
      }
    } else {
      DisjointQuorumsAreHarmed(mon, online, ConfirmedIncident(NewIncident("i", mon.id, 1), [], 1));
    }
  }

  // ---------- the same over runs of single store calls ----------

  /** Two notices with one message: at most the list of confirming nodes is shorter in n. */
  ghost predicate SameMessage(n: Notice, n': Notice) {
    && n.Alert? == n'.Alert? && n.mon == n'.mon
    && n'.inc == n.inc.(confirmingNodes := n'.inc.confirmingNodes)
    && Elements(n.inc.confirmingNodes) <= Elements(n'.inc.confirmingNodes)
  }

  /** After the notices before, got says nothing more, or what clean says. */
  ghost predicate AtMostDelayed(before: seq<Notice>, got: seq<Notice>, clean: seq<Notice>) {
    got == before || exists n, n' :: got == before + [n] && clean == before + [n'] && SameMessage(n, n')
  }

  lemma DelayedOutcome(
    l: Ledger, mon: Monitor, online: seq<string>, active: Option<Incident>, st: Stamp, out: Outcome, out': Outcome)
    requires OnlyDelays(out, out')
    ensures AtMostDelayed(
      l.trace, Apply(l, mon, online, out, active, st).trace, Apply(l, mon, online, out', active, st).trace)
  {
    var got, clean := Apply(l, mon, online, out, active, st).trace, Apply(l, mon, online, out', active, st).trace;
    if got != l.trace {
      var n, n' := got[|l.trace|], clean[|l.trace|];
      assert got == l.trace + [n] && clean == l.trace + [n'] && SameMessage(n, n');
    }
  }

  /**
   Read errors only delay, call by call: one evaluation, with any count queries failing and the clock running,
   sends nothing, or the notice that the error-free evaluation of the same results would send.
   */
  lemma FailedCountsOnlyDelay(s: State, es: seq<Event>, job: Job, st: Stamp, failErrs: set<string>, upErrs: set<string>)
    requires TableOK(s) && DistinctStampsOf(s.log, job.mon.id) && st.id !in s.incidents
    requires s.pc == Counting(job, job.online, [])
    requires QuietRun(s, es, job, st, failErrs, upErrs) && !OnJob(Run(s, es).pc, job)
    requires job.mon.failureThreshold >= 1 && job.mon.recoveryThreshold >= 1 && Robust(job.mon, |job.online|)
    ensures AtMostDelayed(s.trace, Run(s, es).trace, Evaluate(Books(s), s.log, job.mon, job.online, st, {}, {}).trace)
  {
    QuietEvaluationIsAtomic(s, es, job, st, failErrs, upErrs);
    var active := ActiveOf(s.incidents, job.mon.id);
    ErrorsOnlyDelay(s.log, job.mon, job.online, active, failErrs, upErrs);
    DelayedOutcome(Books(s), job.mon, job.online, active, st,
      Decide(s.log, job.mon, job.online, active, failErrs, upErrs), Decide(s.log, job.mon, job.online, active, {}, {}));
  }
}
