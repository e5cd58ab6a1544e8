/**
 README.md promises that a recovery needs a majority of nodes. Over runs: recoveries are majority decisions exactly
 when the rule's quorums overlap; otherwise a run without any fault ends in a recovery decided by a minority.
 */
module Minority {
  import opened Model
  import opened Streaks
  import opened Quorum
  import opened Protocol
  import opened Hysteresis
  import opened Evaluation
  import opened Decisions
  import opened ReadErrors
  import opened Flapping

  /** In any run, a recovery decided under a rule whose quorums overlap counted more than half of its online nodes. */
  lemma OverlappingRecoveriesAreMajorities(s0: State, es: seq<Event>, v: Verdict)
    requires Init(s0) && v in Run(s0, es).verdicts && v.up && Overlapping(v.mon, |v.online|)
    ensures 2 * |v.seen| > |v.online|
  {
    ReachableOK(s0, es);
    var x :| 0 <= x < |Run(s0, es).verdicts| && Run(s0, es).verdicts[x] == v;
    MetIffAtLeastNeed(v.mon, |v.seen|, |v.online|);
  }

  // ---------- a log in which some nodes failed and then came up, and the others are silent ----------

  function DownLog(mon: Monitor, nodes: seq<string>): seq<CheckResult>
    requires mon.failureThreshold >= 0
  {
    Reports(mon.id, nodes, Down, 0, mon.failureThreshold)
  }

  function UpLog(mon: Monitor, nodes: seq<string>): seq<CheckResult>
    requires mon.recoveryThreshold >= 0
  {
    Reports(mon.id, nodes, Up, mon.failureThreshold, mon.recoveryThreshold)
  }

  predicate Reachable(mon: Monitor) {
    1 <= mon.failureThreshold <= LIMIT && 1 <= mon.recoveryThreshold <= LIMIT
  }

  /** Later up rows end up on top of earlier non-up rows. */
  lemma UpsOnTop(rows: seq<CheckResult>, downs: seq<CheckResult>, ups: seq<CheckResult>, b: int)
    requires SortedNewestFirst(rows) && multiset(rows) == multiset(downs + ups)
    requires (forall r :: r in downs ==> !r.status.Up? && r.timestamp < b)
    requires (forall r :: r in ups ==> r.status.Up? && r.timestamp >= b)
    ensures Streak(rows, true) >= |ups|
  {
    assert |multiset(rows)| == |rows| && |multiset(downs + ups)| == |downs + ups|;
    forall i | 0 <= i < |ups| ensures rows[i].status.Up? {
      if !rows[i].status.Up? { DownRowIsBelowAllUps(rows, downs, ups, b, i); }
    }
    StreakAtLeast(rows, true, |ups|);
  }

  lemma DownRowIsBelowAllUps(rows: seq<CheckResult>, downs: seq<CheckResult>, ups: seq<CheckResult>, b: int, i: nat)
    requires SortedNewestFirst(rows) && multiset(rows) == multiset(downs + ups) && i < |rows| && !rows[i].status.Up?
    requires (forall r :: r in downs ==> !r.status.Up? && r.timestamp < b)
    requires (forall r :: r in ups ==> r.status.Up? && r.timestamp >= b)
    ensures |ups| <= i
  {
    assert rows[i] in multiset(rows);
    assert rows[i] in downs + ups && rows[i] in downs;
    assert rows == rows[..i] + rows[i..];
    forall r ensures multiset(ups)[r] <= multiset(rows[..i])[r] {
      if r in ups {
        assert multiset(downs + ups)[r] == multiset(downs)[r] + multiset(ups)[r];
        assert multiset(rows)[r] == multiset(rows[..i])[r] + multiset(rows[i..])[r];
      }
    }
    SubMultisetSize(multiset(ups), multiset(rows[..i]));
  }

  lemma SelectedRows(log: seq<CheckResult>, m: string, n: string)
    ensures forall r :: r in Select(log, m, n) ==> r in log
  {
    forall r | r in Select(log, m, n) ensures r in log {
      SelectCounts(log, m, n, r);
      assert r in multiset(Select(log, m, n)) && r in multiset(log);
    }
  }

  lemma CameUp(mon: Monitor, nodes: seq<string>, n: string)
    requires Reachable(mon) && n in nodes
    ensures Passes(DownLog(mon, nodes) + UpLog(mon, nodes), mon, true, n)
  {
    var d, u := DownLog(mon, nodes), UpLog(mon, nodes);
    SelectAppend(d, u, mon.id, n);
    SelectedRows(d, mon.id, n);
    SelectedRows(u, mon.id, n);
    ReportsRows(mon.id, nodes, Down, 0, mon.failureThreshold);
    ReportsRows(mon.id, nodes, Up, mon.failureThreshold, mon.recoveryThreshold);
    ReportsSelected(mon.id, nodes, Up, mon.failureThreshold, mon.recoveryThreshold, n);
    var rows := Newest(Select(d + u, mon.id, n));
    NewestSorts(Select(d + u, mon.id, n));
    UpsOnTop(rows, Select(d, mon.id, n), Select(u, mon.id, n), mon.failureThreshold);
    CountedIsCappedStreak(rows, true);
  }

  lemma WentDown(mon: Monitor, nodes: seq<string>, n: string)
    requires Reachable(mon) && n in nodes
    ensures Passes(DownLog(mon, nodes), mon, false, n)
  {
    ReportsRows(mon.id, nodes, Down, 0, mon.failureThreshold);
    ReportsSelected(mon.id, nodes, Down, 0, mon.failureThreshold, n);
    UniformNodePasses(DownLog(mon, nodes), mon, false, n);
  }

  lemma LogsAreDistinct(mon: Monitor, nodes: seq<string>)
    requires Reachable(mon) && NoDup(nodes)
    ensures DistinctStamps(DownLog(mon, nodes)) && DistinctStamps(DownLog(mon, nodes) + UpLog(mon, nodes))
  {
    ReportsDistinct(mon.id, nodes, Down, 0, mon.failureThreshold);
    ReportsDistinct(mon.id, nodes, Up, mon.failureThreshold, mon.recoveryThreshold);
    ReportsRows(mon.id, nodes, Down, 0, mon.failureThreshold);
    ReportsRows(mon.id, nodes, Up, mon.failureThreshold, mon.recoveryThreshold);
    DistinctConcat(DownLog(mon, nodes), UpLog(mon, nodes));
  }

  /** Before: the nodes are a failing quorum. After: nobody fails, and exactly those nodes have recovered. */
  lemma LogCounts(mon: Monitor, nodes: seq<string>, rest: seq<string>)
    requires Reachable(mon) && NoDup(nodes + rest)
    ensures |Passing(DownLog(mon, nodes), mon, false, nodes + rest, {})| >= |nodes|
    ensures Passing(DownLog(mon, nodes) + UpLog(mon, nodes), mon, false, nodes + rest, {}) == []
    ensures |Passing(DownLog(mon, nodes) + UpLog(mon, nodes), mon, true, nodes + rest, {})| == |nodes|
  {
    var before, after := DownLog(mon, nodes), DownLog(mon, nodes) + UpLog(mon, nodes);
    NoDupHalves(nodes, rest);
    ReportsRows(mon.id, nodes, Down, 0, mon.failureThreshold);
    ReportsRows(mon.id, nodes, Up, mon.failureThreshold, mon.recoveryThreshold);
    forall n | n in nodes
      ensures Passes(before, mon, false, n) && Passes(after, mon, true, n) && !Passes(after, mon, false, n)
    {
      WentDown(mon, nodes, n);
      CameUp(mon, nodes, n);
      NotBothPass(after, mon, n);
    }
    forall n | n in rest ensures !Passes(after, mon, false, n) && !Passes(after, mon, true, n) {
      SilentNodeFails(after, mon, false, n);
      SilentNodeFails(after, mon, true, n);
    }
    PassingConcat(before, mon, false, nodes, rest, {});
    PassingAll(before, mon, false, nodes);
    PassingNone(after, mon, false, nodes + rest, {});
    PassingConcat(after, mon, true, nodes, rest, {});
    PassingAll(after, mon, true, nodes);
    PassingNone(after, mon, true, rest, {});
  }

  // ---------- the run ----------

  function Arrivals(rs: seq<CheckResult>): seq<Event> {
    seq(|rs|, i requires 0 <= i < |rs| => Arrive(rs[i]))
  }

  lemma {:induction false} ArrivalsRun(s: State, rs: seq<CheckResult>)
    ensures Run(s, Arrivals(rs)) == s.(log := s.log + rs)
  {
    if rs == [] {
      assert s.log + [] == s.log;
    } else {
      var init, r := rs[..|rs| - 1], rs[|rs| - 1];
      ArrivalsRun(s, init);
      assert Arrivals(rs)[..|rs| - 1] == Arrivals(init);
      assert s.log + init + [r] == s.log + rs;
    }
  }

  /** A recovered quorum resolves the alerted incident, and its verdict lists the nodes counted. */
  lemma QuorumRecovers(
      l: Ledger, log: seq<CheckResult>, mon: Monitor, online: seq<string>, i: Incident, st: Stamp)
      returns (v: Verdict)
    requires Alerted(l, mon, i) && 1 <= Need(mon, |online|) && Passing(log, mon, false, online, {}) == []
    requires |Passing(log, mon, true, online, {})| >= Need(mon, |online|)
    ensures v in Evaluate(l, log, mon, online, st, {}, {}).verdicts
    ensures v.up && v.mon == mon && v.online == online && |v.seen| == |Passing(log, mon, true, online, {})|
  {
    CountSize(log, mon, false, online, {});
    CountSize(log, mon, true, online, {});
    var failing, recovered := CountAll(log, mon, false, online, {}, []), CountAll(log, mon, true, online, {}, []);
    MetIffAtLeastNeed(mon, |failing|, |online|);
    MetIffAtLeastNeed(mon, |recovered|, |online|);
    assert i.id in l.incidents && Open(l.incidents[i.id], mon.id);
    assert ActiveOf(l.incidents, mon.id) == Some(i);
    v := Verdict(true, i.id, mon, online, recovered);
    assert Evaluate(l, log, mon, online, st, {}, {}).verdicts == l.verdicts + [v];
  }

  /** A coordinator about to make its first tick, with the failing log and the given nodes online. */
  ghost predicate Failing(s: State, mon: Monitor, nodes: seq<string>, rest: seq<string>) {
    && Init(s) && Reachable(mon) && s.log == DownLog(mon, nodes)
    && mon.enabled && s.monitors == map[mon.id := mon] && IsOnlineList(nodes + rest, s.nodes)
    && NoDup(nodes + rest) && |nodes| == Need(mon, |nodes + rest|) && 1 <= |nodes|
  }

  /** First tick: an alert. */
  lemma FirstTick(s: State, mon: Monitor, nodes: seq<string>, rest: seq<string>) returns (es: seq<Event>, i: Incident)
    requires Failing(s, mon, nodes, rest)
    ensures Faultless(es) && Resting(Run(s, es), mon, nodes + rest, s.log) && Alerted(Books(Run(s, es)), mon, i)
  {
    NoDupHalves(nodes, rest);
    LogsAreDistinct(mon, nodes);
    LogCounts(mon, nodes, rest);
    es := OneTickRuns(s, mon, nodes + rest, s.log, "i", {});
    i := QuorumAlerts(s.log, mon, nodes + rest, Stamp("i", s.now, s.now));
  }

  /** The nodes report up, with everything else as the first tick left it. */
  lemma NodesComeUp(s: State, mon: Monitor, nodes: seq<string>, rest: seq<string>) returns (t: State)
    requires Reachable(mon) && NoDup(nodes + rest) && Resting(s, mon, nodes + rest, DownLog(mon, nodes))
    ensures Run(s, Arrivals(UpLog(mon, nodes))) == t && Books(t) == Books(s)
    ensures Resting(t, mon, nodes + rest, DownLog(mon, nodes) + UpLog(mon, nodes))
  {
    NoDupHalves(nodes, rest);
    LogsAreDistinct(mon, nodes);
    ArrivalsRun(s, UpLog(mon, nodes));
    t := s.(log := DownLog(mon, nodes) + UpLog(mon, nodes));
  }

  /** The second tick recovers by their votes alone. */
  lemma UpNodesRecover(s: State, mon: Monitor, nodes: seq<string>, rest: seq<string>, i: Incident)
    returns (es: seq<Event>, v: Verdict)
    requires Reachable(mon) && NoDup(nodes + rest) && |nodes| == Need(mon, |nodes + rest|) && 1 <= |nodes|
    requires Resting(s, mon, nodes + rest, DownLog(mon, nodes) + UpLog(mon, nodes)) && Alerted(Books(s), mon, i)
    ensures Faultless(es)
    ensures v in Run(s, es).verdicts && v.up && v.mon == mon && v.online == nodes + rest && |v.seen| == |nodes|
  {
    var log, id := DownLog(mon, nodes) + UpLog(mon, nodes), i.id + ['x'];
    assert |id| != |i.id|;
    LogCounts(mon, nodes, rest);
    es := OneTickRuns(s, mon, nodes + rest, log, id, {});
    v := QuorumRecovers(Books(s), log, mon, nodes + rest, i, Stamp(id, s.now, s.now));
  }

  lemma SecondTick(s: State, mon: Monitor, nodes: seq<string>, rest: seq<string>, i: Incident)
    returns (es: seq<Event>, v: Verdict)
    requires Reachable(mon) && NoDup(nodes + rest) && |nodes| == Need(mon, |nodes + rest|) && 1 <= |nodes|
    requires Resting(s, mon, nodes + rest, DownLog(mon, nodes)) && Alerted(Books(s), mon, i)
    ensures Faultless(es)
    ensures v in Run(s, es).verdicts && v.up && v.mon == mon && v.online == nodes + rest && |v.seen| == |nodes|
  {
    var t := NodesComeUp(s, mon, nodes, rest);
    var fs;
    fs, v := UpNodesRecover(t, mon, nodes, rest, i);
    RunAppend(s, Arrivals(UpLog(mon, nodes)), fs);
    es := Arrivals(UpLog(mon, nodes)) + fs;
  }

  /**
   For every rule there is a run without a crash or a failed call in which the least number of nodes the rule
   asks for fails, comes up, and alone decides the recovery, all other nodes being online and silent.
   */
  lemma LeastQuorumRecovers(
      s0: State, mon: Monitor, nodes: seq<string>, rest: seq<string>)
      returns (es: seq<Event>, v: Verdict)
    requires Failing(s0, mon, nodes, rest)
    ensures Faultless(es) && v in Run(s0, es).verdicts && v.up && v.mon == mon && v.online == nodes + rest
    ensures |v.seen| == Need(mon, |v.online|)
  {
    var a, i := FirstTick(s0, mon, nodes, rest);
    var b;
    b, v := SecondTick(Run(s0, a), mon, nodes, rest, i);
    RunAppend(s0, a, b);
    es := a + b;
  }

  // ---------- exactly when the promise holds ----------

  /** Every recovery of this monitor over these online nodes, in every run from every store, counted a majority. */
  ghost predicate RecoveriesAreMajorities(mon: Monitor, online: seq<string>) {
    forall s0, es, v :: Init(s0) && v in Run(s0, es).verdicts && v.up && v.mon == mon && v.online == online ==>
      2 * |v.seen| > |online|
  }

  function OnlineNode(n: string): Node {
    Node(n, n, "", "", "", NodeOnline, 0, 0)
  }

  /** A store in which exactly these nodes are online and the first of them have failed. */
  lemma FailingStore(mon: Monitor, nodes: seq<string>, rest: seq<string>) returns (s0: State)
    requires Reachable(mon) && mon.enabled && NoDup(nodes + rest) && |nodes| == Need(mon, |nodes + rest|)
    requires 1 <= |nodes|
    ensures Failing(s0, mon, nodes, rest)
  {
    var table := map n | n in nodes + rest :: OnlineNode(n);
    s0 := State(DownLog(mon, nodes), map[], table, map[mon.id := mon], 1, Idle, [], []);
  }

  /** The documented promise holds of a rule on a set of nodes if and only if any two of its quorums overlap. */
  lemma RecoveriesAreMajoritiesIffOverlapping(mon: Monitor, online: seq<string>)
    requires Reachable(mon) && mon.enabled && NoDup(online) && 1 <= Need(mon, |online|)
    ensures RecoveriesAreMajorities(mon, online) <==> Overlapping(mon, |online|)
  {
    if Overlapping(mon, |online|) {
      forall s0, es, v | Init(s0) && v in Run(s0, es).verdicts && v.up && v.mon == mon && v.online == online
        ensures 2 * |v.seen| > |online|
      {
        OverlappingRecoveriesAreMajorities(s0, es, v);
      }
    } else {
      var k := Need(mon, |online|);
      assert online == online[..k] + online[k..];
      var s0 := FailingStore(mon, online[..k], online[k..]);
      var es, v := LeastQuorumRecovers(s0, mon, online[..k], online[k..]);
      assert 2 * |v.seen| <= |online|;
    }
  }
}
