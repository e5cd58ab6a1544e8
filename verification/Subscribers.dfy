/** Hysteresis as a monitor's subscribers see it: over the notices they receive, not the verdicts behind them. */
module Subscribers {
  import opened Streaks
  import opened Protocol
  import opened Incidents
  import opened Hysteresis
  import opened Notifications

  /** v is the verdict that n announces. */
  ghost predicate Announces(n: Notice, v: Verdict) {
    v.id == n.inc.id && v.up == n.Recovery? && v.mon == n.mon
  }

  /** The notice about to be sent. */
  ghost function DueNotice(s: State): seq<Notice> {
    if s.pc.Alerting? then [Alert(s.pc.inc, s.pc.job.mon)]
    else if s.pc.Announcing? then [Recovery(s.pc.inc, s.pc.job.mon)]
    else []
  }

  ghost predicate HasVerdict(vs: seq<Verdict>, n: Notice) {
    exists x: nat :: x < |vs| && Announces(n, vs[x])
  }

  /** Notices announce verdicts, each an own one, in the order in which the verdicts were recorded. */
  ghost predicate Chronicle(trace: seq<Notice>, vs: seq<Verdict>) {
    && (forall t :: 0 <= t < |trace| ==> HasVerdict(vs, trace[t]))
    && (forall t, u, x, y ::
          (&& 0 <= t < u < |trace| && 0 <= x < |vs| && 0 <= y < |vs|
           && Announces(trace[t], vs[x]) && Announces(trace[u], vs[y]))
          ==> x < y)
  }

  /** The notice that is due announces the last verdict. */
  ghost predicate ChronicleOK(s: State) {
    && Chronicle(s.trace + DueNotice(s), s.verdicts)
    && (s.pc.Alerting? || s.pc.Announcing? ==>
          |s.verdicts| > 0 && Announces(DueNotice(s)[0], s.verdicts[|s.verdicts| - 1]))
  }

  lemma ChroniclePrefix(trace: seq<Notice>, n: Notice, vs: seq<Verdict>)
    requires Chronicle(trace + [n], vs)
    ensures Chronicle(trace, vs)
  {
    assert forall t :: 0 <= t < |trace| ==> (trace + [n])[t] == trace[t];
    forall t | 0 <= t < |trace| ensures HasVerdict(vs, trace[t]) { assert HasVerdict(vs, (trace + [n])[t]); }
  }

  lemma OneVerdict(vs: seq<Verdict>, n: Notice, x: nat, y: nat)
    requires Ordered(vs) && x < |vs| && y < |vs| && Announces(n, vs[x]) && Announces(n, vs[y])
    ensures x == y
  {
  }

  /** Recording one more verdict leaves the old notices with theirs. */
  lemma OldNoticesKeepVerdicts(trace: seq<Notice>, vs: seq<Verdict>, v: Verdict, t: nat)
    requires Chronicle(trace, vs) && Ordered(vs + [v]) && t < |trace|
    ensures HasVerdict(vs + [v], trace[t])
    ensures forall y :: 0 <= y <= |vs| && Announces(trace[t], (vs + [v])[y]) ==> y < |vs|
  {
    assert HasVerdict(vs, trace[t]);
    var x: nat :| x < |vs| && Announces(trace[t], vs[x]);
    assert (vs + [v])[x] == vs[x];
    forall y | 0 <= y <= |vs| && Announces(trace[t], (vs + [v])[y]) ensures y < |vs| {
      OneVerdict(vs + [v], trace[t], x, y);
    }
  }

  /** A new verdict is announced by no earlier notice, so announcing it comes last. */
  lemma ChronicleSnoc(trace: seq<Notice>, vs: seq<Verdict>, n: Notice, v: Verdict)
    requires Chronicle(trace, vs) && Ordered(vs + [v]) && Announces(n, v)
    ensures Chronicle(trace + [n], vs + [v])
  {
    var trace', vs' := trace + [n], vs + [v];
    assert vs'[|vs|] == v && trace'[|trace|] == n;
    forall t | 0 <= t <= |trace| ensures HasVerdict(vs', trace'[t]) {
      if t < |trace| { OldNoticesKeepVerdicts(trace, vs, v, t); }
    }
    forall t, u, x, y |
      && 0 <= t < u <= |trace| && 0 <= x <= |vs| && 0 <= y <= |vs|
      && Announces(trace'[t], vs'[x]) && Announces(trace'[u], vs'[y])
      ensures x < y
    {
      OldNoticesKeepVerdicts(trace, vs, v, t);
      assert trace'[t] == trace[t] && x < |vs| && vs'[x] == vs[x];
      if u < |trace| {
        OldNoticesKeepVerdicts(trace, vs, v, u);
        assert trace'[u] == trace[u] && vs'[y] == vs[y];
      } else {
        OneVerdict(vs', n, y, |vs|);
      }
    }
  }

  lemma WriteKeepsChronicle(s: State)
    requires ChronicleOK(s) && (s.pc.Confirming? || s.pc.Resolving?) && Ordered(WriteStep(s).verdicts)
    ensures ChronicleOK(WriteStep(s))
  {
    var s' := WriteStep(s);
    var v, n := s'.verdicts[|s.verdicts|], DueNotice(s')[0];
    assert s'.verdicts == s.verdicts + [v] && s.trace + [] == s.trace && Announces(n, v);
    ChronicleSnoc(s.trace, s.verdicts, n, v);
    assert DueNotice(s') == [n];
  }

  lemma NotifyKeepsChronicle(s: State)
    requires ChronicleOK(s) && (s.pc.Alerting? || s.pc.Announcing?)
    ensures ChronicleOK(NotifyStep(s))
  {
    var s' := NotifyStep(s);
    assert s'.trace == s.trace + DueNotice(s) && DueNotice(s') == [] && s'.trace + [] == s'.trace;
  }

  lemma CrashKeepsChronicle(s: State)
    requires ChronicleOK(s)
    ensures ChronicleOK(Step(s, Crash))
  {
    assert s.trace + [] == s.trace;
    if s.pc.Alerting? || s.pc.Announcing? { ChroniclePrefix(s.trace, DueNotice(s)[0], s.verdicts); }
  }

  /** Elsewhere nothing is recorded and nothing becomes due. */
  lemma OtherwiseSame(s: State, e: Event)
    requires !e.Crash?
    requires !(e.Call? && e.ok && (s.pc.Confirming? || s.pc.Resolving? || s.pc.Alerting? || s.pc.Announcing?))
    ensures Step(s, e).verdicts == s.verdicts && Step(s, e).trace == s.trace && DueNotice(Step(s, e)) == DueNotice(s)
    ensures (s.pc.Alerting? || s.pc.Announcing?) <==> (Step(s, e).pc.Alerting? || Step(s, e).pc.Announcing?)
  {
    OnlyNotifiersSend(s, e);
    OnlyWritesLeadToNotices(s, e);
    OnlyWritesRecord(s, e);
  }

  lemma OtherwiseKeepsChronicle(s: State, e: Event)
    requires !e.Crash?
    requires !(e.Call? && e.ok && (s.pc.Confirming? || s.pc.Resolving? || s.pc.Alerting? || s.pc.Announcing?))
    requires ChronicleOK(s)
    ensures ChronicleOK(Step(s, e))
  {
    OtherwiseSame(s, e);
  }

  lemma StepIs(s: State, a: Answer)
    ensures s.pc.Confirming? || s.pc.Resolving? ==> Step(s, Call(true, a)) == WriteStep(s)
    ensures s.pc.Alerting? || s.pc.Announcing? ==> Step(s, Call(true, a)) == NotifyStep(s)
  {
  }

  lemma ChronicleStep(s: State, e: Event)
    requires ChronicleOK(s) && Ordered(Step(s, e).verdicts)
    ensures ChronicleOK(Step(s, e))
  {
    if e.Crash? {
      CrashKeepsChronicle(s);
    } else if e.Call? && e.ok && (s.pc.Confirming? || s.pc.Resolving?) {
      StepIs(s, e.answer);
      WriteKeepsChronicle(s);
    } else if e.Call? && e.ok && (s.pc.Alerting? || s.pc.Announcing?) {
      StepIs(s, e.answer);
      NotifyKeepsChronicle(s);
    } else {
      OtherwiseKeepsChronicle(s, e);
    }
  }

  lemma {:induction false} ChronicleRun(s0: State, es: seq<Event>)
    requires Init(s0)
    ensures ChronicleOK(Run(s0, es))
  {
    if es != [] {
      ReachableOK(s0, es);
      ChronicleRun(s0, es[..|es| - 1]);
      ChronicleStep(Run(s0, es[..|es| - 1]), es[|es| - 1]);
    }
  }

  /** Where the i-th notice of m stands among all notices. */
  lemma {:induction false} PositionOf(trace: seq<Notice>, m: string, i: nat) returns (t: nat)
    requires i < |Of(trace, m)|
    ensures t < |trace| && trace[t] == Of(trace, m)[i] && trace[t].inc.monitorID == m
    ensures Of(trace[..t], m) == Of(trace, m)[..i]
  {
    var n := |trace| - 1;
    if i < |Of(trace[..n], m)| {
      t := PositionOf(trace[..n], m, i);
      assert trace[..n][..t] == trace[..t];
    } else {
      t := n;
    }
  }

  lemma {:induction false} OfGrows(trace: seq<Notice>, m: string, t: nat)
    requires t <= |trace|
    ensures |Of(trace[..t], m)| <= |Of(trace, m)|
  {
    if t < |trace| {
      var n := |trace| - 1;
      assert trace[..n][..t] == trace[..t];
      OfGrows(trace[..n], m, t);
    } else {
      assert trace[..t] == trace;
    }
  }

  lemma PositionsInOrder(trace: seq<Notice>, m: string, i: nat, j: nat) returns (t: nat, u: nat)
    requires i < j < |Of(trace, m)|
    ensures t < u < |trace| && trace[t] == Of(trace, m)[i] && trace[u] == Of(trace, m)[j]
    ensures trace[t].inc.monitorID == m == trace[u].inc.monitorID
  {
    t := PositionOf(trace, m, i);
    u := PositionOf(trace, m, j);
    if t >= u {
      assert trace[..t][..u] == trace[..u];
      OfGrows(trace[..t], m, u);
      assert false;
    }
  }

  lemma AnnouncedInOrder(s: State, m: string, i: nat, j: nat) returns (x: nat, y: nat)
    requires ChronicleOK(s) && LinkOK(s.incidents, s.verdicts) && TraceOK(s) && i < j < |Of(s.trace, m)|
    ensures x < y < |s.verdicts|
    ensures Announces(Of(s.trace, m)[i], s.verdicts[x]) && Announces(Of(s.trace, m)[j], s.verdicts[y])
    ensures s.verdicts[x].mon.id == m == s.verdicts[y].mon.id
  {
    var t, u := PositionsInOrder(s.trace, m, i, j);
    x := Announced(s, t);
    y := Announced(s, u);
    var all := s.trace + DueNotice(s);
    assert all[t] == s.trace[t] && all[u] == s.trace[u];
  }

  lemma Announced(s: State, t: nat) returns (x: nat)
    requires ChronicleOK(s) && LinkOK(s.incidents, s.verdicts) && TraceOK(s) && t < |s.trace|
    ensures x < |s.verdicts| && Announces(s.trace[t], s.verdicts[x]) && s.verdicts[x].mon.id == s.trace[t].inc.monitorID
  {
    assert (s.trace + DueNotice(s))[t] == s.trace[t];
    assert HasVerdict(s.verdicts, (s.trace + DueNotice(s))[t]);
    x :| x < |s.verdicts| && Announces((s.trace + DueNotice(s))[t], s.verdicts[x]);
    assert SentOK(s.incidents, s.trace[t]) && Behind(s.incidents, s.verdicts[x]);
  }

  /** In every run, two notices of a monitor announce two verdicts on it, recorded in the same order. */
  lemma NoticesAnnounce(s0: State, es: seq<Event>, m: string, i: nat, j: nat) returns (x: nat, y: nat)
    requires Init(s0) && i < j < |Of(Run(s0, es).trace, m)|
    ensures var s := Run(s0, es);
      && x < y < |s.verdicts|
      && Announces(Of(s.trace, m)[i], s.verdicts[x]) && Announces(Of(s.trace, m)[j], s.verdicts[y])
      && s.verdicts[x].mon.id == m == s.verdicts[y].mon.id
  {
    ReachableOK(s0, es);
    ChronicleRun(s0, es);
    TraceRun(s0, es);
    x, y := AnnouncedInOrder(Run(s0, es), m, i, j);
  }

  /**
   Hysteresis over notices. Between an alert and a later recovery of a monitor, or a recovery and a later alert,
   whatever failed or crashed meanwhile: if the two decisions had one electorate and overlapping quorums, a node
   behind both gained at least a threshold of fresh results of the new polarity between its two counts.
   */
  lemma OppositeNoticesNeedFreshResults(
      s0: State, es: seq<Event>, m: string, i: nat, j: nat)
      returns (v: Verdict, w: Verdict)
    requires Init(s0) && DistinctStampsOf(Run(s0, es).log, m) && i < j < |Of(Run(s0, es).trace, m)|
    requires var t := Of(Run(s0, es).trace, m); t[i].Alert? != t[j].Alert? && Threshold(t[i].mon, t[i].Recovery?) >= 1
    ensures var s := Run(s0, es);
      && v in s.verdicts && w in s.verdicts && v.mon.id == m == w.mon.id
      && Announces(Of(s.trace, m)[i], v) && Announces(Of(s.trace, m)[j], w)
      && (SameElectorate(v, w) ==> exists a, b :: Flipped(s.log, v, w, a, b))
  {
    var s := Run(s0, es);
    var x, y := NoticesAnnounce(s0, es, m, i, j);
    v, w := s.verdicts[x], s.verdicts[y];
    if SameElectorate(v, w) {
      ReachableOK(s0, es);
      CountsExceedElectorate(s, v, w);
      var a, b := OppositeVerdictsNeedFreshResults(s0, es, x, y);
    }
  }
}
