/** The sequence of alerts and recoveries a monitor's subscribers see. */
module Notifications {
  import opened Model
  import opened Streaks
  import opened Protocol
  import opened Incidents

  // ---------- at most once per incident, in every run ----------

  ghost predicate SentOK(rows: map<string, Incident>, n: Notice) {
    && n.inc.id in rows
    && rows[n.inc.id].monitorID == n.inc.monitorID
    && !rows[n.inc.id].status.Suspect?
    && (n.Recovery? ==> rows[n.inc.id].status.Resolved?)
  }

  /** Notices about one incident: at most an alert and then a recovery. */
  ghost predicate AtMostOnce(trace: seq<Notice>) {
    forall i, j :: 0 <= i < j < |trace| && trace[i].inc.id == trace[j].inc.id ==> trace[i].Alert? && trace[j].Recovery?
  }

  ghost predicate Unsent(s: State) {
    && (s.pc.Alerting? ==> forall i :: 0 <= i < |s.trace| ==> s.trace[i].inc.id != s.pc.inc.id)
    && (s.pc.Announcing? ==>
          forall i :: 0 <= i < |s.trace| && s.trace[i].Recovery? ==> s.trace[i].inc.id != s.pc.inc.id)
  }

  ghost predicate TraceOK(s: State) {
    && (forall i :: 0 <= i < |s.trace| ==> SentOK(s.incidents, s.trace[i]))
    && AtMostOnce(s.trace)
    && Unsent(s)
  }

  lemma SentStays(s: State, e: Event)
    requires TableOK(s) && TraceOK(s)
    ensures forall i :: 0 <= i < |s.trace| ==> SentOK(Step(s, e).incidents, s.trace[i])
  {
    ForwardStep(s, e);
    forall i | 0 <= i < |s.trace| ensures SentOK(Step(s, e).incidents, s.trace[i]) {
      assert SentOK(s.incidents, s.trace[i]);
    }
  }

  lemma NextIsSilent(job: Job)
    ensures !Next(job).Alerting? && !Next(job).Announcing?
  {
  }

  lemma CountIsSilent(s: State, a: Answer)
    requires s.pc.Counting? || s.pc.Recounting?
    ensures !CountStep(s, a).pc.Alerting? && !CountStep(s, a).pc.Announcing?
  {
  }

  lemma FailureIsSilent(pc: PC)
    ensures CallFailed(pc).Alerting? || CallFailed(pc).Announcing? ==> CallFailed(pc) == pc
  {
  }

  /** The two notifying states are entered only by the two writes. */
  lemma OnlyWritesLeadToNotices(s: State, e: Event)
    ensures !(s.pc.Confirming? && e.Call? && e.ok) && Step(s, e).pc.Alerting? ==> s.pc == Step(s, e).pc
    ensures !(s.pc.Resolving? && e.Call? && e.ok) && Step(s, e).pc.Announcing? ==> s.pc == Step(s, e).pc
  {
    if e.Call? {
      if !e.ok {
        FailureIsSilent(s.pc);
      } else if s.pc.Counting? || s.pc.Recounting? {
        CountIsSilent(s, e.answer);
      } else if !s.pc.Idle? && !s.pc.Loaded? {
        NextIsSilent(s.pc.job);
      }
    }
  }

  lemma NotifyKeepsTrace(s: State)
    requires TableOK(s) && TraceOK(s) && (s.pc.Alerting? || s.pc.Announcing?)
    ensures TraceOK(NotifyStep(s))
  {
    forall i | 0 <= i < |s.trace| ensures SentOK(s.incidents, s.trace[i]) {}
  }

  lemma WriteKeepsTrace(s: State)
    requires TableOK(s) && TraceOK(s) && (s.pc.Confirming? || s.pc.Resolving?)
    ensures Unsent(WriteStep(s))
  {
    forall i | 0 <= i < |s.trace| && (s.pc.Confirming? || s.trace[i].Recovery?)
      ensures s.trace[i].inc.id != s.pc.inc.id
    {
      assert SentOK(s.incidents, s.trace[i]);
    }
  }

  lemma TraceStep(s: State, e: Event)
    requires TableOK(s) && TraceOK(s)
    ensures TraceOK(Step(s, e))
  {
    SentStays(s, e);
    OnlyNotifiersSend(s, e);
    OnlyWritesLeadToNotices(s, e);
    if (s.pc.Alerting? || s.pc.Announcing?) && e.Call? && e.ok {
      NotifyKeepsTrace(s);
    } else if (s.pc.Confirming? || s.pc.Resolving?) && e.Call? && e.ok {
      WriteKeepsTrace(s);
    }
  }

  lemma {:induction false} TraceRun(s: State, es: seq<Event>)
    requires TableOK(s) && TraceOK(s)
    ensures TraceOK(Run(s, es))
  {
    if es != [] {
      TableRun(s, es[..|es| - 1]);
      TraceRun(s, es[..|es| - 1]);
      TraceStep(Run(s, es[..|es| - 1]), es[|es| - 1]);
    }
  }

  /**
   With store calls failing at arbitrary points and crashes anywhere, each incident still gets at most
   one alert and at most one recovery, and never an alert after its recovery.
   */
  lemma AtMostOneAlertAndRecoveryPerIncident(s0: State, es: seq<Event>)
    requires Init(s0)
    ensures AtMostOnce(Run(s0, es).trace)
  {
    TraceRun(s0, es);
  }

  // ---------- alternation, unless a crash swallows a notice ----------

  /** The notices of one monitor. */
  function Of(trace: seq<Notice>, m: string): seq<Notice> {
    if trace == [] then []
    else
      var rest, n := Of(trace[..|trace| - 1], m), trace[|trace| - 1];
      if n.inc.monitorID == m then rest + [n] else rest
  }

  /** Alert, Recovery, Alert, Recovery, ... starting with Alert. */
  ghost predicate Alternates(t: seq<Notice>) {
    forall i :: 0 <= i < |t| ==> (t[i].Alert? <==> i % 2 == 0)
  }

  /** No recovery was ever sent for an incident that had not been confirmed. */
  ghost predicate RecoveriesConfirmed(trace: seq<Notice>) {
    forall i :: 0 <= i < |trace| && trace[i].Recovery? ==> trace[i].inc.confirmedAt != 0
  }

  /** A confirmed incident whose alert is out, or a resolved one whose recovery is still due. */
  ghost predicate Outstanding(s: State, m: string) {
    || (exists k :: k in s.incidents && s.incidents[k].status.Confirmed? && s.incidents[k].monitorID == m
          && !(s.pc.Alerting? && s.pc.inc.id == k))
    || (s.pc.Announcing? && s.pc.inc.monitorID == m && s.pc.inc.confirmedAt != 0)
  }

  ghost predicate InPhase(s: State, m: string) {
    && Alternates(Of(s.trace, m))
    && (|Of(s.trace, m)| % 2 == 1 <==> Outstanding(s, m))
  }

  /**
   While only confirmed incidents of m were announced recovered its notices are in phase; after that they never
   alternate again.
   */
  ghost predicate PhaseOK(s: State, m: string) {
    if RecoveriesConfirmed(Of(s.trace, m)) then InPhase(s, m) else !Alternates(Of(s.trace, m))
  }

  lemma WriteKeepsOutstanding(s: State, m: string)
    requires TableOK(s) && (s.pc.Confirming? || s.pc.Resolving?)
    ensures Outstanding(s, m) <==> Outstanding(WriteStep(s), m)
  {
    var s', id := WriteStep(s), s.pc.inc.id;
    assert s'.incidents == s.incidents[id := s'.incidents[id]];
    if Outstanding(s, m) {
      var k :| k in s.incidents && s.incidents[k].status.Confirmed? && s.incidents[k].monitorID == m;
      assert k != id ==> s'.incidents[k] == s.incidents[k];
    }
    if s'.pc.Announcing? && s'.pc.inc.monitorID == m && s'.pc.inc.confirmedAt != 0 {
      assert s.incidents[id].status.Confirmed?;
    }
  }

  lemma OutstandingStays(s: State, e: Event, m: string)
    requires TableOK(s) && !e.Crash? && !(e.Call? && e.ok && (s.pc.Alerting? || s.pc.Announcing?))
    ensures Outstanding(s, m) <==> Outstanding(Step(s, e), m)
  {
    if (s.pc.Confirming? || s.pc.Resolving?) && e.Call? && e.ok {
      WriteKeepsOutstanding(s, m);
    } else {
      var s' := Step(s, e);
      OnlyWritersChangeTable(s, e);
      OnlyNotifiersSend(s, e);
      OnlyWritesLeadToNotices(s, e);
      assert s.pc.Alerting? || s.pc.Announcing? ==> s'.pc == s.pc;
      assert forall k :: k in s.incidents ==> k in s'.incidents && s'.incidents[k] == s.incidents[k];
      assert forall k :: k in s'.incidents && s'.incidents[k].status.Confirmed? ==> k in s.incidents;
    }
  }

  lemma OfAppend(trace: seq<Notice>, n: Notice, m: string)
    ensures Of(trace + [n], m) == if n.inc.monitorID == m then Of(trace, m) + [n] else Of(trace, m)
  {
    assert (trace + [n])[..|trace|] == trace;
  }

  /** The next notice is an alert exactly when none is outstanding, and turns that around. */
  lemma PhaseSnoc(t: seq<Notice>, n: Notice)
    requires Alternates(t) && (n.Alert? <==> |t| % 2 == 0)
    ensures Alternates(t + [n]) && (|t + [n]| % 2 == 1 <==> n.Alert?)
  {
    assert |t + [n]| == |t| + 1;
  }

  lemma AlertOutstanding(s: State)
    requires TableOK(s) && s.pc.Alerting?
    ensures !Outstanding(s, s.pc.inc.monitorID) && Outstanding(NotifyStep(s), s.pc.inc.monitorID)
  {
    var s', inc := NotifyStep(s), s.pc.inc;
    assert !s'.pc.Alerting? && s'.incidents[inc.id].status.Confirmed?;
  }

  lemma RecoveryOutstanding(s: State)
    requires TableOK(s) && s.pc.Announcing? && s.pc.inc.confirmedAt != 0
    ensures Outstanding(s, s.pc.inc.monitorID) && !Outstanding(NotifyStep(s), s.pc.inc.monitorID)
  {
    assert !NotifyStep(s).pc.Announcing?;
  }

  lemma AlertKeepsPhase(s: State)
    requires TableOK(s) && s.pc.Alerting? && InPhase(s, s.pc.inc.monitorID)
    ensures InPhase(NotifyStep(s), s.pc.inc.monitorID)
  {
    var m, n := s.pc.inc.monitorID, Alert(s.pc.inc, s.pc.job.mon);
    AlertOutstanding(s);
    OfAppend(s.trace, n, m);
    PhaseSnoc(Of(s.trace, m), n);
    assert NotifyStep(s).trace == s.trace + [n];
  }

  lemma RecoveryKeepsPhase(s: State)
    requires TableOK(s) && s.pc.Announcing? && s.pc.inc.confirmedAt != 0 && InPhase(s, s.pc.inc.monitorID)
    ensures InPhase(NotifyStep(s), s.pc.inc.monitorID)
  {
    var m, n := s.pc.inc.monitorID, Recovery(s.pc.inc, s.pc.job.mon);
    RecoveryOutstanding(s);
    OfAppend(s.trace, n, m);
    PhaseSnoc(Of(s.trace, m), n);
    assert NotifyStep(s).trace == s.trace + [n];
  }

  lemma OthersKeepPhase(s: State, m: string)
    requires TableOK(s) && (s.pc.Alerting? || s.pc.Announcing?) && s.pc.inc.monitorID != m && InPhase(s, m)
    ensures InPhase(NotifyStep(s), m)
  {
    var s' := NotifyStep(s);
    assert !s'.pc.Alerting? && !s'.pc.Announcing?;
    OfAppend(s.trace, s'.trace[|s.trace|], m);
    assert Outstanding(s, m) <==> Outstanding(s', m);
  }

  lemma UnconfirmedRecoveryBreaksPhase(s: State)
    requires TableOK(s) && s.pc.Announcing? && s.pc.inc.confirmedAt == 0 && InPhase(s, s.pc.inc.monitorID)
    ensures !Alternates(Of(NotifyStep(s).trace, s.pc.inc.monitorID))
  {
    var m, n := s.pc.inc.monitorID, NotifyStep(s).trace[|s.trace|];
    OfAppend(s.trace, n, m);
    assert !Outstanding(s, m);
    assert Of(s.trace + [n], m)[|Of(s.trace, m)|] == n;
  }

  /** A crash here cannot swallow a notice about m. */
  ghost predicate Harmless(s: State, m: string) {
    s.pc.Alerting? || s.pc.Announcing? ==> s.pc.inc.monitorID != m
  }

  lemma CrashKeepsPhase(s: State, m: string)
    requires TableOK(s) && PhaseOK(s, m) && Harmless(s, m)
    ensures PhaseOK(Step(s, Crash), m)
  {
    assert Outstanding(s, m) <==> Outstanding(Step(s, Crash), m);
  }

  lemma OwnNoticeKeepsPhase(s: State)
    requires TableOK(s) && (s.pc.Alerting? || s.pc.Announcing?) && PhaseOK(s, s.pc.inc.monitorID)
    ensures PhaseOK(NotifyStep(s), s.pc.inc.monitorID)
  {
    var m, n := s.pc.inc.monitorID, NotifyStep(s).trace[|s.trace|];
    OfAppend(s.trace, n, m);
    ConfirmedSnoc(Of(s.trace, m), n);
    if !RecoveriesConfirmed(Of(s.trace, m)) {
      StaysBroken(Of(s.trace, m), n);
    } else if s.pc.Alerting? {
      AlertKeepsPhase(s);
    } else if s.pc.inc.confirmedAt != 0 {
      RecoveryKeepsPhase(s);
    } else {
      UnconfirmedRecoveryBreaksPhase(s);
    }
  }

  lemma StaysBroken(t: seq<Notice>, n: Notice)
    requires !Alternates(t)
    ensures !Alternates(t + [n])
  {
    assert forall i :: 0 <= i < |t| ==> (t + [n])[i] == t[i];
  }

  lemma OtherNoticeKeepsPhase(s: State, m: string)
    requires TableOK(s) && (s.pc.Alerting? || s.pc.Announcing?) && s.pc.inc.monitorID != m && PhaseOK(s, m)
    ensures PhaseOK(NotifyStep(s), m)
  {
    OfAppend(s.trace, NotifyStep(s).trace[|s.trace|], m);
    if RecoveriesConfirmed(Of(s.trace, m)) { OthersKeepPhase(s, m); }
  }

  lemma SilentStepKeepsPhase(s: State, e: Event, m: string)
    requires TableOK(s) && PhaseOK(s, m) && !e.Crash? && !(e.Call? && e.ok && (s.pc.Alerting? || s.pc.Announcing?))
    ensures PhaseOK(Step(s, e), m)
  {
    OnlyNotifiersSend(s, e);
    OutstandingStays(s, e, m);
  }

  lemma PhaseStep(s: State, e: Event, m: string)
    requires TableOK(s) && PhaseOK(s, m) && (e.Crash? ==> Harmless(s, m))
    ensures PhaseOK(Step(s, e), m)
  {
    if e.Crash? {
      CrashKeepsPhase(s, m);
    } else if !(e.Call? && e.ok && (s.pc.Alerting? || s.pc.Announcing?)) {
      SilentStepKeepsPhase(s, e, m);
    } else {
      assert Step(s, e) == NotifyStep(s);
      if s.pc.inc.monitorID == m { OwnNoticeKeepsPhase(s); } else { OtherNoticeKeepsPhase(s, m); }
    }
  }

  /** The coordinator may crash and restart, but not between writing an incident of m and sending its notice. */
  ghost predicate NoNoticeLost(s0: State, es: seq<Event>, m: string) {
    forall i :: 0 <= i < |es| && es[i].Crash? ==> Harmless(Run(s0, es[..i]), m)
  }

  lemma NoNoticeLostInit(s0: State, es: seq<Event>, m: string)
    requires NoNoticeLost(s0, es, m) && es != []
    ensures NoNoticeLost(s0, es[..|es| - 1], m)
    ensures es[|es| - 1].Crash? ==> Harmless(Run(s0, es[..|es| - 1]), m)
  {
    var init := es[..|es| - 1];
    assert forall i :: 0 <= i < |init| ==> init[..i] == es[..i] && init[i] == es[i];
  }

  lemma {:induction false} PhaseRun(s0: State, es: seq<Event>, m: string)
    requires Init(s0) && NoNoticeLost(s0, es, m)
    ensures PhaseOK(Run(s0, es), m)
  {
    if es != [] {
      var init, e := es[..|es| - 1], es[|es| - 1];
      NoNoticeLostInit(s0, es, m);
      TableRun(s0, init);
      PhaseRun(s0, init, m);
      PhaseStep(Run(s0, init), e, m);
    }
  }

  /**
   Trace alternation of one monitor, with its exact condition. In a run that loses no notice about m to a crash,
   however store calls fail and whatever happens to other monitors, m's notices alternate Alert, Recovery, ... if
   and only if no recovery was sent for an incident of m that had never been confirmed: the resolving branch does
   not look at the status.
   */
  lemma AlternationIffRecoveriesConfirmed(s0: State, es: seq<Event>, m: string)
    requires Init(s0) && NoNoticeLost(s0, es, m)
    ensures Alternates(Of(Run(s0, es).trace, m)) <==> RecoveriesConfirmed(Of(Run(s0, es).trace, m))
  {
    PhaseRun(s0, es, m);
  }

  // ---------- the same condition as a guard of the resolving branch ----------

  /** What m has been sent, with the recovery that is about to be. */
  ghost function Due(s: State, m: string): seq<Notice> {
    if s.pc.Announcing? then Of(s.trace + [Recovery(s.pc.inc, s.pc.job.mon)], m) else Of(s.trace, m)
  }

  /** ResolveIncident succeeds on an incident of m that is still suspect: the check the branch does not make. */
  ghost predicate ResolvesSuspect(s: State, e: Event, m: string) {
    s.pc.Resolving? && s.pc.inc.status.Suspect? && s.pc.inc.monitorID == m && e.Call? && e.ok
  }

  ghost predicate NeverResolvesSuspect(s0: State, es: seq<Event>, m: string) {
    forall i :: 0 <= i < |es| ==> !ResolvesSuspect(Run(s0, es[..i]), es[i], m)
  }

  lemma ConfirmedSnoc(t: seq<Notice>, n: Notice)
    ensures RecoveriesConfirmed(t + [n]) <==> RecoveriesConfirmed(t) && (n.Recovery? ==> n.inc.confirmedAt != 0)
  {
    assert forall i :: 0 <= i < |t| ==> (t + [n])[i] == t[i];
    assert (t + [n])[|t|] == n;
  }

  lemma OfConfirmedSnoc(t: seq<Notice>, n: Notice, m: string)
    ensures RecoveriesConfirmed(Of(t + [n], m))
      <==> RecoveriesConfirmed(Of(t, m)) && (n.inc.monitorID == m && n.Recovery? ==> n.inc.confirmedAt != 0)
  {
    OfAppend(t, n, m);
    ConfirmedSnoc(Of(t, m), n);
  }

  lemma DueStep(s: State, e: Event, m: string)
    requires TableOK(s) && (e.Crash? ==> Harmless(s, m))
    ensures RecoveriesConfirmed(Due(Step(s, e), m)) <==> RecoveriesConfirmed(Due(s, m)) && !ResolvesSuspect(s, e, m)
  {
    if e.Crash? {
      CrashKeepsDue(s, m);
    } else if e.Call? && e.ok && s.pc.Resolving? {
      assert Step(s, e) == WriteStep(s) && WriteStep(s).pc.inc.confirmedAt == s.pc.inc.confirmedAt;
      OfConfirmedSnoc(s.trace, Recovery(WriteStep(s).pc.inc, s.pc.job.mon), m);
    } else if e.Call? && e.ok && s.pc.Alerting? {
      assert Step(s, e) == NotifyStep(s);
      OfConfirmedSnoc(s.trace, Alert(s.pc.inc, s.pc.job.mon), m);
    } else if e.Call? && e.ok && s.pc.Announcing? {
      assert Step(s, e) == NotifyStep(s);
    } else {
      OtherStepKeepsDue(s, e, m);
    }
  }

  lemma CrashKeepsDue(s: State, m: string)
    requires Harmless(s, m)
    ensures Due(Step(s, Crash), m) == Due(s, m)
  {
    if s.pc.Announcing? { OfAppend(s.trace, Recovery(s.pc.inc, s.pc.job.mon), m); }
  }

  lemma OtherStepKeepsDue(s: State, e: Event, m: string)
    requires !e.Crash? && !(e.Call? && e.ok && (s.pc.Resolving? || s.pc.Alerting? || s.pc.Announcing?))
    ensures Due(Step(s, e), m) == Due(s, m)
  {
    OnlyNotifiersSend(s, e);
    OnlyWritesLeadToNotices(s, e);
  }

  lemma NeverResolvesSuspectSnoc(s0: State, es: seq<Event>, e: Event, m: string)
    ensures NeverResolvesSuspect(s0, es + [e], m)
      <==> NeverResolvesSuspect(s0, es, m) && !ResolvesSuspect(Run(s0, es), e, m)
  {
    var es' := es + [e];
    assert es'[..|es|] == es && es'[|es|] == e;
    assert forall i :: 0 <= i < |es| ==> es'[..i] == es[..i] && es'[i] == es[i];
  }

  lemma DueSnoc(s0: State, es: seq<Event>, e: Event, m: string)
    requires TableOK(Run(s0, es)) && (e.Crash? ==> Harmless(Run(s0, es), m))
    requires RecoveriesConfirmed(Due(Run(s0, es), m)) <==> NeverResolvesSuspect(s0, es, m)
    ensures RecoveriesConfirmed(Due(Run(s0, es + [e]), m)) <==> NeverResolvesSuspect(s0, es + [e], m)
  {
    var s := Run(s0, es);
    assert (es + [e])[..|es|] == es;
    DueStep(s, e, m);
    NeverResolvesSuspectSnoc(s0, es, e, m);
  }

  lemma {:induction false} DueRun(s0: State, es: seq<Event>, m: string)
    requires Init(s0) && NoNoticeLost(s0, es, m)
    ensures RecoveriesConfirmed(Due(Run(s0, es), m)) <==> NeverResolvesSuspect(s0, es, m)
  {
    if es != [] {
      var init, e := es[..|es| - 1], es[|es| - 1];
      assert init + [e] == es;
      NoNoticeLostInit(s0, es, m);
      TableRun(s0, init);
      DueRun(s0, init, m);
      DueSnoc(s0, init, e, m);
    }
  }

  /** A pending recovery can be sent at once. */
  lemma DueIsSent(s0: State, es: seq<Event>, m: string) returns (es': seq<Event>)
    requires Run(s0, es).pc.Announcing? && NoNoticeLost(s0, es, m)
    ensures NoNoticeLost(s0, es', m) && Of(Run(s0, es').trace, m) == Due(Run(s0, es), m)
  {
    var e := Call(true, Nothing);
    es' := es + [e];
    assert es'[..|es|] == es;
    assert forall i :: 0 <= i < |es| ==> es'[..i] == es[..i] && es'[i] == es[i];
    assert Step(Run(s0, es), e) == NotifyStep(Run(s0, es));
  }

  /**
   Trace alternation of one monitor, decided at the writes. In a run that loses no notice about m to a crash,
   however calls fail and whatever happens to other monitors, m's notices (with the recovery that is due)
   alternate starting with an alert if and only if no incident of m was resolved while still suspect. That is the
   guard the resolving branch lacks.
   */
  lemma AlternationIffNoSuspectResolved(s0: State, es: seq<Event>, m: string)
    requires Init(s0) && NoNoticeLost(s0, es, m)
    ensures Alternates(Due(Run(s0, es), m)) <==> NeverResolvesSuspect(s0, es, m)
  {
    DueRun(s0, es, m);
    if Run(s0, es).pc.Announcing? {
      var es' := DueIsSent(s0, es, m);
      AlternationIffRecoveriesConfirmed(s0, es', m);
    } else {
      AlternationIffRecoveriesConfirmed(s0, es, m);
    }
  }

  // ---------- which store errors matter ----------

  /** No UpdateIncident that confirms an incident of m ever failed or was cut off by a crash. Every other call may. */
  ghost predicate ConfirmationsSucceed(s0: State, es: seq<Event>, m: string) {
    forall i :: 0 <= i < |es| ==> !ConfirmationFails(Run(s0, es[..i]), es[i], m)
  }

  ghost predicate ConfirmationFails(s: State, e: Event, m: string) {
    s.pc.Confirming? && s.pc.inc.monitorID == m && (e.Crash? || (e.Call? && !e.ok))
  }

  /** Then the only suspect incident of m is the one being confirmed. */
  ghost predicate NoSuspectLeft(s: State, m: string) {
    && (forall k :: k in s.incidents && s.incidents[k].monitorID == m && s.incidents[k].status.Suspect?
          ==> s.pc.Confirming? && s.pc.inc.id == k)
    && (s.pc.Announcing? && s.pc.inc.monitorID == m ==> s.pc.inc.confirmedAt != 0)
  }

  lemma NoSuspectStep(s: State, e: Event, m: string)
    requires TableOK(s) && NoSuspectLeft(s, m) && !ConfirmationFails(s, e, m)
    ensures NoSuspectLeft(Step(s, e), m) && !ResolvesSuspect(s, e, m)
  {
    OnlyWritersChangeTable(s, e);
    OnlyWritesLeadToNotices(s, e);
  }

  lemma ConfirmationsSucceedInit(s0: State, es: seq<Event>, m: string)
    requires ConfirmationsSucceed(s0, es, m) && es != []
    ensures ConfirmationsSucceed(s0, es[..|es| - 1], m)
    ensures !ConfirmationFails(Run(s0, es[..|es| - 1]), es[|es| - 1], m)
  {
    var init := es[..|es| - 1];
    assert forall i :: 0 <= i < |init| ==> init[..i] == es[..i] && init[i] == es[i];
  }

  lemma {:induction false} NoSuspectRun(s0: State, es: seq<Event>, m: string)
    requires Init(s0) && ConfirmationsSucceed(s0, es, m)
    ensures NoSuspectLeft(Run(s0, es), m) && NeverResolvesSuspect(s0, es, m)
  {
    if es != [] {
      var init, e := es[..|es| - 1], es[|es| - 1];
      ConfirmationsSucceedInit(s0, es, m);
      TableRun(s0, init);
      NoSuspectRun(s0, init, m);
      NoSuspectStep(Run(s0, init), e, m);
      NeverResolvesSuspectSnoc(s0, init, e, m);
      assert init + [e] == es;
    }
  }

  /**
   Failed reads, failed creations, failed resolutions and everything that happens to other monitors are harmless:
   m's alternation only needs the confirming updates of m's incidents to succeed.
   */
  lemma OnlyFailedConfirmationsBreakAlternation(s0: State, es: seq<Event>, m: string)
    requires Init(s0) && NoNoticeLost(s0, es, m) && ConfirmationsSucceed(s0, es, m)
    ensures Alternates(Due(Run(s0, es), m)) && Alternates(Of(Run(s0, es).trace, m))
  {
    NoSuspectRun(s0, es, m);
    AlternationIffNoSuspectResolved(s0, es, m);
    SentAlternates(Run(s0, es), m);
  }

  lemma SentAlternates(s: State, m: string)
    requires Alternates(Due(s, m))
    ensures Alternates(Of(s.trace, m))
  {
    if s.pc.Announcing? {
      OfAppend(s.trace, Recovery(s.pc.inc, s.pc.job.mon), m);
      assert forall i :: 0 <= i < |Of(s.trace, m)| ==> Due(s, m)[i] == Of(s.trace, m)[i];
    }
  }

  // ---------- the failing family is real ----------

  lemma Extend(s: State, es: seq<Event>, e: Event) returns (es': seq<Event>)
    requires Faultless(es) && !e.Crash? && (e.Call? ==> e.ok)
    ensures es' == es + [e] && Faultless(es') && Run(s, es') == Step(Run(s, es), e)
  {
    es' := es + [e];
    assert es'[..|es|] == es;
  }

  /** A suspect incident left behind, and the one online node up again. */
  ghost predicate Abandoned(s: State, job: Job, i: Incident, rows: seq<CheckResult>) {
    && job.rest == [] && |job.online| == 1
    && s.pc == Counting(job, job.online, []) && s.incidents == map[i.id := i] && s.trace == []
    && i.status.Suspect? && i.confirmedAt == 0 && i.monitorID == job.mon.id
    && IsNewestFirst(s.log, job.mon.id, job.online[0], rows) && Counted(rows, false) == 0 && Counted(rows, true) >= 1
    && job.mon.quorumType.Majority? && job.mon.failureThreshold == 1 && job.mon.recoveryThreshold == 1
  }

  lemma RecoveryCounted(s: State, job: Job, i: Incident, rows: seq<CheckResult>)
    requires Abandoned(s, job, i, rows)
    ensures
      var t := Step(Step(Step(s, Call(true, Rows(rows))), Call(true, Active(Some(i)))), Call(true, Rows(rows)));
      t.pc.Resolving? && t.pc.inc == i && t.pc.job == job && t.trace == []
  {
    assert job.online[1..] == [];
    var t1 := Step(s, Call(true, Rows(rows)));
    assert t1.pc == Checking(job);
    var t2 := Step(t1, Call(true, Active(Some(i))));
    assert t2.pc == Recounting(job, i, job.online, []);
  }

  lemma RecoverySent(s: State)
    requires s.pc.Resolving? && s.trace == []
    ensures Step(Step(s, Call(true, Nothing)), Call(true, Nothing)).trace
         == [Recovery(ResolvedIncident(s.pc.inc, s.now), s.pc.job.mon)]
  {
    var t := Step(s, Call(true, Nothing));
    assert t == WriteStep(s);
    assert Step(t, Call(true, Nothing)) == NotifyStep(t);
  }

  /** From there, one faultless pass sends a bare recovery. */
  lemma BareRecovery(s: State, es: seq<Event>, job: Job, i: Incident, rows: seq<CheckResult>) returns (es': seq<Event>)
    requires Faultless(es) && Abandoned(Run(s, es), job, i, rows)
    ensures Faultless(es') && |Run(s, es').trace| == 1
    ensures var n := Run(s, es').trace[0]; n.Recovery? && n.inc.id == i.id && n.inc.confirmedAt == 0 && n.mon == job.mon
  {
    RecoveryCounted(Run(s, es), job, i, rows);
    es' := Extend(s, es, Call(true, Rows(rows)));
    es' := Extend(s, es', Call(true, Active(Some(i))));
    es' := Extend(s, es', Call(true, Rows(rows)));
    RecoverySent(Run(s, es'));
    es' := Extend(s, es', Call(true, Nothing));
    es' := Extend(s, es', Call(true, Nothing));
  }

  lemma ListsLoaded(s: State, mon: Monitor, n: string)
    requires s.pc.Idle? && s.monitors == map[mon.id := mon] && mon.enabled
    requires s.nodes.Keys == {n} && s.nodes[n].status.NodeOnline?
    ensures Step(Step(s, Call(true, Monitors([mon]))), Call(true, OnlineNodes([n])))
         == s.(pc := Counting(Job(mon, [], [n]), [n], []))
  {
    assert mon.id in s.monitors && IsEnabledList([mon], s.monitors);
    assert [mon][1..] == [];
  }

  lemma SuspectCreated(s: State, mon: Monitor, n: string, rows: seq<CheckResult>)
    requires s.pc == Counting(Job(mon, [], [n]), [n], []) && s.incidents == map[]
    requires mon.quorumType.Majority? && mon.failureThreshold == 1
    requires IsNewestFirst(s.log, mon.id, n, rows) && Counted(rows, false) >= 1
    ensures
      var t := Step(Step(Step(s, Call(true, Rows(rows))), Call(true, Active(None))), Call(true, FreshID("i")));
      && t.pc.Confirming? && t.pc.job == Job(mon, [], [n])
      && t == s.(incidents := map["i" := NewIncident("i", mon.id, s.now)], pc := t.pc)
  {
    assert [n][1..] == [];
    var t1 := Step(s, Call(true, Rows(rows)));
    assert t1.pc.Lookup?;
    var t2 := Step(t1, Call(true, Active(None)));
    assert t2.pc.Creating?;
  }

  /** A store with one monitor and one online node, which has reported one failure. */
  ghost predicate OneFailure(s: State, mon: Monitor, n: string, down: CheckResult) {
    && Init(s) && s.log == [down] && s.monitors == map[mon.id := mon] && mon.enabled
    && s.nodes.Keys == {n} && s.nodes[n].status.NodeOnline?
    && mon.quorumType.Majority? && mon.failureThreshold == 1 && mon.recoveryThreshold == 1
    && Mine(down, mon.id, n) && down.status.Down?
  }

  /** A faultless run up to the confirming update. */
  lemma SuspectFound(s: State, mon: Monitor, n: string, down: CheckResult) returns (es: seq<Event>)
    requires OneFailure(s, mon, n, down)
    ensures Faultless(es) && Run(s, es).pc.Confirming? && Run(s, es).pc.job.rest == []
    ensures Run(s, es) == s.(incidents := map["i" := NewIncident("i", mon.id, s.now)], pc := Run(s, es).pc)
  {
    ListsLoaded(s, mon, n);
    es := Extend(s, [], Call(true, Monitors([mon])));
    es := Extend(s, es, Call(true, OnlineNodes([n])));
    OneRow(down, mon.id, n);
    SuspectCreated(Run(s, es), mon, n, [down]);
    es := Extend(s, es, Call(true, Rows([down])));
    es := Extend(s, es, Call(true, Active(None)));
    es := Extend(s, es, Call(true, FreshID("i")));
  }

  /**
   The state a failed confirming update leaves: a faultless run from it in which the node comes up ends in a bare
   recovery.
   */
  lemma RecoversUnalerted(
      s: State, mon: Monitor, n: string, down: CheckResult, up: CheckResult, i: Incident)
      returns (es: seq<Event>)
    requires OneFailure(s.(incidents := map[]), mon, n, down) && s.incidents == map[i.id := i]
    requires i == NewIncident(i.id, mon.id, i.startedAt)
    requires Mine(up, mon.id, n) && up.status.Up? && up.timestamp > down.timestamp
    ensures Faultless(es) && |Run(s, es).trace| == 1
    ensures var t := Run(s, es).trace[0]; t.Recovery? && t.inc.id == i.id && t.inc.confirmedAt == 0 && t.mon == mon
  {
    es := Extend(s, [], Arrive(up));
    ListsLoaded(Run(s, es), mon, n);
    es := Extend(s, es, Call(true, Monitors([mon])));
    es := Extend(s, es, Call(true, OnlineNodes([n])));
    UpAfterDown(down, up, mon.id, n);
    es := BareRecovery(s, es, Job(mon, [], [n]), i, [up] + [down]);
  }

  /**
   A run whose only fault is one failed confirming update, between the faultless parts es and fs, and whose only
   notice is the recovery of the incident that update was to confirm.
   */
  lemma OneFailedConfirmationBreaksAlternation(s0: State, mon: Monitor, n: string, down: CheckResult, up: CheckResult)
    returns (es: seq<Event>, fs: seq<Event>)
    requires OneFailure(s0, mon, n, down) && Mine(up, mon.id, n) && up.status.Up? && up.timestamp > down.timestamp
    ensures Faultless(es) && Faultless(fs) && Run(s0, es).pc.Confirming?
    ensures var t := Run(s0, es + [Call(false, Nothing)] + fs).trace;
      |t| == 1 && t[0].Recovery? && t[0].inc.id == Run(s0, es).pc.inc.id && t[0].inc.confirmedAt == 0 && t[0].mon == mon
  {
    es := SuspectFound(s0, mon, n, down);
    var failed := es + [Call(false, Nothing)];
    assert failed[..|es|] == es;
    TableRun(s0, es);
    var i := NewIncident("i", mon.id, s0.now);
    assert Run(s0, failed) == s0.(incidents := map["i" := i]);
    fs := RecoversUnalerted(Run(s0, failed), mon, n, down, up, i);
    RunAppend(s0, failed, fs);
  }

  lemma OneRow(r: CheckResult, m: string, n: string)
    requires Mine(r, m, n)
    ensures IsNewestFirst([r], m, n, [r]) && (!r.status.Up? ==> Counted([r], false) >= 1)
  {
    assert Select([r], m, n) == [r];
  }

  lemma UpAfterDown(down: CheckResult, up: CheckResult, m: string, n: string)
    requires Mine(down, m, n) && Mine(up, m, n) && !down.status.Up? && up.status.Up? && up.timestamp > down.timestamp
    ensures IsNewestFirst([down] + [up], m, n, [up] + [down])
    ensures Counted([up] + [down], false) == 0 && Counted([up] + [down], true) >= 1
  {
    PairIsAnswer(down, up);
    HeadDecides([up] + [down], false);
    HeadDecides([up] + [down], true);
  }
}
