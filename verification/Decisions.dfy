/** Read errors, repetition, monitor order and delivery order: what may change a decision and what may not. */
module Decisions {
  import opened Model
  import opened Streaks
  import opened Quorum
  import opened Protocol
  import opened Incidents
  import opened Notifications
  import opened Evaluation

  ghost predicate Passes(log: seq<CheckResult>, mon: Monitor, up: bool, n: string) {
    Counted(Newest(Select(log, mon.id, n)), up) >= Threshold(mon, up)
  }

  /** The nodes of todo that are counted, in order. */
  ghost function Passing(
      log: seq<CheckResult>, mon: Monitor, up: bool, todo: seq<string>, errs: set<string>): seq<string>
  {
    if todo == [] then []
    else PassingOne(log, mon, up, todo[0], errs) + Passing(log, mon, up, todo[1..], errs)
  }

  /** What one query adds to the counted nodes. */
  ghost function PassingOne(log: seq<CheckResult>, mon: Monitor, up: bool, n: string, errs: set<string>): seq<string> {
    if n !in errs && Passes(log, mon, up, n) then [n] else []
  }

  lemma NotePasses(log: seq<CheckResult>, mon: Monitor, up: bool, n: string, errs: set<string>, seen: seq<Seen>)
    ensures Nodes(if n in errs then seen else Note(seen, n, |log|, Newest(Select(log, mon.id, n)), mon, up))
         == Nodes(seen) + PassingOne(log, mon, up, n, errs)
  {
    assert Nodes(seen) + [] == Nodes(seen);
  }

  lemma Regroup(a: seq<string>, b: seq<string>, c: seq<string>)
    ensures a + b + c == a + (b + c)
  {
  }

  lemma {:induction false} CountAllIsPassing(
      log: seq<CheckResult>, mon: Monitor, up: bool, todo: seq<string>, errs: set<string>, seen: seq<Seen>)
    ensures Nodes(CountAll(log, mon, up, todo, errs, seen)) == Nodes(seen) + Passing(log, mon, up, todo, errs)
  {
    if todo == [] {
      assert Nodes(seen) + [] == Nodes(seen);
    } else {
      var n := todo[0];
      var seen' := if n in errs then seen else Note(seen, n, |log|, Newest(Select(log, mon.id, n)), mon, up);
      NotePasses(log, mon, up, n, errs, seen);
      CountAllIsPassing(log, mon, up, todo[1..], errs, seen');
      Regroup(Nodes(seen), PassingOne(log, mon, up, n, errs), Passing(log, mon, up, todo[1..], errs));
    }
  }

  // ---------- read errors ----------

  lemma {:induction false} ErrorsOnlyDropNodes(
      log: seq<CheckResult>, mon: Monitor, up: bool, todo: seq<string>, errs: set<string>)
    ensures |Passing(log, mon, up, todo, errs)| <= |Passing(log, mon, up, todo, {})|
    ensures Elements(Passing(log, mon, up, todo, errs)) <= Elements(Passing(log, mon, up, todo, {}))
  {
    if todo != [] {
      ErrorsOnlyDropNodes(log, mon, up, todo[1..], errs);
      var few, all := Passing(log, mon, up, todo[1..], errs), Passing(log, mon, up, todo[1..], {});
      var h := if Passes(log, mon, up, todo[0]) then [todo[0]] else [];
      ElementsConcat(h, all);
      ElementsConcat(if todo[0] in errs then [] else h, few);
    }
  }

  lemma NotBothPass(log: seq<CheckResult>, mon: Monitor, n: string)
    requires mon.failureThreshold >= 1 && mon.recoveryThreshold >= 1
    ensures !(Passes(log, mon, false, n) && Passes(log, mon, true, n))
  {
    var rows := Newest(Select(log, mon.id, n));
    if rows != [] { ExactlyOneCountPositive(rows); }
  }

  /** Failing and recovered nodes of one snapshot are disjoint, so both cannot be large. */
  lemma {:induction false} FailingAndRecoveredAreDisjoint(
    log: seq<CheckResult>, mon: Monitor, todo: seq<string>, failErrs: set<string>, upErrs: set<string>)
    requires mon.failureThreshold >= 1 && mon.recoveryThreshold >= 1
    ensures |Passing(log, mon, false, todo, failErrs)| + |Passing(log, mon, true, todo, upErrs)| <= |todo|
  {
    if todo != [] {
      NotBothPass(log, mon, todo[0]);
      FailingAndRecoveredAreDisjoint(log, mon, todo[1..], failErrs, upErrs);
    }
  }

  /** The notification of out would also be sent by out', to evidence at least as large. */
  ghost predicate OnlyDelays(out: Outcome, out': Outcome) {
    match out
    case NoChange => true
    case Raise(seen) => out'.Raise? && Elements(Nodes(seen)) <= Elements(Nodes(out'.seen))
    case Recover(seen) => out'.Recover? && Elements(Nodes(seen)) <= Elements(Nodes(out'.seen))
  }

  /** What read errors could do wrong is only to recover although the nodes failing without them meet the quorum. */
  lemma DelaysUnlessBothMet(
    log: seq<CheckResult>, mon: Monitor, online: seq<string>, active: Option<Incident>, failErrs: set<string>,
    upErrs: set<string>)
    requires
      || Met(mon, |CountAll(log, mon, false, online, failErrs, [])|, |online|)
      || !Met(mon, |CountAll(log, mon, false, online, {}, [])|, |online|)
      || !Met(mon, |CountAll(log, mon, true, online, upErrs, [])|, |online|)
    ensures OnlyDelays(Decide(log, mon, online, active, failErrs, upErrs), Decide(log, mon, online, active, {}, {}))
  {
    ErrorsOnlyDropCounts(log, mon, false, online, failErrs);
    ErrorsOnlyDropCounts(log, mon, true, online, upErrs);
  }

  lemma ErrorsOnlyDropCounts(log: seq<CheckResult>, mon: Monitor, up: bool, online: seq<string>, errs: set<string>)
    ensures var few, all := CountAll(log, mon, up, online, errs, []), CountAll(log, mon, up, online, {}, []);
      && Elements(Nodes(few)) <= Elements(Nodes(all)) && |few| <= |all|
      && (Met(mon, |few|, |online|) ==> Met(mon, |all|, |online|))
  {
    CountAllIsPassing(log, mon, up, online, errs, []);
    CountAllIsPassing(log, mon, up, online, {}, []);
    ErrorsOnlyDropNodes(log, mon, up, online, errs);
    var few, all := CountAll(log, mon, up, online, errs, []), CountAll(log, mon, up, online, {}, []);
    assert Nodes([]) == [] && |Nodes(few)| == |few| && |Nodes(all)| == |all|;
    assert Nodes(few) == Passing(log, mon, up, online, errs) && Nodes(all) == Passing(log, mon, up, online, {});
    MetIffAtLeastNeed(mon, |few|, |online|);
    MetIffAtLeastNeed(mon, |all|, |online|);
  }

  /**
   Read errors only delay. On one snapshot, an evaluation in which any set of count queries fails sends
   nothing that the error-free evaluation would not send - for every rule whose quorums overlap.
   */
  lemma ReadErrorsOnlyDelay(
    log: seq<CheckResult>, mon: Monitor, online: seq<string>, active: Option<Incident>, failErrs: set<string>,
    upErrs: set<string>)
    requires mon.failureThreshold >= 1 && mon.recoveryThreshold >= 1 && Overlapping(mon, |online|)
    ensures OnlyDelays(Decide(log, mon, online, active, failErrs, upErrs), Decide(log, mon, online, active, {}, {}))
  {
    CountAllIsPassing(log, mon, false, online, {}, []);
    CountAllIsPassing(log, mon, true, online, upErrs, []);
    FailingAndRecoveredAreDisjoint(log, mon, online, {}, upErrs);
    var g, r := CountAll(log, mon, false, online, {}, []), CountAll(log, mon, true, online, upErrs, []);
    assert Nodes([]) == [] && |Nodes(g)| == |g| && |Nodes(r)| == |r|;
    MetIffAtLeastNeed(mon, |g|, |online|);
    MetIffAtLeastNeed(mon, |r|, |online|);
    DelaysUnlessBothMet(log, mon, online, active, failErrs, upErrs);
  }

  // ---------- repetition ----------

  /**
   Evaluating monitors one after the other, as evaluateConsensus does; stamps gives each one its fresh id and its
   times.
   */
  ghost function EvaluateAll(
    l: Ledger, log: seq<CheckResult>, mons: seq<Monitor>, online: seq<string>, stamps: string -> Stamp): Ledger
  {
    if mons == [] then l
    else
      var mon := mons[|mons| - 1];
      Evaluate(EvaluateAll(l, log, mons[..|mons| - 1], online, stamps), log, mon, online, stamps(mon.id), {}, {})
  }

  ghost predicate DistinctMonitors(mons: seq<Monitor>) {
    forall i, j :: 0 <= i < j < |mons| ==> mons[i].id != mons[j].id
  }

  /** Fresh incident ids: not in the table, one per monitor. */
  ghost predicate FreshIds(incidents: map<string, Incident>, stamps: string -> Stamp) {
    && (forall m :: stamps(m).id !in incidents)
    && (forall m, m' :: stamps(m).id == stamps(m').id ==> m == m')
  }

  ghost predicate Settled(incidents: map<string, Incident>, log: seq<CheckResult>, mon: Monitor, online: seq<string>) {
    Decide(log, mon, online, ActiveOf(incidents, mon.id), {}, {}).NoChange?
  }

  /** Rows sit under their id and each monitor has at most one open; the times are immaterial here. */
  ghost predicate Sound(incidents: map<string, Incident>) {
    (forall k :: k in incidents ==> incidents[k].id == k) && OneOpen(incidents)
  }

  ghost predicate LedgerOK(l: Ledger) {
    Sound(l.incidents)
  }

  /** An evaluation leaves the rows, the active incident and the notices of every other monitor alone. */
  lemma EvaluateIsLocal(
    l: Ledger, log: seq<CheckResult>, mon: Monitor, online: seq<string>, st: Stamp, m: string)
    requires LedgerOK(l) && st.id !in l.incidents && m != mon.id
    ensures var l' := Evaluate(l, log, mon, online, st, {}, {});
      && LedgerOK(l') && ActiveOf(l'.incidents, m) == ActiveOf(l.incidents, m) && Of(l'.trace, m) == Of(l.trace, m)
      && l'.incidents.Keys <= l.incidents.Keys + {st.id}
  {
    EvaluateKeepsRows(l, log, mon, online, st, {}, {});
    var l' := Evaluate(l, log, mon, online, st, {}, {});
    ActiveUnchanged(l.incidents, l'.incidents, m);
    if l'.trace != l.trace {
      OfAppend(l.trace, l'.trace[|l.trace|], m);
    }
  }

  lemma ActiveUnchanged(t: map<string, Incident>, t': map<string, Incident>, m: string)
    requires Sound(t) && Sound(t')
    requires forall k :: k in t && t[k].monitorID == m ==> k in t' && t'[k] == t[k]
    requires forall k :: k in t' && t'[k].monitorID == m ==> k in t && t[k] == t'[k]
    ensures ActiveOf(t', m) == ActiveOf(t, m)
  {
    assert forall k :: k in t' && Open(t'[k], m) ==> k in t && t[k] == t'[k];
  }

  /** l' differs from l only in rows and notices of monitor m, and at most in the new row id. */
  ghost predicate Touches(l: Ledger, l': Ledger, m: string, id: string) {
    && l'.incidents.Keys <= l.incidents.Keys + {id}
    && (l'.trace == l.trace
        || (&& |l'.trace| == |l.trace| + 1 && l'.trace == l.trace + [l'.trace[|l.trace|]]
            && l'.trace[|l.trace|].inc.monitorID == m))
    && (forall k :: k in l.incidents && l.incidents[k].monitorID != m
          ==> k in l'.incidents && l'.incidents[k] == l.incidents[k])
    && (forall k :: k in l'.incidents && l'.incidents[k].monitorID != m
          ==> k in l.incidents && l.incidents[k] == l'.incidents[k])
  }

  lemma RaiseKeepsRows(l: Ledger, mon: Monitor, online: seq<string>, seen: seq<Seen>, st: Stamp)
    requires LedgerOK(l) && st.id !in l.incidents
    requires ActiveOf(l.incidents, mon.id).None? || ActiveOf(l.incidents, mon.id).value.status.Suspect?
    ensures var l' := Apply(l, mon, online, Raise(seen), ActiveOf(l.incidents, mon.id), st);
      LedgerOK(l') && Touches(l, l', mon.id, st.id)
  {
    var active := ActiveOf(l.incidents, mon.id);
    ActiveFacts(l.incidents, mon.id);
    var k := if active.None? then st.id else active.value.id;
    var l' := Apply(l, mon, online, Raise(seen), active, st);
    assert l'.incidents == l.incidents[k := l'.incidents[k]];
  }

  lemma RecoverKeepsRows(l: Ledger, mon: Monitor, online: seq<string>, seen: seq<Seen>, st: Stamp)
    requires LedgerOK(l)
    ensures var l' := Apply(l, mon, online, Recover(seen), ActiveOf(l.incidents, mon.id), st);
      LedgerOK(l') && Touches(l, l', mon.id, st.id)
  {
    ActiveFacts(l.incidents, mon.id);
  }

  lemma ActiveFacts(t: map<string, Incident>, m: string)
    requires Sound(t)
    ensures var a := ActiveOf(t, m);
      && (a.Some? ==> a.value.id in t && t[a.value.id] == a.value && Open(a.value, m))
      && (a.None? ==> forall k :: k in t ==> !Open(t[k], m))
  {
  }

  lemma EvaluateKeepsRows(
    l: Ledger, log: seq<CheckResult>, mon: Monitor, online: seq<string>, st: Stamp, failErrs: set<string>,
    upErrs: set<string>)
    requires LedgerOK(l) && st.id !in l.incidents
    ensures var l' := Evaluate(l, log, mon, online, st, failErrs, upErrs);
      LedgerOK(l') && Touches(l, l', mon.id, st.id)
  {
    match Decide(log, mon, online, ActiveOf(l.incidents, mon.id), failErrs, upErrs)
    case NoChange =>
    case Raise(seen) => RaiseKeepsRows(l, mon, online, seen, st);
    case Recover(seen) => RecoverKeepsRows(l, mon, online, seen, st);
  }

  /** One evaluation settles its monitor. */
  lemma EvaluateSettles(l: Ledger, log: seq<CheckResult>, mon: Monitor, online: seq<string>, st: Stamp)
    requires LedgerOK(l) && st.id !in l.incidents
    ensures Settled(Evaluate(l, log, mon, online, st, {}, {}).incidents, log, mon, online)
  {
    EvaluateKeepsRows(l, log, mon, online, st, {}, {});
    var l' := Evaluate(l, log, mon, online, st, {}, {});
    var active := ActiveOf(l.incidents, mon.id);
    match Decide(log, mon, online, active, {}, {})
    case NoChange =>
    case Raise(seen) =>
      var k := if active.None? then st.id else active.value.id;
      assert k in l'.incidents && l'.incidents[k].status.Confirmed? && Open(l'.incidents[k], mon.id);
      assert ActiveOf(l'.incidents, mon.id) == Some(l'.incidents[k]);
    case Recover(seen) =>
      assert forall k :: k in l'.incidents ==> !Open(l'.incidents[k], mon.id);
  }

  /** While ids are still unused for the monitors to come, a pass keeps the table sound and settles its monitors. */
  lemma {:induction false} PassSettles(
    l: Ledger, log: seq<CheckResult>, mons: seq<Monitor>, online: seq<string>, stamps: string -> Stamp)
    requires LedgerOK(l) && DistinctMonitors(mons) && FreshIds(l.incidents, stamps)
    ensures var l' := EvaluateAll(l, log, mons, online, stamps);
      && LedgerOK(l')
      && (forall k :: k in l'.incidents && k !in l.incidents
            ==> exists i :: 0 <= i < |mons| && k == stamps(mons[i].id).id)
      && (forall i :: 0 <= i < |mons| ==> Settled(l'.incidents, log, mons[i], online))
  {
    if mons != [] {
      var n := |mons| - 1;
      var init, mon := mons[..n], mons[n];
      PassSettles(l, log, init, online, stamps);
      var t := EvaluateAll(l, log, init, online, stamps);
      var st := stamps(mon.id);
      assert st.id !in t.incidents;
      EvaluateKeepsRows(t, log, mon, online, st, {}, {});
      EvaluateSettles(t, log, mon, online, st);
      forall i | 0 <= i < n ensures Settled(Evaluate(t, log, mon, online, st, {}, {}).incidents, log, mons[i], online) {
        assert mons[i] == init[i];
        EvaluateIsLocal(t, log, mon, online, st, mons[i].id);
      }
    }
  }

  lemma {:induction false} SettledPassIsSilent(
    l: Ledger, log: seq<CheckResult>, mons: seq<Monitor>, online: seq<string>, stamps: string -> Stamp)
    requires forall i :: 0 <= i < |mons| ==> Settled(l.incidents, log, mons[i], online)
    ensures EvaluateAll(l, log, mons, online, stamps) == l
  {
    if mons != [] {
      assert forall i :: 0 <= i < |mons| - 1 ==> mons[..|mons| - 1][i] == mons[i];
      SettledPassIsSilent(l, log, mons[..|mons| - 1], online, stamps);
    }
  }

  ghost function PassingSet(log: seq<CheckResult>, mon: Monitor, up: bool, nodes: set<string>): set<string> {
    set n | n in nodes && Passes(log, mon, up, n)
  }

  lemma {:induction false} PassingIsSet(log: seq<CheckResult>, mon: Monitor, up: bool, todo: seq<string>)
    requires NoDup(todo)
    ensures NoDup(Passing(log, mon, up, todo, {}))
    ensures forall n :: n in Passing(log, mon, up, todo, {}) <==> n in todo && Passes(log, mon, up, n)
  {
    if todo != [] {
      PassingIsSet(log, mon, up, todo[1..]);
      assert todo == [todo[0]] + todo[1..] && todo[0] !in todo[1..];
    }
  }

  /** Among distinct nodes the counted ones are a set, so their number does not depend on the order of the list. */
  lemma CountIsSetSize(log: seq<CheckResult>, mon: Monitor, up: bool, online: seq<string>)
    requires NoDup(online)
    ensures |CountAll(log, mon, up, online, {}, [])| == |PassingSet(log, mon, up, Elements(online))|
  {
    var c, p := CountAll(log, mon, up, online, {}, []), Passing(log, mon, up, online, {});
    CountAllIsPassing(log, mon, up, online, {}, []);
    assert Nodes([]) == [] && |Nodes(c)| == |c|;
    PassingIsSet(log, mon, up, online);
    NoDupSize(p);
    assert Elements(p) == PassingSet(log, mon, up, Elements(online));
  }

  lemma SettledIgnoresOrder(
    incidents: map<string, Incident>, log: seq<CheckResult>, mon: Monitor, online: seq<string>, online': seq<string>)
    requires NoDup(online) && NoDup(online') && forall n :: n in online <==> n in online'
    requires Settled(incidents, log, mon, online)
    ensures Settled(incidents, log, mon, online')
  {
    assert Elements(online) == Elements(online');
    CountIsSetSize(log, mon, false, online);
    CountIsSetSize(log, mon, false, online');
    CountIsSetSize(log, mon, true, online);
    CountIsSetSize(log, mon, true, online');
    NoDupSize(online);
    NoDupSize(online');
  }

  /**
   evaluateConsensus is idempotent: a second pass over unchanged results, the same online nodes and some of
   the same monitors - listed in any order, at any later times, offering any ids - creates no incident,
   writes nothing and sends nothing.
   */
  lemma SecondPassIsSilent(
    l: Ledger, log: seq<CheckResult>, mons: seq<Monitor>, online: seq<string>, stamps: string -> Stamp,
    mons': seq<Monitor>, online': seq<string>, stamps': string -> Stamp)
    requires LedgerOK(l) && DistinctMonitors(mons) && FreshIds(l.incidents, stamps)
    requires NoDup(online) && NoDup(online') && forall n :: n in online <==> n in online'
    requires forall mon :: mon in mons' ==> mon in mons
    ensures var l' := EvaluateAll(l, log, mons, online, stamps);
      EvaluateAll(l', log, mons', online', stamps') == l'
  {
    PassSettles(l, log, mons, online, stamps);
    var l' := EvaluateAll(l, log, mons, online, stamps);
    forall i | 0 <= i < |mons'| ensures Settled(l'.incidents, log, mons'[i], online') {
      assert mons'[i] in mons' && mons'[i] in mons;
      var j :| 0 <= j < |mons| && mons[j] == mons'[i];
      SettledIgnoresOrder(l'.incidents, log, mons[j], online, online');
    }
    SettledPassIsSilent(l', log, mons', online', stamps');
  }

  // ---------- order of monitors ----------

  ghost function RowsOf(incidents: map<string, Incident>, m: string): map<string, Incident> {
    map k | k in incidents && incidents[k].monitorID == m :: incidents[k]
  }

  /** Two ledgers look the same to whoever follows monitor m: same incidents, same notices in the same order. */
  ghost predicate SameView(l: Ledger, t: Ledger, m: string) {
    RowsOf(l.incidents, m) == RowsOf(t.incidents, m) && Of(l.trace, m) == Of(t.trace, m)
  }

  lemma RowOf(t: map<string, Incident>, u: map<string, Incident>, m: string, k: string)
    requires RowsOf(t, m) == RowsOf(u, m) && k in t && t[k].monitorID == m
    ensures k in u && u[k] == t[k]
  {
    assert k in RowsOf(t, m);
  }

  lemma OtherViewsStay(l: Ledger, log: seq<CheckResult>, mon: Monitor, online: seq<string>, st: Stamp, m: string)
    requires LedgerOK(l) && st.id !in l.incidents && m != mon.id
    ensures SameView(Evaluate(l, log, mon, online, st, {}, {}), l, m)
  {
    EvaluateKeepsRows(l, log, mon, online, st, {}, {});
    EvaluateIsLocal(l, log, mon, online, st, m);
  }

  lemma SameActive(l: Ledger, t: Ledger, m: string)
    requires LedgerOK(l) && LedgerOK(t) && SameView(l, t, m)
    ensures ActiveOf(l.incidents, m) == ActiveOf(t.incidents, m)
  {
    forall k | k in l.incidents && l.incidents[k].monitorID == m
      ensures k in t.incidents && t.incidents[k] == l.incidents[k]
    {
      RowOf(l.incidents, t.incidents, m, k);
    }
    forall k | k in t.incidents && t.incidents[k].monitorID == m
      ensures k in l.incidents && l.incidents[k] == t.incidents[k]
    {
      RowOf(t.incidents, l.incidents, m, k);
    }
    ActiveUnchanged(t.incidents, l.incidents, m);
  }

  lemma RowsOfUpdate(t: map<string, Incident>, i: Incident)
    requires i.id in t ==> t[i.id].monitorID == i.monitorID
    ensures RowsOf(t[i.id := i], i.monitorID) == RowsOf(t, i.monitorID)[i.id := i]
  {
  }

  /** What an evaluation does to its own monitor's view depends on that view only. */
  lemma OwnViewDecides(l: Ledger, t: Ledger, log: seq<CheckResult>, mon: Monitor, online: seq<string>, st: Stamp)
    requires LedgerOK(l) && LedgerOK(t) && st.id !in l.incidents && st.id !in t.incidents && SameView(l, t, mon.id)
    ensures SameView(Evaluate(l, log, mon, online, st, {}, {}), Evaluate(t, log, mon, online, st, {}, {}), mon.id)
  {
    SameActive(l, t, mon.id);
    ActiveFacts(l.incidents, mon.id);
    ActiveFacts(t.incidents, mon.id);
    var active := ActiveOf(l.incidents, mon.id);
    match Decide(log, mon, online, active, {}, {})
    case NoChange =>
    case Raise(seen) =>
      var suspect := if active.None? then NewIncident(st.id, mon.id, st.createdAt) else active.value;
      var i := ConfirmedIncident(suspect, Nodes(seen), st.writtenAt);
      RowsOfUpdate(l.incidents, i);
      RowsOfUpdate(t.incidents, i);
      OfAppend(l.trace, Alert(i, mon), mon.id);
      OfAppend(t.trace, Alert(i, mon), mon.id);
    case Recover(seen) =>
      if active.Some? {
        var i := ResolvedIncident(active.value, st.writtenAt);
        RowsOfUpdate(l.incidents, i);
        RowsOfUpdate(t.incidents, i);
        OfAppend(l.trace, Recovery(i, mon), mon.id);
        OfAppend(t.trace, Recovery(i, mon), mon.id);
      }
  }

  /** New rows carry the ids stamped for the monitors evaluated. */
  ghost predicate OnlyStamped(l: Ledger, t: Ledger, mons: seq<Monitor>, stamps: string -> Stamp) {
    forall k :: k in t.incidents && k !in l.incidents ==> exists i :: 0 <= i < |mons| && k == stamps(mons[i].id).id
  }

  lemma NextIdIsFresh(l: Ledger, t: Ledger, mons: seq<Monitor>, stamps: string -> Stamp, last: Monitor)
    requires OnlyStamped(l, t, mons, stamps) && FreshIds(l.incidents, stamps) && DistinctMonitors(mons + [last])
    ensures stamps(last.id).id !in t.incidents && forall mon :: mon in mons ==> mon.id != last.id
  {
    assert forall i :: 0 <= i < |mons| ==> (mons + [last])[i] == mons[i];
    assert (mons + [last])[|mons|] == last;
  }

  lemma PassSoFar(l: Ledger, log: seq<CheckResult>, mons: seq<Monitor>, online: seq<string>, stamps: string -> Stamp)
    requires LedgerOK(l) && DistinctMonitors(mons) && FreshIds(l.incidents, stamps)
    ensures var t := EvaluateAll(l, log, mons, online, stamps); LedgerOK(t) && OnlyStamped(l, t, mons, stamps)
  {
    PassSettles(l, log, mons, online, stamps);
  }

  /** What m's followers should see after a pass. */
  ghost predicate Pointwise(
    l: Ledger, l': Ledger, log: seq<CheckResult>, mons: seq<Monitor>, online: seq<string>, stamps: string -> Stamp,
    m: string)
  {
    && (forall mon :: mon in mons && mon.id == m ==> SameView(l', Evaluate(l, log, mon, online, stamps(m), {}, {}), m))
    && ((forall mon :: mon in mons ==> mon.id != m) ==> SameView(l', l, m))
  }

  lemma PointwiseSnoc(
    l: Ledger, t: Ledger, log: seq<CheckResult>, mons: seq<Monitor>, last: Monitor, online: seq<string>,
    stamps: string -> Stamp,
    m: string)
    requires LedgerOK(l) && LedgerOK(t) && Pointwise(l, t, log, mons, online, stamps, m)
    requires stamps(last.id).id !in l.incidents && stamps(last.id).id !in t.incidents
    requires forall mon :: mon in mons ==> mon.id != last.id
    ensures Pointwise(l, Evaluate(t, log, last, online, stamps(last.id), {}, {}), log, mons + [last], online, stamps, m)
  {
    if last.id == m {
      OwnViewDecides(t, l, log, last, online, stamps(m));
    } else {
      OtherViewsStay(t, log, last, online, stamps(last.id), m);
    }
  }

  /** A pass gives each monitor what evaluating it alone would have given, and leaves monitors not in the list alone. */
  lemma {:induction false} PassIsPointwise(
    l: Ledger, log: seq<CheckResult>, mons: seq<Monitor>, online: seq<string>, stamps: string -> Stamp, m: string)
    requires LedgerOK(l) && DistinctMonitors(mons) && FreshIds(l.incidents, stamps)
    ensures Pointwise(l, EvaluateAll(l, log, mons, online, stamps), log, mons, online, stamps, m)
  {
    if mons != [] {
      var init, last := mons[..|mons| - 1], mons[|mons| - 1];
      assert mons == init + [last];
      PassIsPointwise(l, log, init, online, stamps, m);
      PassSoFar(l, log, init, online, stamps);
      var t := EvaluateAll(l, log, init, online, stamps);
      NextIdIsFresh(l, t, init, stamps, last);
      PointwiseSnoc(l, t, log, init, last, online, stamps, m);
    }
  }

  lemma SameViewsSameTable(l: Ledger, t: Ledger)
    requires forall m :: SameView(l, t, m)
    ensures l.incidents == t.incidents
  {
    forall k | k in l.incidents ensures k in t.incidents && t.incidents[k] == l.incidents[k] {
      assert SameView(l, t, l.incidents[k].monitorID);
      RowOf(l.incidents, t.incidents, l.incidents[k].monitorID, k);
    }
    forall k | k in t.incidents ensures k in l.incidents {
      assert SameView(l, t, t.incidents[k].monitorID);
      RowOf(t.incidents, l.incidents, t.incidents[k].monitorID, k);
    }
  }

  /**
   Passes over the same monitors in any two orders end in the same incident table and the same notices for every
   monitor.
   */
  lemma MonitorOrderIsIrrelevant(
    l: Ledger, log: seq<CheckResult>, mons: seq<Monitor>, mons': seq<Monitor>, online: seq<string>,
    stamps: string -> Stamp)
    requires LedgerOK(l) && DistinctMonitors(mons) && DistinctMonitors(mons') && FreshIds(l.incidents, stamps)
    requires forall mon :: mon in mons <==> mon in mons'
    ensures var a, b := EvaluateAll(l, log, mons, online, stamps), EvaluateAll(l, log, mons', online, stamps);
      a.incidents == b.incidents && forall m :: Of(a.trace, m) == Of(b.trace, m)
  {
    var a, b := EvaluateAll(l, log, mons, online, stamps), EvaluateAll(l, log, mons', online, stamps);
    forall m ensures SameView(a, b, m) {
      PassIsPointwise(l, log, mons, online, stamps, m);
      PassIsPointwise(l, log, mons', online, stamps, m);
    }
    SameViewsSameTable(a, b);
    forall m ensures Of(a.trace, m) == Of(b.trace, m) { assert SameView(a, b, m); }
  }

  // ---------- delivery order ----------

  lemma {:induction false} CountAllIgnoresDelivery(
    log: seq<CheckResult>, log': seq<CheckResult>, mon: Monitor, up: bool, todo: seq<string>, errs: set<string>,
    seen: seq<Seen>)
    requires DistinctStampsOf(log, mon.id) && multiset(log) == multiset(log') && |log| == |log'|
    ensures CountAll(log, mon, up, todo, errs, seen) == CountAll(log', mon, up, todo, errs, seen)
  {
    if todo != [] {
      var n := todo[0];
      NewestSorts(Select(log, mon.id, n));
      NewestSorts(Select(log', mon.id, n));
      var rows := Newest(Select(log, mon.id, n));
      DeliveryOrderIrrelevant(log, log', mon.id, n, rows, Newest(Select(log', mon.id, n)));
      CountAllIgnoresDelivery(log, log', mon, up, todo[1..], errs,
        if n in errs then seen else Note(seen, n, |log|, rows, mon, up));
    }
  }

  /**
   Delivery-order independence of a whole evaluation: the same results in any arrival order lead to the
   same incidents, the same evidence and the same notifications.
   */
  lemma EvaluationIgnoresDelivery(
    l: Ledger, log: seq<CheckResult>, log': seq<CheckResult>, mon: Monitor, online: seq<string>, st: Stamp,
    failErrs: set<string>, upErrs: set<string>)
    requires DistinctStampsOf(log, mon.id) && multiset(log) == multiset(log')
    ensures Evaluate(l, log, mon, online, st, failErrs, upErrs) == Evaluate(l, log', mon, online, st, failErrs, upErrs)
  {
    assert |multiset(log)| == |log| && |multiset(log')| == |log'|;
    CountAllIgnoresDelivery(log, log', mon, false, online, failErrs, []);
    CountAllIgnoresDelivery(log, log', mon, true, online, upErrs, []);
  }
}
