/**
 The coordinator itself: evaluateConsensus, evaluateMonitorConsensus and the incident manager as
 imperative code over the store, with the environment running before every store call. A ghost history
 records each call and each environment step; Valid() says the store's tables are exactly those of the
 state machine run on that history, so every theorem about runs is a theorem about this code. It also
 says that every call moved the machine on, or failed because the store is faulty or refused a row.
 */
module AgentRuntime {
  import opened Model
  import opened Streaks
  import opened Quorum
  import opened Protocol
  import opened Incidents
  import opened Hysteresis
  import opened Notifications
  import opened Evaluation
  import opened Ticks
  import opened Store

  /** after extends before, and the coordinator did not crash in between. */
  ghost predicate Grew(before: seq<Event>, after: seq<Event>) {
    && |before| <= |after|
    && (forall i :: 0 <= i < |before| ==> after[i] == before[i])
    && (forall i :: |before| <= i < |after| ==> !after[i].Crash?)
  }

  lemma ForwardOver(s0: State, before: seq<Event>, after: seq<Event>)
    requires Init(s0) && Grew(before, after)
    ensures Forward(Run(s0, before).incidents, Run(s0, after).incidents)
  {
    var rest := after[|before|..];
    assert after == before + rest;
    RunAppend(s0, before, rest);
    TableRun(s0, before);
    LifecycleForward(Run(s0, before), rest);
  }

  /** What happened since before is one tick: no other began, and the machine ran from idle to idle. */
  ghost predicate TickSince(s0: State, before: seq<Event>, after: seq<Event>, faulty: bool) {
    && Grew(before, after) && Run(s0, before).pc.Idle? && Run(s0, after).pc.Idle?
    && Tracked(s0, after, faulty).served && Tracked(s0, after, faulty).ticks == Tracked(s0, before, faulty).ticks + 1
  }

  /** A tick without arrivals and failed calls is a tick in the sense of the machine theorems. */
  lemma CalmTickSince(s0: State, before: seq<Event>, after: seq<Event>, faulty: bool)
    requires TickSince(s0, before, after, faulty) && Calm(after[|before|..])
    ensures OneTick(Run(s0, before), after[|before|..]) && Run(s0, after) == Run(Run(s0, before), after[|before|..])
  {
    var rest, s := after[|before|..], Run(s0, before);
    assert after == before + rest;
    RunAppend(s0, before, rest);
    TrackedState(s0, before, faulty);
    TrackedAppend(s0, before, rest, faulty);
    CalmNeedsNoFault(s, rest, faulty);
    TrackedState(s, rest, false);
  }

  lemma TickOver(s0: State, before: seq<Event>, after: seq<Event>, faulty: bool)
    returns (mons: seq<Monitor>, online: seq<string>, stamps: string -> Stamp)
    requires Init(s0) && TickSince(s0, before, after, faulty) && Calm(after[|before|..])
    requires var s := Run(s0, before); DistinctStamps(s.log) && Keyed(s.monitors)
    ensures IsTick(Run(s0, before), after[|before|..], mons, online, stamps)
    ensures Run(s0, after) == Run(Run(s0, before), after[|before|..])
  {
    CalmTickSince(s0, before, after, faulty);
    TableRun(s0, before);
    mons, online, stamps := CalmTickIsEvaluateAll(Run(s0, before), after[|before|..]);
  }

  /** Nothing that a decision depends on changed between a and b: results, enabled monitors, online nodes. */
  ghost predicate Unchanged(s0: State, a: seq<Event>, b: seq<Event>) {
    Grew(a, b) && Calm(b[|a|..]) && Unedited(Run(s0, a), b[|a|..])
  }

  /**
   Two consecutive ticks, the first from a to b and the second from b to c: then the second wrote and sent nothing.
   */
  ghost predicate SecondSilent(s0: State, a: seq<Event>, b: seq<Event>, c: seq<Event>) {
    (DistinctStamps(Run(s0, a).log) && Unchanged(s0, a, b) && Unchanged(s0, b, c))
      ==> Books(Run(s0, c)) == Books(Run(s0, b))
  }

  lemma SecondTickOver(s0: State, a: seq<Event>, b: seq<Event>, c: seq<Event>, faulty: bool)
    requires Init(s0) && Keyed(Run(s0, a).monitors)
    requires TickSince(s0, a, b, faulty) && TickSince(s0, b, c, faulty)
    ensures SecondSilent(s0, a, b, c)
  {
    if DistinctStamps(Run(s0, a).log) && Unchanged(s0, a, b) && Unchanged(s0, b, c) {
      CalmTickSince(s0, a, b, faulty);
      CalmTickSince(s0, b, c, faulty);
      TableRun(s0, a);
      var es, fs := b[|a|..], c[|b|..];
      SecondTickIsSilent(Run(s0, a), es, fs);
      RunAppend(Run(s0, a), es, fs);
    }
  }

  lemma RestartTracked(s0: State, es: seq<Event>, faulty: bool, t: State, ticks: nat, d: nat)
    requires Tracked(s0, es, faulty) == Track(t, ticks, true)
    ensures Tracked(s0, es + [Crash] + [Tick(d)], faulty) == Track(t.(pc := Idle, now := t.now + d), ticks, true)
  {
    TrackedSnoc(s0, es, Crash, faulty, t, ticks);
    TrackedSnoc(s0, es + [Crash], Tick(d), faulty, t.(pc := Idle), ticks);
  }

  /** marks are the histories at the boundaries of consecutive ticks. */
  ghost predicate Marked(s0: State, marks: seq<seq<Event>>, faulty: bool) {
    && (forall i :: 0 <= i < |marks| ==> Keyed(Run(s0, marks[i]).monitors))
    && (forall i :: 0 <= i < |marks| - 1 ==> TickSince(s0, marks[i], marks[i + 1], faulty))
  }

  lemma MarkedSnoc(s0: State, marks: seq<seq<Event>>, mark: seq<Event>, faulty: bool)
    requires Marked(s0, marks, faulty) && marks != [] && TickSince(s0, marks[|marks| - 1], mark, faulty)
    requires Keyed(Run(s0, mark).monitors)
    ensures Marked(s0, marks + [mark], faulty)
  {
    var marks' := marks + [mark];
    assert forall i :: 0 <= i < |marks| ==> marks'[i] == marks[i];
    forall i | 0 <= i < |marks'| - 1 ensures TickSince(s0, marks'[i], marks'[i + 1], faulty) {
      if i < |marks| - 1 { assert TickSince(s0, marks[i], marks[i + 1], faulty); }
    }
  }

  lemma AllSecondSilent(s0: State, marks: seq<seq<Event>>, faulty: bool)
    requires Init(s0) && Marked(s0, marks, faulty)
    ensures forall i :: 0 <= i < |marks| - 2 ==> SecondSilent(s0, marks[i], marks[i + 1], marks[i + 2])
  {
    forall i | 0 <= i < |marks| - 2 ensures SecondSilent(s0, marks[i], marks[i + 1], marks[i + 2]) {
      assert TickSince(s0, marks[i], marks[i + 1], faulty) && TickSince(s0, marks[i + 1], marks[i + 1 + 1], faulty);
      SecondTickOver(s0, marks[i], marks[i + 1], marks[i + 2], faulty);
    }
  }

  // ---------- single machine steps, as the code takes them ----------

  lemma CountedFailures(s: State, job: Job, todo: seq<string>, seen: seq<Seen>, ok: bool, rows: seq<CheckResult>)
    requires s.pc == Counting(job, todo, seen) && todo != []
    requires ok ==> IsNewestFirst(s.log, job.mon.id, todo[0], rows)
    ensures Step(s, Call(ok, Rows(rows))) == s.(pc := FailuresCounted(job, todo[1..],
      if ok then Note(seen, todo[0], |s.log|, rows, job.mon, false) else seen))
  {
  }

  lemma CountedSuccesses(
      s: State, job: Job, i: Incident, todo: seq<string>, seen: seq<Seen>, ok: bool, rows: seq<CheckResult>)
    requires s.pc == Recounting(job, i, todo, seen) && todo != []
    requires ok ==> IsNewestFirst(s.log, job.mon.id, todo[0], rows)
    ensures Step(s, Call(ok, Rows(rows))) == s.(pc := SuccessesCounted(job, i, todo[1..],
      if ok then Note(seen, todo[0], |s.log|, rows, job.mon, true) else seen))
  {
  }

  lemma NoteNodes(seen: seq<Seen>, n: string, at: nat, rows: seq<CheckResult>, mon: Monitor, up: bool)
    ensures Nodes(Note(seen, n, at, rows, mon, up))
      == if Counted(rows, up) >= Threshold(mon, up) then Nodes(seen) + [n] else Nodes(seen)
  {
  }

  /** Where an answered lookup leads. */
  ghost function LookedUp(pc: PC, found: Option<Incident>): PC
    requires pc.Lookup? || pc.Checking?
  {
    match pc
    case Lookup(job, seen) =>
      if found.None? then Creating(job, seen)
      else if found.value.status.Suspect? then Confirming(job, seen, found.value)
      else Next(job)
    case Checking(job) =>
      if found.None? then Next(job) else SuccessesCounted(job, found.value, job.online, [])
  }

  lemma LookupAnswered(s: State, ok: bool, found: Option<Incident>)
    requires (s.pc.Lookup? || s.pc.Checking?) && (ok ==> IsActive(s.incidents, s.pc.job.mon.id, found))
    ensures Step(s, Call(ok, Active(found))) == s.(pc := if ok then LookedUp(s.pc, found) else Next(s.pc.job))
  {
  }

  lemma CreateAnswered(s: State, ok: bool, id: string, faulty: bool)
    requires s.pc.Creating? && (ok ==> id !in s.incidents)
    ensures Step(s, Call(ok, FreshID(id))) ==
      if ok then
        var i := NewIncident(id, s.pc.job.mon.id, s.now);
        s.(incidents := s.incidents[id := i], pc := Confirming(s.pc.job, s.pc.seen, i))
      else s.(pc := Next(s.pc.job))
    ensures Served(s, Call(ok, FreshID(id)), faulty)
  {
  }

  ghost predicate Unresolved(incidents: map<string, Incident>, k: string, monitorID: string)
    requires k in incidents
  {
    incidents[k].monitorID == monitorID && !incidents[k].status.Resolved?
  }

  /** Updating the columns of a row last read as i leaves i with those columns. */
  lemma UpdateReplaces(
    incidents: map<string, Incident>, i: Incident, status: IncidentStatus, confirmedAt: int, resolvedAt: int,
    confirmingNodes: seq<string>, updatedAt: int)
    requires i.id in incidents && incidents[i.id] == i
    ensures
      var j := i.(status := status, confirmedAt := confirmedAt, resolvedAt := resolvedAt,
                  confirmingNodes := confirmingNodes, updatedAt := updatedAt);
      Update(incidents, j) == incidents[i.id := j]
  {
  }

  class Agent {
    const db: SQLiteStore
    const faulty: bool
    var now: int
    ghost var initial: State
    ghost var history: seq<Event>
    ghost var st: State
    ghost var ticks: nat

    ghost predicate Valid()
      reads this, db
    {
      && db.Valid()
      && Init(initial)
      && Tracked(initial, history, faulty) == Track(st, ticks, true)
      && st.log == db.results && st.incidents == db.incidents && st.nodes == db.nodes
      && st.monitors == db.Decoded() && st.now == now
    }

    /** A coordinator starting on a store without incidents; faulty says whether store calls may fail. */
    constructor (db: SQLiteStore, now: int, faulty: bool)
      requires db.Valid() && db.incidents == map[] && now > 0
      ensures Valid() && this.db == db && this.now == now && this.faulty == faulty && st.pc.Idle? && history == []
    {
      this.db := db;
      this.faulty := faulty;
      this.now := now;
      initial := State(db.results, map[], db.nodes, db.Decoded(), now, Idle, [], []);
      history := [];
      st := State(db.results, map[], db.nodes, db.Decoded(), now, Idle, [], []);
      ticks := 0;
    }

    /**
     A coordinator restarted on the store that a run s0, es left behind in state s after k ticks, wherever in its
     loop the earlier coordinator was killed.
     */
    constructor Restart(
        db: SQLiteStore, now: int, faulty: bool, ghost s0: State, ghost es: seq<Event>, ghost s: State, ghost k: nat)
      requires db.Valid() && Init(s0) && Tracked(s0, es, faulty) == Track(s, k, true) && now >= s.now
      requires s.log == db.results && s.incidents == db.incidents && s.nodes == db.nodes && s.monitors == db.Decoded()
      ensures Valid() && this.db == db && this.now == now && this.faulty == faulty
      ensures initial == s0 && history == es + [Crash] + [Tick(now - s.now)] && st == s.(pc := Idle, now := now)
      ensures ticks == k
    {
      this.db := db;
      this.faulty := faulty;
      this.now := now;
      initial := s0;
      history := es + [Crash] + [Tick(now - s.now)];
      st := s.(pc := Idle, now := now);
      ticks := k;
      RestartTracked(s0, es, faulty, s, k, now - s.now);
    }

    method Fault() returns (fault: bool)
      ensures fault ==> faulty
    {
      var f: bool := *;
      fault := faulty && f;
    }

    /** Bookkeeping only: what just happened to the store becomes one event of the run. */
    ghost method Record(e: Event)
      requires db.Valid() && Init(initial) && !e.Crash?
      requires Tracked(initial, history, faulty) == Track(st, ticks, true) && Served(st, e, faulty)
      requires var t := Step(st, e);
        && t.log == db.results && t.incidents == db.incidents && t.nodes == db.nodes
        && t.monitors == db.Decoded() && t.now == now
      modifies this`history, this`st, this`ticks
      ensures Valid() && st == Step(old(st), e) && history == old(history) + [e] && Grew(old(history), history)
      ensures ticks == if StartsTick(old(st), e) then old(ticks) + 1 else old(ticks)
    {
      TrackedSnoc(initial, history, e, faulty, st, ticks);
      Append(e, Step(st, e), if StartsTick(st, e) then ticks + 1 else ticks);
    }

    ghost method Append(e: Event, t: State, k: nat)
      requires db.Valid() && Init(initial) && !e.Crash?
      requires Tracked(initial, history + [e], faulty) == Track(t, k, true)
      requires t.log == db.results && t.incidents == db.incidents && t.nodes == db.nodes && t.monitors == db.Decoded()
      requires t.now == now
      modifies this`history, this`st, this`ticks
      ensures Valid() && st == t && ticks == k && history == old(history) + [e] && Grew(old(history), history)
    {
      history, st, ticks := history + [e], t, k;
    }

    /** Everything the incident engine owns is as before. */
    twostate predicate Untouched()
      reads this, db
    {
      && st.pc == old(st.pc) && st.incidents == old(st.incidents)
      && st.verdicts == old(st.verdicts) && st.trace == old(st.trace) && ticks == old(ticks)
    }

    /** handlePeerResult, handlePeerHeartbeat, membership and monitor edits: any number, in any order. */
    method Environment()
      requires Valid()
      modifies this`now, this`history, this`st, this`ticks, db`results, db`nodes, db`monitors
      ensures Valid() && initial == old(initial) && Untouched() && Grew(old(history), history)
    {
      var steps: nat := *;
      while steps > 0
        invariant Valid() && initial == old(initial) && Untouched() && Grew(old(history), history)
      {
        steps := steps - 1;
        EnvironmentStep();
      }
    }

    method EnvironmentStep()
      requires Valid()
      modifies this`now, this`history, this`st, this`ticks, db`results, db`nodes, db`monitors
      ensures Valid() && initial == old(initial) && Untouched() && Grew(old(history), history)
    {
      var choice: int := *;
      if choice == 0 {
        ResultArrives();
      } else if choice == 1 {
        HeartbeatArrives();
      } else if choice == 2 {
        NodeEdited();
      } else if choice == 3 {
        MonitorEdited();
      } else {
        var d: nat := *;
        now := now + d;
        Record(Tick(d));
      }
    }

    method ResultArrives()
      requires Valid()
      modifies this`history, this`st, this`ticks, db`results
      ensures Valid() && initial == old(initial) && Untouched() && Grew(old(history), history)
    {
      var r: CheckResult := *;
      var fault := Fault();
      var ok := db.InsertCheckResult(fault, r);
      if ok { Record(Arrive(r)); }
    }

    method HeartbeatArrives()
      requires Valid()
      modifies this`history, this`st, this`ticks, db`nodes
      ensures Valid() && initial == old(initial) && Untouched() && Grew(old(history), history)
    {
      var id: string, status: NodeStatus, lastSeen: int := *, *, *;
      var fault := Fault();
      var _ := db.UpdateNodeStatus(fault, id, status, lastSeen);
      Record(SetNodes(db.nodes));
    }

    method NodeEdited()
      requires Valid()
      modifies this`history, this`st, this`ticks, db`nodes
      ensures Valid() && initial == old(initial) && Untouched() && Grew(old(history), history)
    {
      var n: Node, choice: int := *, *;
      var fault := Fault();
      if choice == 0 {
        var _ := db.CreateNode(fault, n);
      } else if choice == 1 {
        var _ := db.UpdateNode(fault, n);
      } else {
        var _ := db.DeleteNode(fault, n.id);
      }
      Record(SetNodes(db.nodes));
    }

    method MonitorEdited()
      requires Valid()
      modifies this`history, this`st, this`ticks, db`monitors
      ensures Valid() && initial == old(initial) && Untouched() && Grew(old(history), history)
    {
      var m: Monitor, choice: int := *, *;
      var fault := Fault();
      if choice == 0 {
        var _ := db.CreateMonitor(fault, m);
      } else if choice == 1 {
        var _ := db.UpdateMonitor(fault, m);
      } else {
        var _ := db.DeleteMonitor(fault, m.id);
      }
      Record(SetMonitors(db.Decoded()));
    }

    /** What every method of a tick keeps: the machine ran on, and no other tick began. */
    twostate predicate Ran()
      reads this, db
    {
      Valid() && initial == old(initial) && Grew(old(history), history) && ticks == old(ticks)
    }

    /** One whole tick of the machine. */
    twostate predicate RanTick()
      reads this, db
    {
      Valid() && initial == old(initial) && Grew(old(history), history) && ticks == old(ticks) + 1 && st.pc.Idle?
    }

    // ---------- one store call of the loop, with the environment before it ----------

    method CountFailures(
        ghost job: Job, ghost todo: seq<string>, ghost seen: seq<Seen>, monitorID: string, node: string)
      returns (ok: bool, failures: nat, ghost seen': seq<Seen>)
      requires Valid() && st.pc == Counting(job, todo, seen) && todo != [] && todo[0] == node && monitorID == job.mon.id
      modifies this`now, this`history, this`st, this`ticks, db`results, db`nodes, db`monitors
      ensures Ran() && st.pc == FailuresCounted(job, todo[1..], seen')
      ensures Nodes(seen') == if ok && failures >= job.mon.failureThreshold then Nodes(seen) + [node] else Nodes(seen)
    {
      Environment();
      ghost var all;
      var fault := Fault();
      ok, failures, all := db.CountConsecutiveFailures(fault, monitorID, node);
      CountedFailures(st, job, todo, seen, ok, all);
      NoteNodes(seen, node, |st.log|, all, job.mon, false);
      seen' := if ok then Note(seen, node, |st.log|, all, job.mon, false) else seen;
      Record(Call(ok, Rows(all)));
    }

    method CountSuccesses(
        ghost job: Job, ghost i: Incident, ghost todo: seq<string>, ghost seen: seq<Seen>, monitorID: string,
        node: string)
      returns (ok: bool, successes: nat, ghost seen': seq<Seen>)
      requires Valid() && st.pc == Recounting(job, i, todo, seen) && todo != [] && todo[0] == node
      requires monitorID == job.mon.id
      modifies this`now, this`history, this`st, this`ticks, db`results, db`nodes, db`monitors
      ensures Ran() && st.pc == SuccessesCounted(job, i, todo[1..], seen')
      ensures |seen'| == if ok && successes >= job.mon.recoveryThreshold then |seen| + 1 else |seen|
    {
      Environment();
      ghost var all;
      var fault := Fault();
      ok, successes, all := db.CountConsecutiveSuccesses(fault, monitorID, node);
      CountedSuccesses(st, job, i, todo, seen, ok, all);
      seen' := if ok then Note(seen, node, |st.log|, all, job.mon, true) else seen;
      Record(Call(ok, Rows(all)));
    }

    method LookUpActive(ghost job: Job, monitorID: string) returns (ok: bool, found: Option<Incident>)
      requires Valid() && (st.pc.Lookup? || st.pc.Checking?) && st.pc.job == job && monitorID == job.mon.id
      modifies this`now, this`history, this`st, this`ticks, db`results, db`nodes, db`monitors
      ensures Ran()
      ensures !ok ==> st.pc == Next(job)
      ensures ok ==> st.pc == LookedUp(old(st.pc), found)
      ensures ok && found.None? ==>
        forall k :: k in db.incidents && db.incidents[k].monitorID == monitorID ==> db.incidents[k].status.Resolved?
      ensures ok && found.Some? ==>
        && found.value.id in db.incidents && db.incidents[found.value.id] == found.value
        && found.value.monitorID == monitorID && !found.value.status.Resolved?
    {
      Environment();
      TrackedState(initial, history, faulty);
      TableRun(initial, history);
      var fault := Fault();
      ok, found := db.GetActiveIncident(fault, monitorID);
      LookupAnswered(st, ok, found);
      Record(Call(ok, Active(found)));
    }

    method CreateSuspect(ghost job: Job, ghost seen: seq<Seen>, monitorID: string) returns (ok: bool, i: Incident)
      requires Valid() && st.pc == Creating(job, seen) && monitorID == job.mon.id
      modifies this`now, this`history, this`st, this`ticks, db`results, db`nodes, db`monitors, db`incidents
      ensures Ran() && st.pc == if ok then Confirming(job, seen, i) else Next(job)
      ensures ok ==> i.id !in old(db.incidents) && i == Incident(i.id, monitorID, Suspect, now, 0, 0, [], now, now)
      ensures db.incidents == if ok then old(db.incidents)[i.id := i] else old(db.incidents)
    {
      Environment();
      var id: string := *;
      i := NewIncident(id, monitorID, now);
      var fault := Fault();
      ok := db.CreateIncident(fault, i);
      CreateAnswered(st, ok, id, faulty);
      Record(Call(ok, FreshID(id)));
    }

    // ---------- internal/consensus/incident.go ----------

    /**
     None is the error return. Some(i) is the monitor's unresolved incident or, when it has none, a new suspect one
     that starts now; the machine stands where i's status sends it.
     */
    method GetOrCreateIncident(ghost job: Job, ghost seen: seq<Seen>, monitorID: string) returns (r: Option<Incident>)
      requires Valid() && st.pc == Lookup(job, seen) && monitorID == job.mon.id
      modifies this`now, this`history, this`st, this`ticks, db`results, db`nodes, db`monitors, db`incidents
      ensures Ran()
      ensures r.None? ==> st.pc == Next(job)
      ensures r.Some? && r.value.status.Suspect? ==> st.pc == Confirming(job, seen, r.value)
      ensures r.Some? && !r.value.status.Suspect? ==> st.pc == Next(job)
      ensures r.None? ==> db.incidents == old(db.incidents)
      ensures r.Some? ==>
        var i := r.value;
        if exists k :: k in old(db.incidents) && Unresolved(old(db.incidents), k, monitorID) then
          db.incidents == old(db.incidents) && i.id in db.incidents && i == db.incidents[i.id]
          && Unresolved(db.incidents, i.id, monitorID)
        else
          i.id !in old(db.incidents) && db.incidents == old(db.incidents)[i.id := i]
          && i == Incident(i.id, monitorID, Suspect, now, 0, 0, [], now, now)
    {
      var ok, found := LookUpActive(job, monitorID);
      if !ok { return None; }
      if found.Some? { return found; }
      var i;
      ok, i := CreateSuspect(job, seen, monitorID);
      r := if ok then Some(i) else None;
    }

    method ConfirmIncident(
        ghost job: Job, ghost seen: seq<Seen>, incident: Incident, confirmingNodes: seq<string>)
        returns (ok: bool, i: Incident)
      requires Valid() && st.pc == Confirming(job, seen, incident) && confirmingNodes == Nodes(seen)
      modifies this`now, this`history, this`st, this`ticks, db`results, db`nodes, db`monitors, db`incidents
      ensures Ran()
      ensures st.pc == if ok then Alerting(job, i) else Next(job)
      ensures i == incident.(
        status := Confirmed, confirmedAt := now, confirmingNodes := confirmingNodes, updatedAt := now)
      ensures db.incidents == if ok then old(db.incidents)[incident.id := i] else old(db.incidents)
    {
      Environment();
      TrackedState(initial, history, faulty);
      TableRun(initial, history);
      UpdateReplaces(db.incidents, incident, Confirmed, now, incident.resolvedAt, confirmingNodes, now);
      i := incident.(status := Confirmed, confirmedAt := now, confirmingNodes := confirmingNodes, updatedAt := now);
      var fault := Fault();
      ok := db.UpdateIncident(fault, i);
      Record(Call(ok, Nothing));
    }

    method ResolveIncident(ghost job: Job, ghost seen: seq<Seen>, incident: Incident) returns (ok: bool, i: Incident)
      requires Valid() && st.pc == Resolving(job, incident, seen)
      modifies this`now, this`history, this`st, this`ticks, db`results, db`nodes, db`monitors, db`incidents
      ensures Ran()
      ensures st.pc == if ok then Announcing(job, i) else Next(job)
      ensures i == incident.(status := Resolved, resolvedAt := now, updatedAt := now)
      ensures db.incidents == if ok then old(db.incidents)[incident.id := i] else old(db.incidents)
    {
      Environment();
      TrackedState(initial, history, faulty);
      TableRun(initial, history);
      UpdateReplaces(db.incidents, incident, Resolved, incident.confirmedAt, now, incident.confirmingNodes, now);
      i := incident.(status := Resolved, resolvedAt := now, updatedAt := now);
      var fault := Fault();
      ok := db.UpdateIncident(fault, i);
      Record(Call(ok, Nothing));
    }

    // ---------- internal/alert: delivery is a foreign call, the notice itself is recorded ----------

    method SendAlert(ghost job: Job, incident: Incident)
      requires Valid() && st.pc == Alerting(job, incident)
      modifies this`history, this`st, this`ticks
      ensures Ran() && st.pc == Next(job) && st.trace == old(st.trace) + [Alert(incident, job.mon)]
    {
      Record(Call(true, Nothing));
    }

    method SendRecovery(ghost job: Job, incident: Incident)
      requires Valid() && st.pc == Announcing(job, incident)
      modifies this`history, this`st, this`ticks
      ensures Ran() && st.pc == Next(job) && st.trace == old(st.trace) + [Recovery(incident, job.mon)]
    {
      Record(Call(true, Nothing));
    }

    // ---------- internal/agent/agent.go ----------

    /** One monitor: the machine enters at its first count and leaves ready for the next monitor. */
    method EvaluateMonitorConsensus(ghost job: Job, monitor: Monitor, onlineNodes: seq<string>, totalNodes: nat)
      requires Valid() && st.pc == Counting(job, onlineNodes, []) && onlineNodes != []
      requires job.mon == monitor && job.online == onlineNodes && totalNodes == |onlineNodes|
      modifies this`now, this`history, this`st, this`ticks, db`results, db`nodes, db`monitors, db`incidents
      ensures Ran() && st.pc == Next(job)
    {
      var failCount, failingNodeIDs, seen := CountFailing(job, monitor, onlineNodes);
      var quorumMet := EvaluateQuorum(monitor.quorumType, monitor.quorumN, failCount, totalNodes);
      if quorumMet {
        var r := GetOrCreateIncident(job, seen, monitor.id);
        if r.None? { return; }
        if r.value.status.Suspect? {
          var ok, i := ConfirmIncident(job, seen, r.value, failingNodeIDs);
          if !ok { return; }
          SendAlert(job, i);
        }
      } else {
        RecoverMonitor(job, monitor, onlineNodes, totalNodes);
      }
    }

    /** Its first loop. */
    method CountFailing(ghost job: Job, monitor: Monitor, onlineNodes: seq<string>)
      returns (failCount: nat, failingNodeIDs: seq<string>, ghost seen: seq<Seen>)
      requires Valid() && st.pc == FailuresCounted(job, onlineNodes, []) && job.mon == monitor
      modifies this`now, this`history, this`st, this`ticks, db`results, db`nodes, db`monitors
      ensures Ran() && st.pc == FailuresCounted(job, [], seen)
      ensures failCount == |seen| && failingNodeIDs == Nodes(seen)
    {
      failCount, failingNodeIDs, seen := 0, [], [];
      for k := 0 to |onlineNodes|
        invariant Ran()
        invariant failCount == |failingNodeIDs| && failingNodeIDs == Nodes(seen)
        invariant st.pc == FailuresCounted(job, onlineNodes[k..], seen)
      {
        assert onlineNodes[k..][1..] == onlineNodes[k + 1..];
        var ok, failures;
        ok, failures, seen := CountFailures(job, onlineNodes[k..], seen, monitor.id, onlineNodes[k]);
        if !ok { continue; }
        if failures >= monitor.failureThreshold {
          failCount := failCount + 1;
          failingNodeIDs := failingNodeIDs + [onlineNodes[k]];
        }
      }
    }

    /** The else branch of the same function. */
    method RecoverMonitor(ghost job: Job, monitor: Monitor, onlineNodes: seq<string>, totalNodes: nat)
      requires Valid() && st.pc == Checking(job)
      requires job.mon == monitor && job.online == onlineNodes && totalNodes == |onlineNodes|
      modifies this`now, this`history, this`st, this`ticks, db`results, db`nodes, db`monitors, db`incidents
      ensures Ran() && st.pc == Next(job)
    {
      var ok, found := LookUpActive(job, monitor.id);
      if !ok || found.None? { return; }
      var recoveryCount, seen := CountRecovered(job, found.value, monitor, onlineNodes);
      var recoveryQuorumMet := EvaluateQuorum(monitor.quorumType, monitor.quorumN, recoveryCount, totalNodes);
      if recoveryQuorumMet {
        var ok, i := ResolveIncident(job, seen, found.value);
        if !ok { return; }
        SendRecovery(job, i);
      }
    }

    /** The loop of that branch. */
    method CountRecovered(ghost job: Job, ghost i: Incident, monitor: Monitor, onlineNodes: seq<string>)
      returns (recoveryCount: nat, ghost seen: seq<Seen>)
      requires Valid() && st.pc == SuccessesCounted(job, i, onlineNodes, []) && job.mon == monitor
      modifies this`now, this`history, this`st, this`ticks, db`results, db`nodes, db`monitors
      ensures Ran() && st.pc == SuccessesCounted(job, i, [], seen) && recoveryCount == |seen|
    {
      recoveryCount, seen := 0, [];
      for k := 0 to |onlineNodes|
        invariant Ran()
        invariant recoveryCount == |seen|
        invariant st.pc == SuccessesCounted(job, i, onlineNodes[k..], seen)
      {
        assert onlineNodes[k..][1..] == onlineNodes[k + 1..];
        var ok, successes;
        ok, successes, seen := CountSuccesses(job, i, onlineNodes[k..], seen, monitor.id, onlineNodes[k]);
        if !ok { continue; }
        if successes >= monitor.recoveryThreshold {
          recoveryCount := recoveryCount + 1;
        }
      }
    }

    /**
     One tick of the consensus loop, whatever fails or arrives on the way: back to idle, at most one open
     incident per monitor, rows only evolving forward, and no incident announced twice or out of order.
     If no call fails and no result arrives during the tick, it is the fold of the atomic evaluations over lists
     of the tables it met, with fresh ids and its own times; heartbeats and edits may land meanwhile.
     */
    method EvaluateConsensus()
      requires Valid() && st.pc.Idle?
      modifies this`now, this`history, this`st, this`ticks, db`results, db`nodes, db`monitors, db`incidents
      ensures RanTick()
      ensures OneOpen(db.incidents) && Forward(old(db.incidents), db.incidents)
      ensures AtMostOnce(st.trace)
      ensures TickSince(initial, old(history), history, faulty)
      ensures Calm(history[|old(history)|..]) && DistinctStamps(old(db.results)) ==>
        exists mons, online, stamps :: IsTick(old(st), history[|old(history)|..], mons, online, stamps)
    {
      RunMonitors();
      TrackedState(initial, old(history), faulty);
      TrackedState(initial, history, faulty);
      ReachableOK(initial, history);
      AtMostOneAlertAndRecoveryPerIncident(initial, history);
      ForwardOver(initial, old(history), history);
      if Calm(history[|old(history)|..]) && DistinctStamps(old(db.results)) {
        var mons, online, stamps := TickOver(initial, old(history), history, faulty);
      }
    }

    /**
     The consensus loop for any number of ticks; marks are the histories at its tick boundaries. Of any two
     consecutive ticks over unchanged results, enabled monitors and online nodes the second is silent.
     */
    method ConsensusLoop(rounds: nat) returns (ghost marks: seq<seq<Event>>)
      requires Valid() && st.pc.Idle?
      modifies this`now, this`history, this`st, this`ticks, db`results, db`nodes, db`monitors, db`incidents
      ensures Valid() && initial == old(initial) && st.pc.Idle? && ticks == old(ticks) + rounds
      ensures |marks| == rounds + 1 && marks[0] == old(history) && marks[rounds] == history
      ensures Marked(initial, marks, faulty)
      ensures forall i :: 0 <= i < rounds - 1 ==> SecondSilent(initial, marks[i], marks[i + 1], marks[i + 2])
    {
      marks := [history];
      TrackedState(initial, history, faulty);
      for k := 0 to rounds
        invariant Valid() && initial == old(initial) && st.pc.Idle? && ticks == old(ticks) + k
        invariant |marks| == k + 1 && marks[0] == old(history) && marks[k] == history
        invariant Marked(initial, marks, faulty)
      {
        EvaluateConsensus();
        TrackedState(initial, history, faulty);
        MarkedSnoc(initial, marks, history, faulty);
        marks := marks + [history];
      }
      AllSecondSilent(initial, marks, faulty);
    }

    method RunMonitors()
      requires Valid() && st.pc.Idle?
      modifies this`now, this`history, this`st, this`ticks, db`results, db`nodes, db`monitors, db`incidents
      ensures RanTick()
    {
      Environment();
      var fault := Fault();
      var ok, monitors := db.ListEnabledMonitors(fault);
      Record(Call(ok, Monitors(monitors)));
      if !ok { return; }
      RunOnline(monitors);
    }

    /** The rest of the tick, once the monitors are loaded. */
    method RunOnline(monitors: seq<Monitor>)
      requires Valid() && st.pc == Loaded(monitors)
      modifies this`now, this`history, this`st, this`ticks, db`results, db`nodes, db`monitors, db`incidents
      ensures Ran() && st.pc.Idle?
    {
      var ok;

      Environment();
      var onlineNodes;
      var fault := Fault();
      ok, onlineNodes := db.GetOnlineNodes(fault);
      Record(Call(ok, OnlineNodes(onlineNodes)));
      if !ok { return; }

      var totalNodes := |onlineNodes|;
      if totalNodes == 0 { return; }
      EvaluateMonitors(monitors, onlineNodes, totalNodes);
    }

    /** The monitors one after the other, on one snapshot of the online nodes. */
    method EvaluateMonitors(monitors: seq<Monitor>, onlineNodes: seq<string>, totalNodes: nat)
      requires Valid() && st.pc == StartMonitor(monitors, onlineNodes) && totalNodes == |onlineNodes| > 0
      modifies this`now, this`history, this`st, this`ticks, db`results, db`nodes, db`monitors, db`incidents
      ensures Ran() && st.pc.Idle?
    {
      for k := 0 to |monitors|
        invariant Ran()
        invariant st.pc == StartMonitor(monitors[k..], onlineNodes)
      {
        ghost var job := Job(monitors[k], monitors[k + 1..], onlineNodes);
        assert monitors[k..][1..] == monitors[k + 1..];
        EvaluateMonitorConsensus(job, monitors[k], onlineNodes, totalNodes);
      }
    }
  }
}
