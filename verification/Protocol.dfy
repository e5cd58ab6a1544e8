/**
 The coordinator's consensus loop as a state machine whose steps are single store calls.

 Between any two calls the environment may insert results, replace the node and monitor tables,
 advance the clock or kill the coordinator; every call may fail without effect. One goroutine runs
 the loop, so a single program counter describes it. The machine is total: an answer the store cannot
 give leaves the state as it is, so every sequence of events is a run.
 */
module Protocol {
  import opened Model
  import opened Streaks
  import opened Quorum

  /** A count that reached its threshold: taken when the log held `at` results, answered by `rows`. */
  datatype Seen = Seen(node: string, at: nat, rows: seq<CheckResult>)

  /** The monitor under evaluation, the monitors still to do and the online snapshot. */
  datatype Job = Job(mon: Monitor, rest: seq<Monitor>, online: seq<string>)

  /** Where the loop stands: each constructor names the next store call (or notification). */
  datatype PC =
    | Idle                                                                // ListEnabledMonitors
    | Loaded(ms: seq<Monitor>)                                            // ListNodes
    | Counting(job: Job, todo: seq<string>, seen: seq<Seen>)              // CountConsecutiveFailures(todo[0])
    | Lookup(job: Job, seen: seq<Seen>)                                   // GetActiveIncident, quorum met
    | Creating(job: Job, seen: seq<Seen>)                                 // CreateIncident
    | Confirming(job: Job, seen: seq<Seen>, inc: Incident)                // UpdateIncident
    | Alerting(job: Job, inc: Incident)                                   // SendAlert
    | Checking(job: Job)                                                  // GetActiveIncident, quorum not met
    | Recounting(job: Job, inc: Incident, todo: seq<string>, seen: seq<Seen>) // CountConsecutiveSuccesses(todo[0])
    | Resolving(job: Job, inc: Incident, seen: seq<Seen>)                 // UpdateIncident
    | Announcing(job: Job, inc: Incident)                                 // SendRecovery

  datatype Notice = Alert(inc: Incident, mon: Monitor) | Recovery(inc: Incident, mon: Monitor)

  /** History of successful UpdateIncident calls: up = false confirms, up = true resolves. */
  datatype Verdict = Verdict(up: bool, id: string, mon: Monitor, online: seq<string>, seen: seq<Seen>)

  datatype State = State(
    log: seq<CheckResult>, incidents: map<string, Incident>, nodes: map<string, Node>,
    monitors: map<string, Monitor>, now: int, pc: PC, verdicts: seq<Verdict>, trace: seq<Notice>)

  datatype Answer =
    | Nothing
    | Monitors(ms: seq<Monitor>)
    | OnlineNodes(ids: seq<string>)
    | Rows(rows: seq<CheckResult>)
    | Active(found: Option<Incident>)
    | FreshID(id: string)

  datatype Event =
    | Arrive(result: CheckResult)
    | Tick(elapsed: nat)
    | SetNodes(nodes: map<string, Node>)
    | SetMonitors(monitors: map<string, Monitor>)
    | Crash
    | Call(ok: bool, answer: Answer)

  // ---------- what the store may answer ----------

  /** SELECT ... WHERE enabled = 1: every enabled row once, in some order. */
  ghost predicate IsEnabledList(ms: seq<Monitor>, table: map<string, Monitor>) {
    && NoDup(ms)
    && (forall k :: k in table && table[k].enabled ==> table[k] in ms)
    && (forall mon :: mon in ms ==> mon.enabled && exists k :: k in table && table[k] == mon)
  }

  /** ListNodes filtered on status online: every online node once, in some order. */
  ghost predicate IsOnlineList(ids: seq<string>, table: map<string, Node>) {
    && NoDup(ids)
    && (forall k :: k in ids <==> k in table && table[k].status.NodeOnline?)
  }

  predicate Open(i: Incident, m: string) {
    i.monitorID == m && !i.status.Resolved?
  }

  /** Unresolved incidents of m by created_at, newest first, LIMIT 1. */
  ghost predicate IsActive(incidents: map<string, Incident>, m: string, found: Option<Incident>) {
    match found
    case None => forall k :: k in incidents ==> !Open(incidents[k], m)
    case Some(i) =>
      && i.id in incidents && incidents[i.id] == i && Open(i, m)
      && forall k :: k in incidents && Open(incidents[k], m) ==> incidents[k].createdAt <= i.createdAt
  }

  // ---------- control flow between store calls ----------

  function Nodes(seen: seq<Seen>): (r: seq<string>)
    ensures |r| == |seen|
  {
    seq(|seen|, i requires 0 <= i < |seen| => seen[i].node)
  }

  function StartMonitor(rest: seq<Monitor>, online: seq<string>): PC {
    if rest == [] || online == [] then Idle
    else Counting(Job(rest[0], rest[1..], online), online, [])
  }

  function Next(job: Job): PC { StartMonitor(job.rest, job.online) }

  function FailuresCounted(job: Job, todo: seq<string>, seen: seq<Seen>): PC {
    if todo != [] then Counting(job, todo, seen)
    else if Met(job.mon, |seen|, |job.online|) then Lookup(job, seen)
    else Checking(job)
  }

  function SuccessesCounted(job: Job, inc: Incident, todo: seq<string>, seen: seq<Seen>): PC {
    if todo != [] then Recounting(job, inc, todo, seen)
    else if Met(job.mon, |seen|, |job.online|) then Resolving(job, inc, seen)
    else Next(job)
  }

  function Threshold(mon: Monitor, up: bool): int {
    if up then mon.recoveryThreshold else mon.failureThreshold
  }

  function Note(seen: seq<Seen>, node: string, at: nat, rows: seq<CheckResult>, mon: Monitor, up: bool): seq<Seen> {
    if Counted(rows, up) >= Threshold(mon, up) then seen + [Seen(node, at, rows)] else seen
  }

  function NewIncident(id: string, m: string, now: int): Incident {
    Incident(id, m, Suspect, now, 0, 0, [], now, now)
  }

  function ConfirmedIncident(i: Incident, nodes: seq<string>, now: int): Incident {
    i.(status := Confirmed, confirmedAt := now, confirmingNodes := nodes, updatedAt := now)
  }

  function ResolvedIncident(i: Incident, now: int): Incident {
    i.(status := Resolved, resolvedAt := now, updatedAt := now)
  }

  /** UPDATE incidents SET the five mutable columns WHERE id = i.id. */
  function Update(incidents: map<string, Incident>, i: Incident): map<string, Incident> {
    if i.id !in incidents then incidents
    else incidents[i.id := incidents[i.id].(status := i.status, confirmedAt := i.confirmedAt,
      resolvedAt := i.resolvedAt, confirmingNodes := i.confirmingNodes, updatedAt := i.updatedAt)]
  }

  // ---------- the loop's calls ----------

  ghost function CallFailed(pc: PC): PC {
    match pc
    case Idle => Idle
    case Loaded(_) => Idle
    case Counting(job, todo, seen) => if todo == [] then pc else FailuresCounted(job, todo[1..], seen)
    case Recounting(job, inc, todo, seen) => if todo == [] then pc else SuccessesCounted(job, inc, todo[1..], seen)
    case Alerting(_, _) => pc
    case Announcing(_, _) => pc
    case _ => Next(pc.job)
  }

  ghost function CountStep(s: State, a: Answer): State {
    match s.pc
    case Counting(job, todo, seen) =>
      if todo != [] && a.Rows? && IsNewestFirst(s.log, job.mon.id, todo[0], a.rows) then
        s.(pc := FailuresCounted(job, todo[1..], Note(seen, todo[0], |s.log|, a.rows, job.mon, false)))
      else s
    case Recounting(job, inc, todo, seen) =>
      if todo != [] && a.Rows? && IsNewestFirst(s.log, job.mon.id, todo[0], a.rows) then
        s.(pc := SuccessesCounted(job, inc, todo[1..], Note(seen, todo[0], |s.log|, a.rows, job.mon, true)))
      else s
    case _ => s
  }

  ghost function LookupStep(s: State, a: Answer): State
    requires s.pc.Lookup? || s.pc.Checking?
  {
    if !a.Active? || !IsActive(s.incidents, s.pc.job.mon.id, a.found) then s
    else match s.pc
      case Lookup(job, seen) =>
        if a.found.None? then s.(pc := Creating(job, seen))
        else if a.found.value.status.Suspect? then s.(pc := Confirming(job, seen, a.found.value))
        else s.(pc := Next(job))
      case Checking(job) =>
        if a.found.None? then s.(pc := Next(job))
        else s.(pc := SuccessesCounted(job, a.found.value, job.online, []))
  }

  ghost function CreateStep(s: State, a: Answer): State
    requires s.pc.Creating?
  {
    if !a.FreshID? then s
    else if a.id in s.incidents then s.(pc := Next(s.pc.job)) // PRIMARY KEY conflict: an error
    else
      var i := NewIncident(a.id, s.pc.job.mon.id, s.now);
      s.(incidents := s.incidents[a.id := i], pc := Confirming(s.pc.job, s.pc.seen, i))
  }

  ghost function WriteStep(s: State): State
    requires s.pc.Confirming? || s.pc.Resolving?
  {
    var job, seen := s.pc.job, s.pc.seen;
    var up := s.pc.Resolving?;
    var i := if up then ResolvedIncident(s.pc.inc, s.now) else ConfirmedIncident(s.pc.inc, Nodes(seen), s.now);
    s.(incidents := Update(s.incidents, i),
       verdicts := s.verdicts + [Verdict(up, i.id, job.mon, job.online, seen)],
       pc := if up then Announcing(job, i) else Alerting(job, i))
  }

  ghost function NotifyStep(s: State): State
    requires s.pc.Alerting? || s.pc.Announcing?
  {
    var n := if s.pc.Alerting? then Alert(s.pc.inc, s.pc.job.mon) else Recovery(s.pc.inc, s.pc.job.mon);
    s.(trace := s.trace + [n], pc := Next(s.pc.job))
  }

  ghost function Answered(s: State, a: Answer): State {
    match s.pc
    case Idle => if a.Monitors? && IsEnabledList(a.ms, s.monitors) then s.(pc := Loaded(a.ms)) else s
    case Loaded(ms) =>
      if a.OnlineNodes? && IsOnlineList(a.ids, s.nodes) then s.(pc := StartMonitor(ms, a.ids)) else s
    case Counting(_, _, _) => CountStep(s, a)
    case Recounting(_, _, _, _) => CountStep(s, a)
    case Lookup(_, _) => LookupStep(s, a)
    case Checking(_) => LookupStep(s, a)
    case Creating(_, _) => CreateStep(s, a)
    case Confirming(_, _, _) => WriteStep(s)
    case Resolving(_, _, _) => WriteStep(s)
    case Alerting(_, _) => NotifyStep(s)
    case Announcing(_, _) => NotifyStep(s)
  }

  ghost function Step(s: State, e: Event): State {
    match e
    case Arrive(r) => s.(log := s.log + [r])
    case Tick(d) => s.(now := s.now + d)
    case SetNodes(t) => s.(nodes := t)
    case SetMonitors(t) => s.(monitors := t)
    case Crash => s.(pc := Idle)
    case Call(ok, a) => if ok then Answered(s, a) else s.(pc := CallFailed(s.pc))
  }

  /** The loop is evaluating the monitor of this job. */
  ghost predicate OnJob(pc: PC, job: Job) {
    !pc.Idle? && !pc.Loaded? && pc.job == job
  }

  lemma NextIsOffJob(job: Job)
    ensures !OnJob(Next(job), job)
  {
  }

  lemma CountStaysOrMovesOn(s: State, a: Answer)
    requires s.pc.Counting? || s.pc.Recounting?
    ensures OnJob(CountStep(s, a).pc, s.pc.job) || CountStep(s, a).pc == Next(s.pc.job)
  {
  }

  lemma LookupStaysOrMovesOn(s: State, a: Answer)
    requires s.pc.Lookup? || s.pc.Checking?
    ensures OnJob(LookupStep(s, a).pc, s.pc.job) || LookupStep(s, a).pc == Next(s.pc.job)
  {
  }

  lemma FailureStaysOrMovesOn(s: State)
    requires !s.pc.Idle? && !s.pc.Loaded?
    ensures OnJob(CallFailed(s.pc), s.pc.job) || CallFailed(s.pc) == Next(s.pc.job)
  {
  }

  /** A call either stays on its job or moves to the next one. */
  lemma StaysOrMovesOn(s: State, e: Event)
    requires e.Call? && !s.pc.Idle? && !s.pc.Loaded?
    ensures OnJob(Step(s, e).pc, s.pc.job) || Step(s, e).pc == Next(s.pc.job)
  {
    if !e.ok {
      FailureStaysOrMovesOn(s);
    } else if s.pc.Counting? || s.pc.Recounting? {
      CountStaysOrMovesOn(s, e.answer);
    } else if s.pc.Lookup? || s.pc.Checking? {
      LookupStaysOrMovesOn(s, e.answer);
    } else if s.pc.Creating? {
      assert Step(s, e) == CreateStep(s, e.answer);
    }
  }

  ghost function Run(s: State, es: seq<Event>): State {
    if es == [] then s else Step(Run(s, es[..|es| - 1]), es[|es| - 1])
  }

  /** No crash and no failed call. */
  ghost predicate Faultless(es: seq<Event>) {
    forall i :: 0 <= i < |es| ==> !es[i].Crash? && (es[i].Call? ==> es[i].ok)
  }

  /** A fresh coordinator: no incident yet, any tables and log, a positive clock. */
  ghost predicate Init(s: State) {
    s.incidents == map[] && s.pc.Idle? && s.verdicts == [] && s.trace == [] && s.now > 0
  }

  lemma {:induction false} RunAppend(s: State, es: seq<Event>, fs: seq<Event>)
    ensures Run(s, es + fs) == Run(Run(s, es), fs)
  {
    if fs == [] {
      assert es + fs == es;
    } else {
      var k := |fs| - 1;
      assert (es + fs)[..|es + fs| - 1] == es + fs[..k];
      RunAppend(s, es, fs[..k]);
    }
  }
}
