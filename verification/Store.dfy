/**
 internal/store/sqlite.go: the tables as fields of one object, each call atomic. `fault` says that the
 call fails for a reason outside the model; constraint violations are failures too. A failed call changes nothing.
 */
module Store {
  import opened Model
  import opened Streaks
  import opened Protocol

  // ---------- row encoding ----------

  /** sql.NullInt64 and sql.NullString. */
  datatype Nullable<+T> = NULL | NotNull(value: T)

  function NullInt(v: int): Nullable<int> { if v == 0 then NULL else NotNull(v) }

  function NullString(v: string): Nullable<string> { if v == "" then NULL else NotNull(v) }

  function BoolToInt(v: bool): int { if v then 1 else 0 }

  datatype MonitorRow = MonitorRow(
    id: string, name: string, groupName: string, checkType: string, target: string, port: Nullable<int>,
    intervalMS: int, timeoutMS: int, retries: int, expectedStatus: Nullable<int>, expectedKeyword: Nullable<string>,
    dnsRecordType: Nullable<string>, dnsExpected: Nullable<string>, failureThreshold: int, recoveryThreshold: int,
    quorumType: QuorumType, quorumN: int, cooldownMS: int, enabled: int, createdAt: int, updatedAt: int)

  function EncodeMonitor(m: Monitor): MonitorRow {
    MonitorRow(m.id, m.name, m.groupName, m.checkType, m.target, NullInt(m.port),
               m.intervalMS, m.timeoutMS, m.retries, NullInt(m.expectedStatus), NullString(m.expectedKeyword),
               NullString(m.dnsRecordType), NullString(m.dnsExpected), m.failureThreshold, m.recoveryThreshold,
               m.quorumType, m.quorumN, m.cooldownMS, BoolToInt(m.enabled), m.createdAt, m.updatedAt)
  }

  function OrZero(v: Nullable<int>): int { if v.NULL? then 0 else v.value }

  function OrEmpty(v: Nullable<string>): string { if v.NULL? then "" else v.value }

  function ScanMonitor(r: MonitorRow): Monitor {
    Monitor(r.id, r.name, r.groupName, r.checkType, r.target, OrZero(r.port),
            r.intervalMS, r.timeoutMS, r.retries, OrZero(r.expectedStatus), OrEmpty(r.expectedKeyword),
            OrEmpty(r.dnsRecordType), OrEmpty(r.dnsExpected), r.failureThreshold, r.recoveryThreshold,
            r.quorumType, r.quorumN, r.cooldownMS, r.enabled == 1, r.createdAt, r.updatedAt)
  }

  /** A column holds NULL exactly when the field is the zero value, and never holds the zero value itself. */
  predicate Canonical(r: MonitorRow) {
    && r.port != NotNull(0) && r.expectedStatus != NotNull(0) && r.expectedKeyword != NotNull("")
    && r.dnsRecordType != NotNull("") && r.dnsExpected != NotNull("") && (r.enabled == 0 || r.enabled == 1)
  }

  /** The encoding is a bijection between monitors and canonical rows. */
  lemma EncodingIsBijective(m: Monitor, r: MonitorRow)
    ensures ScanMonitor(EncodeMonitor(m)) == m && Canonical(EncodeMonitor(m))
    ensures EncodeMonitor(ScanMonitor(r)) == r <==> Canonical(r)
  {
  }

  /** Column by column: zero values are NULL, the flag is 0 or 1, and every other column holds its field. */
  lemma EncodedColumns(m: Monitor)
    ensures var r := EncodeMonitor(m);
      && (r.port == if m.port == 0 then NULL else NotNull(m.port))
      && (r.expectedStatus == if m.expectedStatus == 0 then NULL else NotNull(m.expectedStatus))
      && (r.expectedKeyword == if m.expectedKeyword == "" then NULL else NotNull(m.expectedKeyword))
      && (r.dnsRecordType == if m.dnsRecordType == "" then NULL else NotNull(m.dnsRecordType))
      && (r.dnsExpected == if m.dnsExpected == "" then NULL else NotNull(m.dnsExpected))
      && (r.enabled == if m.enabled then 1 else 0)
      && r.id == m.id && r.name == m.name && r.groupName == m.groupName && r.checkType == m.checkType
      && r.target == m.target && r.intervalMS == m.intervalMS && r.timeoutMS == m.timeoutMS && r.retries == m.retries
      && r.failureThreshold == m.failureThreshold && r.recoveryThreshold == m.recoveryThreshold
      && r.quorumType == m.quorumType && r.quorumN == m.quorumN && r.cooldownMS == m.cooldownMS
      && r.createdAt == m.createdAt && r.updatedAt == m.updatedAt
  {
  }

  // ---------- the tables ----------

  class SQLiteStore {
    var nodes: map<string, Node>
    var monitors: map<string, MonitorRow>
    var results: seq<CheckResult>
    var incidents: map<string, Incident>

    constructor ()
      ensures Valid() && nodes == map[] && monitors == map[] && results == [] && incidents == map[]
    {
      nodes, monitors, results, incidents := map[], map[], [], map[];
    }

    /** Rows sit under their primary key. */
    ghost predicate Valid()
      reads this`nodes, this`monitors
    {
      && (forall k :: k in nodes ==> nodes[k].id == k)
      && (forall k :: k in monitors ==> monitors[k].id == k)
    }

    ghost function Decoded(): (t: map<string, Monitor>)
      reads this`monitors
    {
      map k | k in monitors :: ScanMonitor(monitors[k])
    }

    // ---------- check results ----------

    /** Foreign keys: the monitor and the node must exist. */
    method InsertCheckResult(fault: bool, r: CheckResult) returns (ok: bool)
      modifies this`results
      ensures ok <==> !fault && r.monitorID in monitors && r.nodeID in nodes
      ensures results == if ok then old(results) + [r] else old(results)
    {
      ok := !fault && r.monitorID in monitors && r.nodeID in nodes;
      if ok { results := results + [r]; }
    }

    /** SELECT status ... ORDER BY timestamp DESC LIMIT 100; `all` is the answer before the limit. */
    method QueryRecent(
        fault: bool, m: string, n: string)
        returns (ok: bool, rows: seq<CheckResult>, ghost all: seq<CheckResult>)
      ensures ok <==> !fault
      ensures IsNewestFirst(results, m, n, all) && rows == Limit(all)
    {
      ok := !fault;
      NewestSorts(Select(results, m, n));
      all := Newest(Select(results, m, n));
      rows := Limit(Newest(Select(results, m, n)));
    }

    method CountConsecutiveFailures(
        fault: bool, m: string, n: string)
        returns (ok: bool, count: nat, ghost all: seq<CheckResult>)
      ensures ok <==> !fault
      ensures ok ==> IsNewestFirst(results, m, n, all) && count == Counted(all, false)
      ensures ok ==> count <= |all| && count <= 100 && forall i :: 0 <= i < count ==> !all[i].status.Up?
      ensures ok && count < |all| && count < 100 ==> all[count].status.Up?
    {
      var rows;
      ok, rows, all := QueryRecent(fault, m, n);
      CountReads(all, false);
      count := 0;
      if !ok { return; }
      for i := 0 to |rows|
        invariant count == i && Streak(rows, false) == count + Streak(rows[i..], false)
      {
        if !rows[i].status.Up? {
          count := count + 1;
        } else {
          break;
        }
      }
    }

    method CountConsecutiveSuccesses(
        fault: bool, m: string, n: string)
        returns (ok: bool, count: nat, ghost all: seq<CheckResult>)
      ensures ok <==> !fault
      ensures ok ==> IsNewestFirst(results, m, n, all) && count == Counted(all, true)
      ensures ok ==> count <= |all| && count <= 100 && forall i :: 0 <= i < count ==> all[i].status.Up?
      ensures ok && count < |all| && count < 100 ==> !all[count].status.Up?
    {
      var rows;
      ok, rows, all := QueryRecent(fault, m, n);
      CountReads(all, true);
      count := 0;
      if !ok { return; }
      for i := 0 to |rows|
        invariant count == i && Streak(rows, true) == count + Streak(rows[i..], true)
      {
        if rows[i].status.Up? {
          count := count + 1;
        } else {
          break;
        }
      }
    }

    // ---------- incidents ----------

    /** PRIMARY KEY and foreign key violations are errors. */
    method CreateIncident(fault: bool, i: Incident) returns (ok: bool)
      modifies this`incidents
      ensures ok <==> !fault && i.id !in old(incidents) && i.monitorID in monitors
      ensures incidents == if ok then old(incidents)[i.id := i] else old(incidents)
    {
      ok := !fault && i.id !in incidents && i.monitorID in monitors;
      if ok { incidents := incidents[i.id := i]; }
    }

    method UpdateIncident(fault: bool, i: Incident) returns (ok: bool)
      modifies this`incidents
      ensures ok <==> !fault
      ensures incidents == if ok then Update(old(incidents), i) else old(incidents)
      ensures ok && i.id in old(incidents) ==>
        incidents == old(incidents)[i.id := old(incidents)[i.id].(status := i.status, confirmedAt := i.confirmedAt,
          resolvedAt := i.resolvedAt, confirmingNodes := i.confirmingNodes, updatedAt := i.updatedAt)]
    {
      ok := !fault;
      if ok { incidents := Update(incidents, i); }
    }

    method GetActiveIncident(fault: bool, m: string) returns (ok: bool, found: Option<Incident>)
      requires forall k :: k in incidents ==> incidents[k].id == k
      ensures ok <==> !fault
      ensures ok ==> IsActive(incidents, m, found)
      ensures ok && found.None? ==>
        forall k :: k in incidents && incidents[k].monitorID == m ==> incidents[k].status.Resolved?
      ensures ok && found.Some? ==>
        && found.value.id in incidents && incidents[found.value.id] == found.value
        && found.value.monitorID == m && !found.value.status.Resolved?
    {
      ok := !fault;
      found := None;
      var todo := incidents.Keys;
      while todo != {}
        invariant todo <= incidents.Keys
        invariant IsActive(map k | k in incidents && k !in todo :: incidents[k], m, found)
        decreases todo
      {
        var k :| k in todo;
        todo := todo - {k};
        if Open(incidents[k], m) && (found.None? || found.value.createdAt < incidents[k].createdAt) {
          found := Some(incidents[k]);
        }
      }
      assert (map k | k in incidents && k !in todo :: incidents[k]) == incidents;
    }

    // ---------- nodes ----------

    method CreateNode(fault: bool, n: Node) returns (ok: bool)
      requires Valid()
      modifies this`nodes
      ensures Valid()
      ensures ok <==> !fault && n.id !in old(nodes)
      ensures nodes == if ok then old(nodes)[n.id := n] else old(nodes)
    {
      ok := !fault && n.id !in nodes;
      if ok { nodes := nodes[n.id := n]; }
    }

    /** UPDATE nodes SET every column but id and created_at. */
    method UpdateNode(fault: bool, n: Node) returns (ok: bool)
      requires Valid()
      modifies this`nodes
      ensures Valid()
      ensures ok <==> !fault
      ensures nodes
           == if ok && n.id in old(nodes) then old(nodes)[n.id := n.(createdAt := old(nodes)[n.id].createdAt)]
              else old(nodes)
    {
      ok := !fault;
      if ok && n.id in nodes { nodes := nodes[n.id := n.(createdAt := nodes[n.id].createdAt)]; }
    }

    method UpdateNodeStatus(fault: bool, id: string, status: NodeStatus, lastSeen: int) returns (ok: bool)
      requires Valid()
      modifies this`nodes
      ensures Valid()
      ensures ok <==> !fault
      ensures nodes
           == if ok && id in old(nodes) then old(nodes)[id := old(nodes)[id].(status := status, lastSeen := lastSeen)]
              else old(nodes)
    {
      ok := !fault;
      if ok && id in nodes { nodes := nodes[id := nodes[id].(status := status, lastSeen := lastSeen)]; }
    }

    /** DELETE is refused while a result refers to the node. */
    method DeleteNode(fault: bool, id: string) returns (ok: bool)
      requires Valid()
      modifies this`nodes
      ensures Valid()
      ensures ok <==> !fault && forall r :: r in results ==> r.nodeID != id
      ensures nodes == if ok then old(nodes) - {id} else old(nodes)
    {
      ok := !fault && forall r :: r in results ==> r.nodeID != id;
      if ok { nodes := nodes - {id}; }
    }

    /** cluster.GetOnlineNodes over ListNodes: the ids of the online nodes, in some order. */
    method GetOnlineNodes(fault: bool) returns (ok: bool, ids: seq<string>)
      ensures ok <==> !fault
      ensures ok ==> IsOnlineList(ids, nodes)
      ensures ok ==> forall i, j :: 0 <= i < j < |ids| ==> ids[i] != ids[j]
      ensures ok ==> forall k :: k in ids <==> k in nodes && nodes[k].status == NodeOnline
    {
      ok := !fault;
      ids := [];
      var todo := nodes.Keys;
      while todo != {}
        invariant todo <= nodes.Keys && NoDup(ids)
        invariant forall k :: k in ids <==> k in nodes && k !in todo && nodes[k].status.NodeOnline?
        decreases todo
      {
        var k :| k in todo;
        todo := todo - {k};
        if nodes[k].status.NodeOnline? { ids := ids + [k]; }
      }
    }

    // ---------- monitors ----------

    method CreateMonitor(fault: bool, m: Monitor) returns (ok: bool)
      requires Valid()
      modifies this`monitors
      ensures Valid()
      ensures ok <==> !fault && m.id !in old(monitors)
      ensures monitors == if ok then old(monitors)[m.id := EncodeMonitor(m)] else old(monitors)
    {
      ok := !fault && m.id !in monitors;
      if ok { monitors := monitors[m.id := EncodeMonitor(m)]; }
    }

    /** UPDATE monitors SET every column but id and created_at. */
    method UpdateMonitor(fault: bool, m: Monitor) returns (ok: bool)
      requires Valid()
      modifies this`monitors
      ensures Valid()
      ensures ok <==> !fault
      ensures monitors == if ok && m.id in old(monitors)
        then old(monitors)[m.id := EncodeMonitor(m).(createdAt := old(monitors)[m.id].createdAt)] else old(monitors)
    {
      ok := !fault;
      if ok && m.id in monitors {
        monitors := monitors[m.id := EncodeMonitor(m).(createdAt := monitors[m.id].createdAt)];
      }
    }

    /** DELETE is refused while a result or an incident refers to the monitor. */
    method DeleteMonitor(fault: bool, id: string) returns (ok: bool)
      requires Valid()
      modifies this`monitors
      ensures Valid()
      ensures ok <==>
        && !fault && (forall r :: r in results ==> r.monitorID != id)
        && (forall k :: k in incidents ==> incidents[k].monitorID != id)
      ensures monitors == if ok then old(monitors) - {id} else old(monitors)
    {
      ok := !fault && (forall r :: r in results ==> r.monitorID != id)
        && (forall k :: k in incidents ==> incidents[k].monitorID != id);
      if ok { monitors := monitors - {id}; }
    }

    method GetMonitor(fault: bool, id: string) returns (ok: bool, found: Option<Monitor>)
      ensures ok <==> !fault
      ensures ok ==> found == if id in monitors then Some(ScanMonitor(monitors[id])) else None
    {
      ok := !fault;
      found := if id in monitors then Some(ScanMonitor(monitors[id])) else None;
    }

    method GetNode(fault: bool, id: string) returns (ok: bool, found: Option<Node>)
      ensures ok <==> !fault
      ensures ok ==> found == if id in nodes then Some(nodes[id]) else None
    {
      ok := !fault;
      found := if id in nodes then Some(nodes[id]) else None;
    }

    method ListEnabledMonitors(fault: bool) returns (ok: bool, ms: seq<Monitor>)
      requires Valid()
      ensures ok <==> !fault
      ensures ok ==> IsEnabledList(ms, Decoded())
      ensures ok ==> forall i, j :: 0 <= i < j < |ms| ==> ms[i] != ms[j]
      ensures ok ==> forall k :: k in monitors && monitors[k].enabled == 1 ==> ScanMonitor(monitors[k]) in ms
      ensures ok ==> forall mon :: mon in ms ==>
        mon.id in monitors && monitors[mon.id].enabled == 1 && mon == ScanMonitor(monitors[mon.id])
    {
      ok := !fault;
      ms := [];
      var todo := monitors.Keys;
      while todo != {}
        invariant todo <= monitors.Keys && NoDup(ms)
        invariant forall k :: k in monitors && k !in todo && monitors[k].enabled == 1 ==> ScanMonitor(monitors[k]) in ms
        invariant forall mon ::
          mon in ms ==>
            && mon.id in monitors && mon.id !in todo && ScanMonitor(monitors[mon.id]) == mon
            && monitors[mon.id].enabled == 1 && mon.enabled
        decreases todo
      {
        var k :| k in todo;
        todo := todo - {k};
        if monitors[k].enabled == 1 { ms := ms + [ScanMonitor(monitors[k])]; }
      }
      forall mon | mon in ms ensures mon.id in Decoded() && Decoded()[mon.id] == mon {}
    }
  }
}
