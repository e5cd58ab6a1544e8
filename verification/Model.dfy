/** The entities of internal/model/types.go that the verified components read or write. */
module Model {

  datatype Option<+T> = None | Some(value: T)

  datatype CheckStatus = Up | Down | Degraded | OtherStatus(text: string)

  /** One stored check result; the columns no query of the consensus engine reads are omitted. */
  datatype CheckResult = CheckResult(monitorID: string, nodeID: string, status: CheckStatus, timestamp: int)

  datatype NodeStatus = NodeOnline | NodeOffline | NodeSuspect

  datatype Node = Node(
    id: string, name: string, location: string, address: string, role: string,
    status: NodeStatus, lastSeen: int, createdAt: int)

  datatype QuorumType = Majority | NOfM | OtherQuorum(text: string)

  datatype Monitor = Monitor(
    id: string, name: string, groupName: string, checkType: string, target: string, port: int,
    intervalMS: int, timeoutMS: int, retries: int, expectedStatus: int, expectedKeyword: string,
    dnsRecordType: string, dnsExpected: string, failureThreshold: int, recoveryThreshold: int,
    quorumType: QuorumType, quorumN: int, cooldownMS: int, enabled: bool, createdAt: int, updatedAt: int)

  datatype IncidentStatus = Suspect | Confirmed | Resolved

  /** Times are Unix milliseconds; 0 means "not set", as in the Go struct. */
  datatype Incident = Incident(
    id: string, monitorID: string, status: IncidentStatus, startedAt: int, confirmedAt: int,
    resolvedAt: int, confirmingNodes: seq<string>, createdAt: int, updatedAt: int)

  predicate NoDup<T(==)>(s: seq<T>) {
    forall i, j :: 0 <= i < j < |s| ==> s[i] != s[j]
  }
}
