# PingMesh: a verified model

PingMesh watches services from several nodes. Nodes push timestamped check results to a coordinator,
which periodically counts each online node's trailing failure or success streak, applies a quorum rule,
drives one incident per monitor through suspect, confirmed and resolved, and sends alerts and recoveries.
This project models that engine and three stateful components beside it in Dafny, and proves what they
keep over whole runs.

## Structure

| file | models |
|---|---|
| `Model.dfy` | the entities of `internal/model/types.go` |
| `Streaks.dfy` | the two streak queries: selection, order, LIMIT 100, counting loop |
| `Quorum.dfy` | the quorum rule and quorum intersection |
| `Protocol.dfy` | the consensus loop as a state machine whose steps are single store calls |
| `Incidents.dfy`, `Evidence.dfy`, `Snapshots.dfy`, `Hysteresis.dfy`, `Notifications.dfy`, `Subscribers.dfy`, `Clock.dfy` | invariants and run theorems of that machine |
| `Evaluation.dfy`, `Outcomes.dfy`, `Decisions.dfy`, `ReadErrors.dfy` | one evaluation as an atomic function, the refinement to it, what it writes and sends, and what may change its decision |
| `Ticks.dfy` | a whole tick while the clock runs and edits land: its refinement to a fold of atomic evaluations, two ticks in a row, and the bookkeeping that carries this to the code |
| `Flapping.dfy`, `Minority.dfy` | a run in which failed reads alone resolve a live incident; runs in which a minority recovers, and when there is none |
| `Store.dfy`, `Agent.dfy` | the store and the coordinator as classes with loops; a ghost history ties them to the machine |
| `ConfigSync.dfy` | the merge of synced monitors and nodes, over any number of syncs, one after the other and interleaved |
| `Membership.dfy`, `JoinTokens.dfy` | offline detection while heartbeats land; join tokens |
| `Scheduler.dfy` | check loops, the running-flag guard, the retry loop |
| `LogBuf.dfy` | line splitting and the ring buffer |

**How concurrency is modelled.** Store calls are atomic (one SQLite connection). A run is any sequence of
events: result arrivals, clock ticks, arbitrary changes of the node and monitor tables, crashes, and the
loop's own calls, each of which may fail without effect. The program counter names the next call. An answer
the store cannot give leaves the state unchanged, so theorems quantify over all event sequences without
assuming they are sensible. `Agent.dfy` is the imperative code: before every store call its `Environment`
method performs any number of arrivals and table changes, and `Valid()` says that the real tables are those
of the machine run on the recorded history, that every answered call moved the machine on, and that calls
fail only when the store is `faulty` or refuses to create a row. Whatever is proved about runs is therefore
proved about the code's tables; and a tick of the code during which no call fails and no result arrives,
while the clock runs and heartbeats and edits land, is exactly the fold of atomic evaluations
(`AgentRuntime.Agent.EvaluateConsensus`). A coordinator restarted on a store with incidents continues the
run of the one before it (`AgentRuntime.Agent.Restart`). Store methods take a `fault` flag, so each contract
says exactly when the call succeeds.

**Ties in the streak query.** The query orders by timestamp only. The machine lets the database break ties
in any way; theorems that need one answer assume distinct timestamps per node for the monitor in question
(`DistinctStampsOf`), or for all monitors of a tick (`DistinctStamps`), and `TieMakesTheCountAmbiguous`
shows that this is needed.

**Where code and documentation differ.** The documentation promises that recovery takes a majority of nodes;
the code applies the monitor's own rule, so for `n_of_m` this holds exactly when two quorums must overlap
(`RecoveryNeedsMajorityIffOverlapping`, over runs `RecoveriesAreMajoritiesIffOverlapping`). The
documentation describes active peer confirmation; the code only counts stored results. The resolving branch
does not look at the incident's status, so an incident whose confirming update failed can be resolved and
announced without ever having been alerted; `AlternationIffNoSuspectResolved` gives the exact condition, the
status check the branch lacks, and `OneFailedConfirmationBreaksAlternation` a run. Read errors can trigger a
recovery under `n_of_m` rules whose quorums do not overlap (`ErrorsHarmlessIffRobust`), and
`FailedReadsAloneRecover` is a run in which they do. When a pull and a push of one config run at once, a
version looked up before another loop's insert and written after it is lost (`OvertakenVersionIsLost`); a
token whose consuming update loses its answer is spent without admitting anyone (`TokensAreConserved`). A
heartbeat landing during a detection pass can be lost (`StaleNodeSurvivesIffItReportsAfterItsTurn`).
Stopping a monitor whose check is in flight lets a second check run beside it
(`StopInFlightAdmitsSecondCheck`).

## Model

The engine comes first, the components beside it next. Rows that give the contract of a single store statement come last.

| member | source | states |
|---|---|---|
| Streaks.CountReads | internal/store/sqlite.go:253-303 | a count is at most 100, the counted rows all have the polarity, and it stops at a row of the other polarity, at the end of the answer or at 100 |
| Streaks.AnswerReads | internal/store/sqlite.go:253-258 | an answer of the query holds exactly the results of the monitor and the node, as often as they are stored, newest first |
| Streaks.CountedIsCappedStreak | internal/store/sqlite.go:253-303 | the count is the length of the trailing run, capped at 100 |
| Streaks.StreakIsLongestPrefix | internal/store/sqlite.go:264-276 | count-and-break finds the longest uniform prefix |
| Streaks.CapHarmlessIffThresholdAtMostLimit | internal/store/sqlite.go:253-258 | the LIMIT never changes a threshold test if and only if the threshold is at most 100 |
| Streaks.ExactlyOneCountPositive | internal/store/sqlite.go:253-303 | with a result present exactly one of the failure and success counts is positive |
| Streaks.DeliveryOrderIrrelevant | internal/store/sqlite.go:210-222 | with distinct timestamps, logs holding the same results in any arrival order give the same query answer, whatever the database does with ties |
| Streaks.TieMakesTheCountAmbiguous | internal/store/sqlite.go:254-258 | two results with one timestamp can be answered so that the count is zero or positive |
| Streaks.FlipNeedsFreshResults | internal/store/sqlite.go:253-303 | between a count of one polarity and a streak of t of the other, at least t results of the other polarity arrived, in whatever order |
| Quorum.MetIffAtLeastNeed | internal/consensus/evaluator.go:4-13 | the rule is a threshold rule: more than half for majority, at least quorumN for n_of_m |
| Quorum.RecoveryNeedsMajorityIffOverlapping | internal/agent/agent.go:361 | a count that meets the rule is a majority of nodes if and only if the rule's quorums overlap |
| Minority.RecoveriesAreMajoritiesIffOverlapping | internal/agent/agent.go:347-369 | for a monitor with thresholds in reach and a rule needing a node, every recovery over these online nodes in every run counted a majority if and only if the rule's quorums overlap |
| Minority.LeastQuorumRecovers | internal/agent/agent.go:347-369 | a run without a crash or a failed call in which just as many nodes as the rule needs fail, come up and decide the recovery, the others being online and silent |
| Minority.OverlappingRecoveriesAreMajorities | internal/agent/agent.go:361 | in any run a recovery under a rule whose quorums overlap counted more than half of its online nodes |
| Quorum.QuorumsIntersect | internal/consensus/evaluator.go:4-13 | two duplicate-free lists longer together than the set they come from share an element |
| Incidents.AtMostOneOpenIncident | internal/consensus/incident.go:23-48 | in every reachable state, with failures, arrivals and crashes anywhere, each monitor has at most one unresolved incident and every row's start, confirmation and resolution times are in order |
| Incidents.ActiveIncidentIsDetermined | internal/store/sqlite.go:377-382 | the ORDER BY of the active-incident query never has to choose |
| Incidents.LifecycleForward | internal/consensus/incident.go:51-72 | rows are never lost, status only moves forward, resolved rows are final, identity, start time and evidence are written once |
| Clock.TimesAreClockReadings | internal/consensus/incident.go:32-72 | in every run each row was inserted by one event and starts at its clock; confirmedAt and resolvedAt are the clock at the events that recorded the confirming and the resolving verdict |
| Clock.DurationIsElapsedTime | internal/alert/alert.go:287-293 | the reported duration is not negative and is the time in whole seconds between those events |
| Incidents.EvaluationIsMonitorLocal | internal/agent/agent.go:311-370 | a step of the loop leaves the incidents and notices of every monitor it is not working on unchanged |
| Hysteresis.VerdictsAreEvidenced | internal/agent/agent.go:288-369 | every verdict, confirming or resolving, is backed by counted streaks of distinct nodes meeting the quorum; its monitor was an enabled row and its online list exactly the online nodes, both read in the tick that recorded it, before any of its counts |
| Hysteresis.ConfirmationIsEvidenced | internal/agent/agent.go:288-341 | every confirmed incident has exactly one confirming verdict; its nodes are distinct, enough for the quorum of a monitor row then enabled, each online in the node table when the tick listed it, and each with the required streak when counted after that |
| Hysteresis.OppositeVerdictsNeedFreshResults | internal/agent/agent.go:311-370 | two opposite verdicts on a monitor whose counted nodes must overlap are separated by a threshold's worth of fresh results at a node behind both, in any run |
| Hysteresis.RecoveryNeedsFreshUps | internal/agent/agent.go:347-370 | with the same online set and overlapping quorums, a node among the confirming nodes gained at least recoveryThreshold up results before the recovery |
| Hysteresis.NextAlertNeedsFreshFailures | internal/agent/agent.go:329-346 | symmetrically, a node counted as recovered gained at least failureThreshold non-up results before a later confirmation |
| Subscribers.NoticesAnnounce | internal/agent/agent.go:335-368 | the notices a monitor's subscribers get announce distinct verdicts on it, in the order these were recorded, in every run |
| Subscribers.OppositeNoticesNeedFreshResults | internal/agent/agent.go:311-370 | between an alert and a later recovery of a monitor, or a recovery and a later alert, a node behind both decisions gained a threshold of fresh results, if both had one electorate and overlapping quorums |
| Notifications.AtMostOneAlertAndRecoveryPerIncident | internal/agent/agent.go:329-369 | in every run each incident gets at most one alert and one recovery, never an alert after its recovery |
| Notifications.AlternationIffRecoveriesConfirmed | internal/agent/agent.go:347-369 | for each monitor, however calls fail, wherever the coordinator restarts except between writing an incident of this monitor and sending its notice, and whatever happens to other monitors: its notices alternate starting with an alert if and only if no recovery was sent for a never-confirmed incident of it |
| Notifications.AlternationIffNoSuspectResolved | internal/agent/agent.go:347-369 | under the same condition, a monitor's notices alternate starting with an alert if and only if no resolving update was made on an incident of it that was still suspect |
| Notifications.OnlyFailedConfirmationsBreakAlternation | internal/agent/agent.go:335-341 | a monitor's alternation survives every store error and restart except one that keeps a confirming update of its own from happening |
| Notifications.OneFailedConfirmationBreaksAlternation | internal/consensus/incident.go:64-72 | a run without a crash in which exactly one call fails, a confirming update, and whose only notice is the recovery of that incident |
| Evaluation.QuietEvaluationIsAtomic | internal/agent/agent.go:311-370 | single store calls through one evaluation, with any failing count queries, while the clock runs and heartbeats and edits land, end exactly in the atomic evaluation with the times of its writes |
| Outcomes.NewIncidentIsConfirmed | internal/agent/agent.go:329-341 | if the nodes whose newest results reach the failure threshold carry the quorum and the monitor has no unresolved incident, a new one is written, confirmed by exactly these nodes, every column given, and alerted |
| Outcomes.UnresolvedIncidentIsConfirmedOnce | internal/agent/agent.go:329-341 | with such a quorum a suspect incident is confirmed and alerted, one already confirmed is left alone |
| Outcomes.UnresolvedIncidentIsResolvedByQuorum | internal/agent/agent.go:342-369 | without it an unresolved incident is resolved and announced exactly when the nodes whose newest results reach the recovery threshold carry the quorum |
| Outcomes.QuietMonitorStaysQuiet | internal/agent/agent.go:342-347 | without it and without an unresolved incident nothing is written or sent |
| Decisions.ReadErrorsOnlyDelay | internal/agent/agent.go:315-325 | on one snapshot, failing count queries never send what the error-free evaluation would not, for every overlapping rule |
| Decisions.FailingAndRecoveredAreDisjoint | internal/agent/agent.go:321-357 | failing and recovered nodes of one snapshot are disjoint |
| ReadErrors.ErrorsHarmlessIffRobust | internal/agent/agent.go:349-362 | for every rule and all thresholds from 1 up, read errors are harmless on all logs if and only if any two quorums overlap, a threshold is above the LIMIT, or the rule needs no node |
| ReadErrors.FailedCountsOnlyDelay | internal/agent/agent.go:315-362 | under that condition single store calls through one evaluation, with any counts failing and the clock running, send nothing, or the notice the error-free evaluation sends, to at most fewer confirming nodes |
| Flapping.FailedReadsAloneRecover | internal/agent/agent.go:315-320 | for every rule whose quorums need not overlap, a run from a fresh store in which only failure counts fail and no result arrives sends an alert and then its recovery, though the error-free evaluation would have left the alerted books alone |
| Flapping.Completes | internal/agent/agent.go:311-370 | from its first count an evaluation can be run to its end whatever set of counts fails |
| Decisions.SecondPassIsSilent | internal/agent/agent.go:288-309 | a second pass over unchanged results, the same online nodes and monitors in any order, with any later times and ids, creates, writes and sends nothing |
| Decisions.PassIsPointwise | internal/agent/agent.go:306-308 | a pass, each monitor with its own id and clock readings, gives each monitor the incidents and notices that evaluating it alone would have given, and leaves monitors not listed alone |
| Decisions.MonitorOrderIsIrrelevant | internal/agent/agent.go:306-308 | passes over the same monitors in any two orders end in the same incident table and the same notices for every monitor |
| Ticks.QuietTickIsEvaluateAll | internal/agent/agent.go:288-309 | single store calls through all monitors, however ties are broken, while the clock runs and heartbeats and edits land, end exactly in the fold of the atomic evaluations |
| Ticks.CalmTickIsEvaluateAll | internal/agent/agent.go:288-309 | any history of one whole tick without arrivals, crashes and failed calls is that fold, over an enabled list and an online list of tables it met, with fresh distinct ids and its own clock readings |
| Ticks.SecondTickIsSilent | internal/agent/agent.go:288-309 | of two consecutive ticks over unchanged results, with the same monitors enabled and the same nodes online, while the clock runs and heartbeats land, the second writes and sends nothing |
| Ticks.ListOrderIsIrrelevant | internal/store/sqlite.go:186-206 | ticks that differ in the order of the monitor list end in the same incidents and the same notices for every monitor |
| Decisions.EvaluationIgnoresDelivery | internal/api/peer_handlers.go:212-226 | the same results in any arrival order lead to the same incidents, evidence and notifications |
| Store.EncodingIsBijective | internal/store/sqlite.go:579-619 | the NULL and bool columns encode monitors bijectively onto canonical rows |
| Store.EncodedColumns | internal/store/sqlite.go:104-119 | column by column: zero values are NULL, the flag is 0 or 1, every other column holds its field |
| Store.SQLiteStore.CountConsecutiveFailures | internal/store/sqlite.go:253-277 | the loop answers the capped non-up streak of an answer the query may give |
| Store.SQLiteStore.CountConsecutiveSuccesses | internal/store/sqlite.go:279-303 | the same for up results |
| Store.SQLiteStore.GetActiveIncident | internal/store/sqlite.go:377-382 | finds the latest-created unresolved incident of a monitor, or none exactly when there is none |
| AgentRuntime.Agent.constructor | internal/agent/agent.go:35-58 | a coordinator on a store without incidents starts idle in an initial state of the machine |
| AgentRuntime.Agent.Restart | internal/agent/agent.go:35-58 | a coordinator restarted on the store another one left, wherever in its loop that was killed, continues its run: crash, time passes, idle |
| AgentRuntime.Agent.Environment | internal/api/peer_handlers.go:212-226 | any number of arrivals and table changes leaves incidents, evidence, notices and the loop's position alone |
| AgentRuntime.Agent.GetOrCreateIncident | internal/consensus/incident.go:23-48 | answers the monitor's unresolved incident or, when it has none, inserts a suspect one whose start, creation and update times are the current clock; else an error and no change |
| AgentRuntime.Agent.ConfirmIncident | internal/consensus/incident.go:51-61 | replaces the row by itself with status confirmed, the current time and the nodes counted, or changes nothing after an error |
| AgentRuntime.Agent.ResolveIncident | internal/consensus/incident.go:64-72 | replaces the row by itself with status resolved and the current time, or changes nothing after an error |
| AgentRuntime.Agent.EvaluateMonitorConsensus | internal/agent/agent.go:311-346 | the loops are a run of the machine from the first count of a monitor to the next monitor |
| AgentRuntime.Agent.CountFailing | internal/agent/agent.go:312-327 | the loop counts and lists exactly the nodes the machine noted, skipping failed queries |
| AgentRuntime.Agent.CountRecovered | internal/agent/agent.go:349-360 | the same for the recovery count |
| AgentRuntime.Agent.RecoverMonitor | internal/agent/agent.go:347-369 | the recovery branch is a run of the machine from its lookup to the next monitor |
| AgentRuntime.Agent.EvaluateConsensus | internal/agent/agent.go:288-309 | exactly one tick of the machine; the real incident table keeps one open incident per monitor and only evolves forward, nothing is announced twice; if no call failed and no result arrived meanwhile, incidents, evidence and notices are those of the fold of atomic evaluations, with fresh ids |
| AgentRuntime.Agent.ConsensusLoop | internal/agent/agent.go:274-286 | any number of ticks, exactly one per round; of any two consecutive ones over unchanged results, enabled monitors and online nodes the second changes no incident and sends nothing |
| Merging.MergeIsOverride | internal/agent/agent.go:233-250 | a sync overrides each sent key by the last row sent, up to what an update keeps, and leaves other rows untouched |
| Merging.MergeIsIdempotent | internal/agent/agent.go:233-268 | applying the same sync again changes nothing |
| Merging.NeverInventsIffMixingClosed | internal/api/peer_handlers.go:55-71 | over any number of syncs in any order a node holds only versions the coordinator once held, if and only if updates cannot mix two versions into a third |
| ConfigSync.SyncedMonitorReadsBack | internal/store/sqlite.go:163-179 | a synced monitor reads back as last sent, through the NULL and bool columns, with the creation time of the row already there or, for a new id, of the one first sent; a new monitor sent once reads back exactly as sent |
| ConfigSync.SyncedNodeReadsBack | internal/store/sqlite.go:86-92 | a synced node has every column of the node last sent under its id, with the creation time of the row already there or of the one first sent; a node not sent is as before |
| ConfigSync.FixedCreationTimesNeverInvent | internal/store/sqlite.go:163-179 | fixed creation times per id are enough for provenance |
| ConfigSync.Peer.ApplyConfigSync | internal/agent/agent.go:233-271 | the pull copy merges exactly the rows whose two calls succeed, in the order sent |
| ConfigSync.AllSurvive | internal/agent/agent.go:233-268 | without an error those are all rows |
| ConfigSync.SurvivorPlaces | internal/agent/agent.go:233-268 | exactly the rows neither of whose calls fails are merged, once each and in the order sent: an error skips one row, not the rest |
| ConfigSync.Peer.HandlePeerConfigSync | internal/api/peer_handlers.go:47-94 | the push copy merges the same, and answers 400 without effect for a body that does not parse |
| Interleaving.LoopsAreSerializable | internal/agent/agent.go:233-250 | pull and push loops whose lookups and writes interleave, with any calls failing, leave the merge of the rows whose writes took effect; a row takes effect if and only if no other loop inserted it since its lookup |
| Interleaving.RowTakesEffectUnlessOvertaken | internal/agent/agent.go:233-250 | a row looked up and later written, with other loops moving in between, overrides what is there unless it was missing at the lookup and is there at the write; either way the loop goes on |
| Interleaving.SyncIsHandledWhole | internal/api/peer_handlers.go:55-71 | a loop handles the rows of its sync in order, each by exactly one write or one failed call, and skips none |
| Interleaving.NeverInventsInterleavedIffMixingClosed | internal/api/peer_handlers.go:55-71 | provenance survives that interleaving under exactly the same condition |
| Interleaving.OvertakenVersionIsLost | internal/store/sqlite.go:104-119 | a run in which a later version is lost to a primary-key conflict |
| Membership.DetectionIsSound | internal/cluster/cluster.go:49-65 | after a pass with heartbeats and joins landing anywhere, an online node last seen before the cutoff is one whose update failed, and no node fresh in the snapshot was taken offline |
| Membership.UnhitRowAfterPass | internal/cluster/cluster.go:49-65 | of the rows that no landing hits, exactly the online ones last seen before the cutoff whose update succeeds go offline, keeping every other column; all others, offline and suspect ones included, are exactly as before |
| Membership.StaleNodeSurvivesIffItReportsAfterItsTurn | internal/cluster/cluster.go:55-62 | a node stale in the snapshot ends online if and only if a heartbeat landed after its own update; otherwise it is the snapshot row gone offline |
| Membership.Manager.DetectOfflineNodes | internal/cluster/cluster.go:49-65 | the loop computes the pass the two theorems are about, for every schedule of landings and every set of failing updates |
| JoinTokens.TokensAreConserved | internal/api/peer_handlers.go:109-171 | over any interleaving of issuing, joining and node edits each token is answered true at most once and before expiry; used rows equal true answers if and only if no call lost the answer to a token then valid; nodes created by joins never exceed true answers or used tokens |
| JoinTokens.NodesHaveOwnTokens | internal/api/peer_handlers.go:109-171 | two nodes created by joins go back to two different used tokens |
| JoinTokens.FirstTimelyPresentationSpends | internal/store/sqlite.go:421-442 | a token issued with an expiry is spent by the first request that presents it before that time, and by no other |
| JoinTokens.AdmittedRequestCreatesNode | internal/api/peer_handlers.go:150-171 | the last step of an admitted request creates its node under an id not yet taken unless it fails, and ends the request; on one that is over it has no effect |
| JoinTokens.UsedTokensStayUsed | internal/store/sqlite.go:429-442 | a consumed token never changes again |
| JoinTokens.TokenStore.ValidateAndConsumeToken | internal/store/sqlite.go:429-442 | answers true exactly for an unused, unexpired token and marks it used in the same step; an error after the update spends the token without an answer |
| Scheduling.SyncTracksEnabledSet | internal/agent/scheduler.go:41-59 | after a sync exactly the input ids are tracked, survivors keep their loop and the others are cancelled |
| Scheduling.NoLoopLeaks | internal/agent/scheduler.go:41-96 | over any sequence of syncs and stops the uncancelled loops are exactly the current entries, one per monitor, and none after a stop |
| Scheduling.Scheduler.SyncMonitors | internal/agent/scheduler.go:41-59 | the three maps follow the specification; surviving monitors keep ticker and running flag |
| Scheduling.NewTickerInterval | internal/agent/scheduler.go:71-75 | a monitor without a ticker gets one with the interval of its first entry in the list, at least a second; the others keep theirs |
| Scheduling.Scheduler.BeginCheck | internal/agent/scheduler.go:112-121 | admits the check exactly when the flag is not set, and sets it |
| Scheduling.Scheduler.EndCheck | internal/agent/scheduler.go:123-127 | clears the flag and nothing else |
| Scheduling.Scheduler.Stop | internal/agent/scheduler.go:62-69 | both maps are empty and every loop ever started is cancelled |
| Scheduling.Scheduler.StartMonitor | internal/agent/scheduler.go:71-84 | one loop with a ticker of at least one second |
| Scheduling.Scheduler.StopMonitor | internal/agent/scheduler.go:86-96 | stops ticker and loop together and deletes the running flag |
| Scheduling.FlagExactIffNoStopInFlight | internal/agent/scheduler.go:112-127 | for each monitor and any interleaving of checks and stops of all monitors: its flag is true just when a check of it is in flight, at every moment, if and only if no stop of it hit an in-flight check of it |
| Scheduling.AtMostOneCheckInFlight | internal/agent/scheduler.go:112-127 | under that condition at most one check of the monitor is past the guard |
| Scheduling.AdmittedIffNoneInFlight | internal/agent/scheduler.go:112-127 | under that condition a check is admitted exactly when no check of its monitor is in flight: a finished check never bars a later one |
| Scheduling.ExclusiveIffNoStopInFlight | internal/agent/scheduler.go:86-127 | a monitor never has, nor can get, two checks past the guard if and only if no stop of it hit an in-flight check of it |
| Scheduling.StopInFlightAdmitsSecondCheck | internal/agent/scheduler.go:86-96 | a stop during a check lets a second one run beside it |
| Scheduling.CheckWithRetries | internal/agent/scheduler.go:143-168 | at least one attempt and at most `retries` are made; the result is up exactly when one of the first `retries` (or the only) attempts was, else that of the last attempt; no attempt follows an up |
| LogBuf.MessagesAreRuns | internal/logbuf/logbuf.go:33-52 | stored messages are exactly the non-empty maximal newline-free runs of the input, in order |
| LogBuf.MessagesAreCutAtTens | internal/logbuf/logbuf.go:33-52 | three clauses that determine what is stored: nothing for no bytes, one message for a stretch without the byte 10, and at a byte 10 the messages of what stands before and of what follows |
| LogBuf.SplittingIsHomomorphic | internal/logbuf/logbuf.go:33-52 | a newline-terminated write followed by another stores what one write of both stores |
| LogBuf.WithoutNewlineLinesJoin | internal/logbuf/logbuf.go:33-52 | without that newline the two writes store different messages |
| LogBuf.Buffer.Write | internal/logbuf/logbuf.go:33-52 | extends the history by the messages of the input, stamped, and keeps the ring |
| LogBuf.Buffer.Last | internal/logbuf/logbuf.go:55-81 | the last min(n, capacity, total) entries ever written, oldest first, across wrap-around |
| Store.SQLiteStore.InsertCheckResult | internal/store/sqlite.go:210-222 | appends one row exactly when there is no fault and the monitor and node exist, else nothing |
| Store.SQLiteStore.CreateIncident | internal/store/sqlite.go:358-368 | inserts one row exactly when there is no fault, no key conflict and the monitor exists, else nothing |
| Store.SQLiteStore.UpdateIncident | internal/store/sqlite.go:384-393 | updates the mutable columns of one row or nothing |
| Store.SQLiteStore.GetOnlineNodes | internal/cluster/cluster.go:28-40 | every online node once and nothing else |
| Store.SQLiteStore.ListEnabledMonitors | internal/store/sqlite.go:186-206 | every enabled monitor once and nothing else |
| Store.SQLiteStore.CreateMonitor | internal/store/sqlite.go:104-119 | inserts the encoded row exactly when there is no fault and the key is fresh, else nothing |
| Store.SQLiteStore.UpdateMonitor | internal/store/sqlite.go:163-179 | overrides every column but the key and the creation time |
| Store.SQLiteStore.CreateNode | internal/store/sqlite.go:44-51 | inserts the row exactly when there is no fault and the key is fresh, else nothing |
| Store.SQLiteStore.UpdateNode | internal/store/sqlite.go:86-92 | overrides every column but the key and the creation time |
| Store.SQLiteStore.UpdateNodeStatus | internal/store/sqlite.go:99-102 | sets status and last-seen of an existing node only |
| Membership.Manager.UpdateHeartbeat | internal/cluster/cluster.go:43-45 | marks an existing node online and seen |
| JoinTokens.TokenStore.StoreJoinToken | internal/store/sqlite.go:421-427 | inserts an unused token exactly when there is no fault and the hash is fresh, else nothing |

## Left out

- Checkers, HTTP handlers' encoding, SMTP and webhook delivery, TLS and certificates: foreign calls. A check is an arbitrary status, a notification an entry of the trace.
- Alert channels and alert history: delivery is asynchronous and changes nothing the engine reads.
- UUIDs, hashes, JSON and SQL text: ids are arbitrary and a repeated one is a primary-key error; tables are maps and sequences.
- Incident rows are stored as structs: their NULL times and JSON node list are not encoded separately from the monitor columns shown.
- Cooldown: stored but never read by the consensus code, so nothing is claimed about a minimum time between alerts.
- Deletion in config sync: the merge never deletes and ignores the version, so no equality with the coordinator's table is claimed. Rows deleted by hand while a sync runs are not interleaved with it.
- Liveness, goroutine fairness and ticker timing: steps are nondeterministic and the clock is logical and monotone.
- AgentRuntime.Agent.Environment: a crash cannot be written inside a Dafny method; crashes between any two calls are events of the machine, and Restart continues after one.
- AgentRuntime.Agent.EvaluateConsensus: with results landing or calls failing during the tick its contract fixes the machine it follows, not one decision, because the decision then depends on what landed when.
- Store.SQLiteStore.GetOnlineNodes: joins ListNodes and the status filter of the cluster manager in one call, since only the ids are used, and leaves the order by created_at open; SecondPassIsSilent holds for every order.
- Store.SQLiteStore.ListEnabledMonitors: leaves the order by name open; MonitorOrderIsIrrelevant says why this is harmless.
- Membership.Manager.DetectOfflineNodes: heartbeats and joins are given as a schedule, so that the outcome can be stated exactly; other writers of the node table are not interleaved.
- LogBuf.Buffer.Last: negative n is not modelled; the handler only passes positive numbers and Go would panic.
- Partial monitor edits, default filling and the CLI: branch-by-branch facts.
