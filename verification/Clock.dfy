/** Every time an incident carries is what the clock said when the event it names happened. */
module Clock {
  import opened Model
  import opened Protocol
  import opened Incidents

  /** The states of a run, from the first to the last. */
  ghost function States(s0: State, es: seq<Event>): (hs: seq<State>)
    ensures |hs| == |es| + 1
  {
    if es == [] then [s0] else States(s0, es[..|es| - 1]) + [Run(s0, es)]
  }

  lemma {:induction false} StatesAre(s0: State, es: seq<Event>, n: nat)
    requires n <= |es|
    ensures States(s0, es)[n] == Run(s0, es[..n])
  {
    if n == |es| {
      assert es[..n] == es;
    } else {
      StatesAre(s0, es[..|es| - 1], n);
      assert es[..|es| - 1][..n] == es[..n];
    }
  }

  /** Between states n and n + 1 the row was inserted, at the time it starts and was created. */
  ghost predicate Born(hs: seq<State>, i: Incident, n: nat) {
    && n + 1 < |hs|
    && i.id !in hs[n].incidents && i.id in hs[n + 1].incidents
    && i.startedAt == hs[n].now && i.createdAt == hs[n].now
  }

  /** Between states n and n + 1 a confirming (or resolving) verdict on the row was recorded, at time t. */
  ghost predicate Judged(hs: seq<State>, id: string, up: bool, t: int, n: nat) {
    && n + 1 < |hs| && t == hs[n].now
    && |hs[n + 1].verdicts| == |hs[n].verdicts| + 1
    && hs[n + 1].verdicts[|hs[n].verdicts|].id == id && hs[n + 1].verdicts[|hs[n].verdicts|].up == up
  }

  ghost predicate HasBirth(hs: seq<State>, i: Incident) {
    exists n: nat :: Born(hs, i, n)
  }

  ghost predicate HasVerdict(hs: seq<State>, id: string, up: bool, t: int) {
    exists n: nat :: Judged(hs, id, up, t, n)
  }

  /** The times of one row, as far as they are set. */
  ghost predicate Timed(hs: seq<State>, i: Incident) {
    && HasBirth(hs, i)
    && (i.confirmedAt != 0 ==> HasVerdict(hs, i.id, false, i.confirmedAt))
    && (i.status.Resolved? ==> HasVerdict(hs, i.id, true, i.resolvedAt))
  }

  ghost predicate AllTimed(hs: seq<State>)
    requires hs != []
  {
    var rows := hs[|hs| - 1].incidents;
    forall k :: k in rows ==> Timed(hs, rows[k])
  }

  lemma BirthStays(hs: seq<State>, t: State, i: Incident, j: Incident)
    requires HasBirth(hs, i) && j.id == i.id && j.startedAt == i.startedAt && j.createdAt == i.createdAt
    ensures HasBirth(hs + [t], j)
  {
    var n: nat :| Born(hs, i, n);
    assert Born(hs + [t], j, n);
  }

  lemma VerdictStays(hs: seq<State>, t: State, id: string, up: bool, at: int)
    requires HasVerdict(hs, id, up, at)
    ensures HasVerdict(hs + [t], id, up, at)
  {
    var n: nat :| Judged(hs, id, up, at, n);
    assert Judged(hs + [t], id, up, at, n);
  }

  /** A row the event leaves as it was. */
  lemma RowStays(hs: seq<State>, t: State, i: Incident)
    requires Timed(hs, i)
    ensures Timed(hs + [t], i)
  {
    BirthStays(hs, t, i, i);
    if i.confirmedAt != 0 { VerdictStays(hs, t, i.id, false, i.confirmedAt); }
    if i.status.Resolved? { VerdictStays(hs, t, i.id, true, i.resolvedAt); }
  }

  /** The verdict the last event records. */
  lemma JudgedNow(hs: seq<State>, t: State, v: Verdict)
    requires hs != [] && t.verdicts == hs[|hs| - 1].verdicts + [v]
    ensures HasVerdict(hs + [t], v.id, v.up, hs[|hs| - 1].now)
  {
    assert Judged(hs + [t], v.id, v.up, hs[|hs| - 1].now, |hs| - 1);
  }

  /** The row that the last event confirms or resolves. */
  lemma RowWritten(hs: seq<State>, t: State, i: Incident, j: Incident, v: Verdict, nodes: seq<string>)
    requires hs != [] && Timed(hs, i) && t.verdicts == hs[|hs| - 1].verdicts + [v] && v.id == i.id
    requires !v.up ==> !i.status.Resolved?
    requires j == if v.up then ResolvedIncident(i, hs[|hs| - 1].now) else ConfirmedIncident(i, nodes, hs[|hs| - 1].now)
    ensures Timed(hs + [t], j)
  {
    BirthStays(hs, t, i, j);
    JudgedNow(hs, t, v);
    if v.up && i.confirmedAt != 0 { VerdictStays(hs, t, i.id, false, i.confirmedAt); }
  }

  /** The row that the last event inserts. */
  lemma RowInserted(hs: seq<State>, t: State, i: Incident)
    requires hs != [] && i.id !in hs[|hs| - 1].incidents && i.id in t.incidents
    requires i == Incident(i.id, i.monitorID, Suspect, hs[|hs| - 1].now, 0, 0, [], hs[|hs| - 1].now, hs[|hs| - 1].now)
    ensures Timed(hs + [t], i)
  {
    assert Born(hs + [t], i, |hs| - 1);
  }

  /** What the two updates write and record. */
  lemma WriteResult(s: State) returns (v: Verdict)
    requires TableOK(s) && (s.pc.Confirming? || s.pc.Resolving?)
    ensures WriteStep(s).verdicts == s.verdicts + [v] && v.id == s.pc.inc.id && v.up == s.pc.Resolving?
    ensures s.pc.inc.id in s.incidents && s.incidents[s.pc.inc.id] == s.pc.inc && s.pc.inc.id in WriteStep(s).incidents
    ensures !v.up ==> !s.pc.inc.status.Resolved?
    ensures WriteStep(s).incidents[s.pc.inc.id]
         == if v.up then ResolvedIncident(s.pc.inc, s.now) else ConfirmedIncident(s.pc.inc, Nodes(s.pc.seen), s.now)
  {
    v := Verdict(s.pc.Resolving?, s.pc.inc.id, s.pc.job.mon, s.pc.job.online, s.pc.seen);
  }

  /** Inserted rows are suspect, and nothing but their start is set. */
  lemma InsertedRow(s: State, k: string)
    requires s.pc.Creating? && k !in s.incidents
    ensures k in CreateStep(s, FreshID(k)).incidents
    ensures CreateStep(s, FreshID(k)).incidents[k]
         == Incident(k, s.pc.job.mon.id, Suspect, s.now, 0, 0, [], s.now, s.now)
  {
  }

  /** A row of the next table is a row of this one, the row a write changed, or the row inserted. */
  lemma RowSources(s: State, e: Event, k: string)
    requires TableOK(s) && k in Step(s, e).incidents
    ensures
      || (k in s.incidents && Step(s, e).incidents[k] == s.incidents[k])
      || ((s.pc.Confirming? || s.pc.Resolving?) && Step(s, e) == WriteStep(s) && k == s.pc.inc.id)
      || (s.pc.Creating? && Step(s, e) == CreateStep(s, FreshID(k)) && k !in s.incidents)
  {
    OnlyWritersChangeTable(s, e);
  }

  lemma RowStep(hs: seq<State>, s: State, e: Event, k: string)
    requires hs != [] && hs[|hs| - 1] == s && TableOK(s) && AllTimed(hs) && k in Step(s, e).incidents
    ensures Timed(hs + [Step(s, e)], Step(s, e).incidents[k])
  {
    var t := Step(s, e);
    RowSources(s, e, k);
    if k in s.incidents && t.incidents[k] == s.incidents[k] {
      RowStays(hs, t, s.incidents[k]);
    } else if s.pc.Creating? {
      InsertedRow(s, k);
      RowInserted(hs, t, t.incidents[k]);
    } else {
      var v := WriteResult(s);
      RowWritten(hs, t, s.pc.inc, t.incidents[k], v, Nodes(s.pc.seen));
    }
  }

  lemma {:induction false} StatesTimed(s0: State, es: seq<Event>)
    requires Init(s0)
    ensures States(s0, es)[|es|] == Run(s0, es) && AllTimed(States(s0, es))
  {
    if es != [] {
      var init, e := es[..|es| - 1], es[|es| - 1];
      TableRun(s0, init);
      StatesTimed(s0, init);
      forall k | k in Run(s0, es).incidents ensures Timed(States(s0, es), Run(s0, es).incidents[k]) {
        RowStep(States(s0, init), Run(s0, init), e, k);
      }
    }
  }

  /**
   In every run, each row was inserted by one event, at the clock of which it starts; confirmedAt and resolvedAt,
   once set, are the clock at the event that recorded the confirming and the resolving verdict.
   */
  lemma TimesAreClockReadings(s0: State, es: seq<Event>, k: string) returns (n: nat, c: nat, r: nat)
    requires Init(s0) && k in Run(s0, es).incidents
    ensures n < |es| && k !in Run(s0, es[..n]).incidents && k in Run(s0, es[..n + 1]).incidents
    ensures var i := Run(s0, es).incidents[k]; i.startedAt == i.createdAt == Run(s0, es[..n]).now
    ensures Run(s0, es).incidents[k].confirmedAt != 0 ==>
      && c < |es| && Run(s0, es).incidents[k].confirmedAt == Run(s0, es[..c]).now
      && Judged(States(s0, es), k, false, Run(s0, es).incidents[k].confirmedAt, c)
    ensures Run(s0, es).incidents[k].status.Resolved? ==>
      && r < |es| && Run(s0, es).incidents[k].resolvedAt == Run(s0, es[..r]).now
      && Judged(States(s0, es), k, true, Run(s0, es).incidents[k].resolvedAt, r)
  {
    var hs, i := States(s0, es), Run(s0, es).incidents[k];
    StatesTimed(s0, es);
    TableRun(s0, es);
    assert Timed(hs, i) && i.id == k;
    n :| Born(hs, i, n);
    StatesAre(s0, es, n);
    StatesAre(s0, es, n + 1);
    c, r := 0, 0;
    if i.confirmedAt != 0 {
      c :| Judged(hs, k, false, i.confirmedAt, c);
      StatesAre(s0, es, c);
    }
    if i.status.Resolved? {
      r :| Judged(hs, k, true, i.resolvedAt, r);
      StatesAre(s0, es, r);
    }
  }

  // ---------- the reported duration ----------

  /** buildIncidentDetail: the duration reported for a resolved incident. */
  function DurationSec(i: Incident): int {
    (i.resolvedAt - i.startedAt) / 1000
  }

  /**
   The duration reported for a resolved incident is not negative: it is the time in whole seconds that the clock
   advanced between the event n that inserted it and the event r that resolved it.
   */
  lemma DurationIsElapsedTime(s0: State, es: seq<Event>, k: string) returns (n: nat, r: nat)
    requires Init(s0) && k in Run(s0, es).incidents && Run(s0, es).incidents[k].status.Resolved?
    ensures n < |es| && k !in Run(s0, es[..n]).incidents && k in Run(s0, es[..n + 1]).incidents
    ensures r < |es| && Judged(States(s0, es), k, true, Run(s0, es).incidents[k].resolvedAt, r)
    ensures var d := DurationSec(Run(s0, es).incidents[k]);
      0 <= d && 1000 * d <= Run(s0, es[..r]).now - Run(s0, es[..n]).now < 1000 * d + 1000
  {
    var c;
    n, c, r := TimesAreClockReadings(s0, es, k);
    TableRun(s0, es);
  }
}
