/**
 Config sync. A synced list is merged into a local table row by row: an existing row takes every column
 but its creation time, a missing row is inserted. The theory is proved once for any such table; the
 pull copy (agent.go) and the push copy (peer_handlers.go) of the loop are proved against it.
 */
module Merging {

  /** How a table files its rows and what an update keeps of the row already there. */
  datatype Table<!T> = Table(key: T -> string, keep: (T, T) -> T)

  ghost predicate Lawful<T(!new)>(d: Table<T>) {
    && (forall o: T, n: T :: d.key(d.keep(o, n)) == d.key(n))
    && (forall o: T, n: T, p: T :: d.keep(d.keep(o, n), p) == d.keep(o, p))
    && (forall n: T :: d.keep(n, n) == n)
  }

  function Upsert<T>(d: Table<T>, t: map<string, T>, r: T): map<string, T> {
    if d.key(r) in t then t[d.key(r) := d.keep(t[d.key(r)], r)] else t[d.key(r) := r]
  }

  function Merge<T>(d: Table<T>, t: map<string, T>, rows: seq<T>): map<string, T> {
    if rows == [] then t else Upsert(d, Merge(d, t, rows[..|rows| - 1]), rows[|rows| - 1])
  }

  /** The last row sent under k, if any. */
  function Sent<T>(d: Table<T>, rows: seq<T>, k: string): seq<T> {
    if rows == [] then []
    else if d.key(rows[|rows| - 1]) == k then [rows[|rows| - 1]]
    else Sent(d, rows[..|rows| - 1], k)
  }

  function First<T>(d: Table<T>, rows: seq<T>, k: string): seq<T> {
    if rows == [] then [] else if d.key(rows[0]) == k then [rows[0]] else First(d, rows[1..], k)
  }

  lemma {:induction false} FirstAt<T>(d: Table<T>, rows: seq<T>, k: string, f: nat)
    requires f < |rows| && d.key(rows[f]) == k && forall j :: 0 <= j < f ==> d.key(rows[j]) != k
    ensures First(d, rows, k) == [rows[f]]
  {
    if f > 0 { FirstAt(d, rows[1..], k, f - 1); }
  }

  /**
   Existing rows are overridden by the last row sent under their key, up to what an update keeps; the rest is
   untouched.
   */
  lemma {:induction false} MergeIsOverride<T(!new)>(d: Table<T>, t: map<string, T>, rows: seq<T>, k: string)
    requires Lawful(d)
    ensures Sent(d, rows, k) == [] ==> (k in Merge(d, t, rows) <==> k in t) && (k in t ==> Merge(d, t, rows)[k] == t[k])
    ensures Sent(d, rows, k) != [] ==> k in Merge(d, t, rows)
    ensures Sent(d, rows, k) != [] && k in t ==> Merge(d, t, rows)[k] == d.keep(t[k], Sent(d, rows, k)[0])
    ensures Sent(d, rows, k) != [] && k !in t ==>
      First(d, rows, k) != [] && Merge(d, t, rows)[k] == d.keep(First(d, rows, k)[0], Sent(d, rows, k)[0])
  {
    if rows != [] {
      var init, last := rows[..|rows| - 1], rows[|rows| - 1];
      MergeIsOverride(d, t, init, k);
      FirstOfLonger(d, init, last, k);
      assert rows == init + [last];
    }
  }

  lemma {:induction false} FirstOfLonger<T>(d: Table<T>, rows: seq<T>, r: T, k: string)
    ensures First(d, rows + [r], k)
         == if First(d, rows, k) != [] then First(d, rows, k) else if d.key(r) == k then [r] else []
    ensures First(d, rows, k) == [] <==> Sent(d, rows, k) == []
  {
    if rows == [] {
      assert [r][1..] == [];
    } else {
      assert (rows + [r])[1..] == rows[1..] + [r];
      FirstOfLonger(d, rows[1..], r, k);
      SentAfterHead(d, rows, k);
    }
  }

  lemma {:induction false} SentAfterHead<T>(d: Table<T>, rows: seq<T>, k: string)
    requires rows != []
    ensures Sent(d, rows, k)
         == if Sent(d, rows[1..], k) != [] then Sent(d, rows[1..], k) else if d.key(rows[0]) == k then [rows[0]] else []
  {
    if |rows| > 1 {
      assert rows[..|rows| - 1][1..] == rows[1..][..|rows| - 2];
      SentAfterHead(d, rows[..|rows| - 1], k);
    }
  }

  /** The places of the first and the last row sent under k; -1 when there is none. */
  lemma {:induction false} SentPlaces<T>(d: Table<T>, rows: seq<T>, k: string) returns (i: int, f: int)
    ensures i == f == -1 || (0 <= f <= i < |rows| && d.key(rows[i]) == k == d.key(rows[f]))
    ensures forall j :: 0 <= j < |rows| && (j < f || j > i) ==> d.key(rows[j]) != k
    ensures if i == -1 then Sent(d, rows, k) == [] else Sent(d, rows, k) == [rows[i]] && First(d, rows, k) == [rows[f]]
  {
    if rows == [] {
      i, f := -1, -1;
    } else {
      var n := |rows| - 1;
      i, f := SentPlaces(d, rows[..n], k);
      if d.key(rows[n]) == k { i, f := n, if f == -1 then n else f; }
      if f >= 0 { FirstAt(d, rows, k, f); }
    }
  }

  /** Applying the same sync again changes nothing. */
  lemma MergeIsIdempotent<T(!new)>(d: Table<T>, t: map<string, T>, rows: seq<T>)
    requires Lawful(d)
    ensures Merge(d, Merge(d, t, rows), rows) == Merge(d, t, rows)
  {
    var u := Merge(d, t, rows);
    forall k ensures (k in Merge(d, u, rows) <==> k in u) && (k in u ==> Merge(d, u, rows)[k] == u[k]) {
      MergeIsOverride(d, t, rows, k);
      MergeIsOverride(d, u, rows, k);
    }
  }

  // ---------- provenance over any number of syncs ----------

  /** Any number of syncs, in any order, each sending versions the coordinator once held. */
  function Syncs<T>(d: Table<T>, t: map<string, T>, syncs: seq<seq<T>>): map<string, T> {
    if syncs == [] then t else Merge(d, Syncs(d, t, syncs[..|syncs| - 1]), syncs[|syncs| - 1])
  }

  ghost predicate SentFrom<T(!new)>(held: iset<T>, syncs: seq<seq<T>>) {
    forall i, j :: 0 <= i < |syncs| && 0 <= j < |syncs[i]| ==> syncs[i][j] in held
  }

  /**
   What an update keeps never makes a row the coordinator did not hold: in particular when creation times never
   change.
   */
  ghost predicate MixingClosed<T(!new)>(d: Table<T>, held: iset<T>) {
    forall v, w :: v in held && w in held && d.key(v) == d.key(w) ==> d.keep(v, w) in held
  }

  ghost predicate AllHeld<T(!new)>(d: Table<T>, held: iset<T>, t: map<string, T>) {
    forall k :: k in t ==> t[k] in held && d.key(t[k]) == k
  }

  lemma {:induction false} MergeKeepsHeld<T(!new)>(d: Table<T>, held: iset<T>, t: map<string, T>, rows: seq<T>)
    requires Lawful(d) && MixingClosed(d, held) && AllHeld(d, held, t) && forall j ::
      0 <= j < |rows| ==> rows[j] in held
    ensures AllHeld(d, held, Merge(d, t, rows))
  {
    if rows != [] { MergeKeepsHeld(d, held, t, rows[..|rows| - 1]); }
  }

  lemma {:induction false} SyncsKeepHeld<T(!new)>(d: Table<T>, held: iset<T>, syncs: seq<seq<T>>)
    requires Lawful(d) && MixingClosed(d, held) && SentFrom(held, syncs)
    ensures AllHeld(d, held, Syncs(d, map[], syncs))
  {
    if syncs != [] {
      var n := |syncs| - 1;
      assert forall i :: 0 <= i < n ==> syncs[..n][i] == syncs[i];
      SyncsKeepHeld(d, held, syncs[..n]);
      MergeKeepsHeld(d, held, Syncs(d, map[], syncs[..n]), syncs[n]);
    }
  }

  lemma MergeSnoc<T>(d: Table<T>, t: map<string, T>, rows: seq<T>, r: T)
    ensures Merge(d, t, rows + [r]) == Upsert(d, Merge(d, t, rows), r)
  {
    assert (rows + [r])[..|rows|] == rows;
  }

  lemma MergeOne<T>(d: Table<T>, t: map<string, T>, r: T)
    ensures Merge(d, t, [r]) == Upsert(d, t, r)
  {
    assert [r][..0] == [];
  }

  ghost predicate NeverInvents<T(!new)>(d: Table<T>, held: iset<T>) {
    forall syncs: seq<seq<T>> :: SentFrom(held, syncs) ==> AllHeld(d, held, Syncs(d, map[], syncs))
  }

  /**
   Provenance: a node that only ever syncs holds nothing but versions the coordinator once held - exactly
   when updates cannot mix two versions into a third.
   */
  lemma NeverInventsIffMixingClosed<T(!new)>(d: Table<T>, held: iset<T>)
    requires Lawful(d)
    ensures NeverInvents(d, held) <==> MixingClosed(d, held)
  {
    if MixingClosed(d, held) {
      forall syncs: seq<seq<T>> | SentFrom(held, syncs) ensures AllHeld(d, held, Syncs(d, map[], syncs)) {
        SyncsKeepHeld(d, held, syncs);
      }
    } else {
      var v, w :| v in held && w in held && d.key(v) == d.key(w) && d.keep(v, w) !in held;
      var syncs := [[v], [w]];
      assert SentFrom(held, syncs);
      MergeOne(d, map[], v);
      MergeOne(d, map[d.key(v) := v], w);
      assert syncs[..1] == [[v]] && [[v]][..0] == [];
      assert Syncs(d, map[], []) == map[];
      assert Syncs(d, map[], [[v]]) == map[d.key(v) := v];
      assert Syncs(d, map[], syncs)[d.key(v)] == d.keep(v, w);
    }
  }
}

module ConfigSync {
  import opened Model
  import opened Store
  import opened Merging

  datatype Sync = Sync(monitors: seq<Monitor>, nodes: seq<Node>)

  const MONITOR_TABLE: Table<MonitorRow> := Table(
    (r: MonitorRow) => r.id, (o: MonitorRow, n: MonitorRow) => n.(createdAt := o.createdAt))

  const NODE_TABLE: Table<Node> := Table((n: Node) => n.id, (o: Node, n: Node) => n.(createdAt := o.createdAt))

  function EncodeAll(ms: seq<Monitor>): (rows: seq<MonitorRow>)
    ensures |rows| == |ms| && forall i :: 0 <= i < |ms| ==> rows[i] == EncodeMonitor(ms[i])
  {
    seq(|ms|, i requires 0 <= i < |ms| => EncodeMonitor(ms[i]))
  }

  lemma TablesAreLawful()
    ensures Lawful(MONITOR_TABLE) && Lawful(NODE_TABLE)
  {
  }

  /**
   What a reader of the local table gets after an error-free sync. An id that was not sent reads as before.
   An id that was sent reads as the monitor last sent under it (i), through the NULL and bool columns, except
   that the creation time is that of the row already there, or else of the monitor first sent under it (f).
   So a new monitor sent once reads back exactly as sent.
   */
  lemma SyncedMonitorReadsBack(t: map<string, MonitorRow>, ms: seq<Monitor>, k: string) returns (i: int, f: int)
    ensures i == f == -1 || (0 <= f <= i < |ms| && ms[i].id == k == ms[f].id)
    ensures forall j :: 0 <= j < |ms| && (j < f || j > i) ==> ms[j].id != k
    ensures i == -1 ==>
      && (k in Merge(MONITOR_TABLE, t, EncodeAll(ms)) <==> k in t)
      && (k in t ==> Merge(MONITOR_TABLE, t, EncodeAll(ms))[k] == t[k])
    ensures i >= 0 ==>
      && k in Merge(MONITOR_TABLE, t, EncodeAll(ms))
      && ScanMonitor(Merge(MONITOR_TABLE, t, EncodeAll(ms))[k])
         == ms[i].(createdAt := if k in t then t[k].createdAt else ms[f].createdAt)
      && (k !in t && i == f ==> ScanMonitor(Merge(MONITOR_TABLE, t, EncodeAll(ms))[k]) == ms[i])
  {
    TablesAreLawful();
    MergeIsOverride(MONITOR_TABLE, t, EncodeAll(ms), k);
    i, f := SentPlaces(MONITOR_TABLE, EncodeAll(ms), k);
    assert forall j :: 0 <= j < |ms| ==> MONITOR_TABLE.key(EncodeAll(ms)[j]) == ms[j].id;
    if i >= 0 { EncodingIsBijective(ms[i], EncodeMonitor(ms[i])); }
  }

  /**
   The same for nodes, column by column: an id that was not sent is as before; one that was sent has every column
   of the node last sent under it (i), and the creation time of the row already there, or else of the first (f).
   */
  lemma SyncedNodeReadsBack(t: map<string, Node>, ns: seq<Node>, k: string) returns (i: int, f: int)
    ensures i == f == -1 || (0 <= f <= i < |ns| && ns[i].id == k == ns[f].id)
    ensures forall j :: 0 <= j < |ns| && (j < f || j > i) ==> ns[j].id != k
    ensures i == -1 ==>
      && (k in Merge(NODE_TABLE, t, ns) <==> k in t)
      && (k in t ==> Merge(NODE_TABLE, t, ns)[k] == t[k])
    ensures i >= 0 ==>
      && k in Merge(NODE_TABLE, t, ns)
      && var got, sent := Merge(NODE_TABLE, t, ns)[k], ns[i];
         && got.id == k && got.name == sent.name && got.location == sent.location && got.address == sent.address
         && got.role == sent.role && got.status == sent.status && got.lastSeen == sent.lastSeen
         && got.createdAt == if k in t then t[k].createdAt else ns[f].createdAt
  {
    TablesAreLawful();
    MergeIsOverride(NODE_TABLE, t, ns, k);
    i, f := SentPlaces(NODE_TABLE, ns, k);
    assert forall j :: 0 <= j < |ns| ==> NODE_TABLE.key(ns[j]) == ns[j].id;
  }

  /** When the coordinator never changes a row's creation time, syncing never invents a row. */
  lemma FixedCreationTimesNeverInvent(held: iset<MonitorRow>)
    requires forall v, w :: v in held && w in held && v.id == w.id ==> v.createdAt == w.createdAt
    ensures NeverInvents(MONITOR_TABLE, held)
  {
    TablesAreLawful();
    forall v, w | v in held && w in held && MONITOR_TABLE.key(v) == MONITOR_TABLE.key(w)
      ensures MONITOR_TABLE.keep(v, w) in held
    {
      assert v.id == w.id && MONITOR_TABLE.keep(v, w) == w;
    }
    NeverInventsIffMixingClosed(MONITOR_TABLE, held);
  }

  // ---------- the two copies of the loop ----------

  /** Row i makes two calls, numbered 2i and 2i + 1; it is applied when neither fails. */
  function Survivors<T>(rows: seq<T>, faults: nat -> bool): seq<T> {
    if rows == [] then []
    else
      var i := |rows| - 1;
      Survivors(rows[..i], faults) + if faults(2 * i) || faults(2 * i + 1) then [] else [rows[i]]
  }

  /** Without an error that is the whole sync. */
  lemma {:induction false} AllSurvive<T>(rows: seq<T>, faults: nat -> bool)
    requires forall i: nat :: i < 2 * |rows| ==> !faults(i)
    ensures Survivors(rows, faults) == rows
  {
    if rows != [] {
      AllSurvive(rows[..|rows| - 1], faults);
      assert !faults(2 * (|rows| - 1)) && !faults(2 * (|rows| - 1) + 1);
    }
  }

  /** places are those of the rows neither of whose calls fails, in order, and list is what stands there. */
  ghost predicate Picks<T>(rows: seq<T>, faults: nat -> bool, list: seq<T>, places: seq<nat>) {
    && |list| == |places|
    && (forall x :: 0 <= x < |places| ==> places[x] < |rows| && list[x] == rows[places[x]])
    && (forall x, y :: 0 <= x < y < |places| ==> places[x] < places[y])
    && (forall i: nat :: i in places <==> i < |rows| && !faults(2 * i) && !faults(2 * i + 1))
  }

  lemma PicksSnoc<T>(rows: seq<T>, faults: nat -> bool, list: seq<T>, places: seq<nat>, r: T)
    requires Picks(rows, faults, list, places)
    ensures
      var n := |rows|;
      if faults(2 * n) || faults(2 * n + 1) then Picks(rows + [r], faults, list, places)
      else Picks(rows + [r], faults, list + [r], places + [n])
  {
    assert forall i :: 0 <= i < |rows| ==> (rows + [r])[i] == rows[i];
    assert forall x :: 0 <= x < |places| ==> places[x] in places;
  }

  /** Exactly the rows neither of whose calls fails survive, once each, in the order sent. */
  lemma {:induction false} SurvivorPlaces<T>(rows: seq<T>, faults: nat -> bool) returns (places: seq<nat>)
    ensures Picks(rows, faults, Survivors(rows, faults), places)
  {
    if rows == [] {
      places := [];
    } else {
      var n := |rows| - 1;
      places := SurvivorPlaces(rows[..n], faults);
      PicksSnoc(rows[..n], faults, Survivors(rows[..n], faults), places, rows[n]);
      assert rows[..n] + [rows[n]] == rows && Survivors(rows[..n], faults) + [] == Survivors(rows[..n], faults);
      if !faults(2 * n) && !faults(2 * n + 1) { places := places + [n]; }
    }
  }

  lemma MergeNext<T>(d: Table<T>, t: map<string, T>, rows: seq<T>, faults: nat -> bool, i: nat)
    requires i < |rows|
    ensures Merge(d, t, Survivors(rows[..i + 1], faults))
         == if faults(2 * i) || faults(2 * i + 1) then Merge(d, t, Survivors(rows[..i], faults))
            else Upsert(d, Merge(d, t, Survivors(rows[..i], faults)), rows[i])
  {
    assert rows[..i + 1][..i] == rows[..i];
    var before := Survivors(rows[..i], faults);
    assert before + [] == before;
    MergeSnoc(d, t, before, rows[i]);
  }

  class Peer {
    const db: SQLiteStore

    constructor (db: SQLiteStore)
      ensures this.db == db
    {
      this.db := db;
    }

    /** The two calls either loop makes for one row: look it up, then update or create. */
    method UpsertMonitor(readFault: bool, writeFault: bool, m: Monitor)
      requires db.Valid()
      modifies db`monitors
      ensures db.Valid()
      ensures db.monitors
           == if readFault || writeFault then old(db.monitors)
              else Upsert(MONITOR_TABLE, old(db.monitors), EncodeMonitor(m))
    {
      var ok, existing := db.GetMonitor(readFault, m.id);
      if !ok { return; }
      if existing.Some? {
        ok := db.UpdateMonitor(writeFault, m);
      } else {
        ok := db.CreateMonitor(writeFault, m);
      }
    }

    method UpsertNode(readFault: bool, writeFault: bool, n: Node)
      requires db.Valid()
      modifies db`nodes
      ensures db.Valid()
      ensures db.nodes == if readFault || writeFault then old(db.nodes) else Upsert(NODE_TABLE, old(db.nodes), n)
    {
      var ok, existing := db.GetNode(readFault, n.id);
      if !ok { return; }
      if existing.Some? {
        ok := db.UpdateNode(writeFault, n);
      } else {
        ok := db.CreateNode(writeFault, n);
      }
    }

    /**
     Agent.applyConfigSync, the pull copy: the rows whose calls succeed are merged in the order sent. Errors are
     logged and the loop goes on.
     */
    method ApplyConfigSync(sync: Sync, monitorFaults: nat -> bool, nodeFaults: nat -> bool)
      requires db.Valid()
      modifies db`monitors, db`nodes
      ensures db.Valid()
      ensures db.monitors == Merge(MONITOR_TABLE, old(db.monitors), Survivors(EncodeAll(sync.monitors), monitorFaults))
      ensures db.nodes == Merge(NODE_TABLE, old(db.nodes), Survivors(sync.nodes, nodeFaults))
    {
      ghost var rows := EncodeAll(sync.monitors);
      for i := 0 to |sync.monitors|
        invariant db.Valid() && db.nodes == old(db.nodes)
        invariant db.monitors == Merge(MONITOR_TABLE, old(db.monitors), Survivors(rows[..i], monitorFaults))
      {
        UpsertMonitor(monitorFaults(2 * i), monitorFaults(2 * i + 1), sync.monitors[i]);
        MergeNext(MONITOR_TABLE, old(db.monitors), rows, monitorFaults, i);
      }
      assert rows[..|rows|] == rows;
      ghost var merged := db.monitors;
      for i := 0 to |sync.nodes|
        invariant db.Valid() && db.monitors == merged
        invariant db.nodes == Merge(NODE_TABLE, old(db.nodes), Survivors(sync.nodes[..i], nodeFaults))
      {
        UpsertNode(nodeFaults(2 * i), nodeFaults(2 * i + 1), sync.nodes[i]);
        MergeNext(NODE_TABLE, old(db.nodes), sync.nodes, nodeFaults, i);
      }
      assert sync.nodes[..|sync.nodes|] == sync.nodes;
    }

    /** handlePeerConfigSync, the push copy: None is a body that does not parse. */
    method HandlePeerConfigSync(
        body: Option<Sync>, monitorFaults: nat -> bool, nodeFaults: nat -> bool)
        returns (status: int)
      requires db.Valid()
      modifies db`monitors, db`nodes
      ensures db.Valid()
      ensures status == if body.None? then 400 else 200
      ensures body.None? ==> db.monitors == old(db.monitors) && db.nodes == old(db.nodes)
      ensures body.Some? ==>
        db.monitors == Merge(MONITOR_TABLE, old(db.monitors), Survivors(EncodeAll(body.value.monitors), monitorFaults))
      ensures body.Some? ==> db.nodes == Merge(NODE_TABLE, old(db.nodes), Survivors(body.value.nodes, nodeFaults))
    {
      if body.None? { return 400; }
      var sync := body.value;
      ghost var rows := EncodeAll(sync.monitors);
      for i := 0 to |sync.monitors|
        invariant db.Valid() && db.nodes == old(db.nodes)
        invariant db.monitors == Merge(MONITOR_TABLE, old(db.monitors), Survivors(rows[..i], monitorFaults))
      {
        UpsertMonitor(monitorFaults(2 * i), monitorFaults(2 * i + 1), sync.monitors[i]);
        MergeNext(MONITOR_TABLE, old(db.monitors), rows, monitorFaults, i);
      }
      assert rows[..|rows|] == rows;
      ghost var merged := db.monitors;
      for i := 0 to |sync.nodes|
        invariant db.Valid() && db.monitors == merged
        invariant db.nodes == Merge(NODE_TABLE, old(db.nodes), Survivors(sync.nodes[..i], nodeFaults))
      {
        UpsertNode(nodeFaults(2 * i), nodeFaults(2 * i + 1), sync.nodes[i]);
        MergeNext(NODE_TABLE, old(db.nodes), sync.nodes, nodeFaults, i);
      }
      assert sync.nodes[..|sync.nodes|] == sync.nodes;
      status := 200;
    }
  }
}

/**
 The pull loop and any number of push handlers at once. Each looks a row up in one store call and writes it
 in the next; the calls of different loops interleave in any way, and any call may fail.
 */
module Interleaving {
  import opened Model
  import opened Merging

  /** A loop with the rows it has left; looked is the answer of its lookup, while it stands between the two calls. */
  datatype Loop<T> = Loop(rows: seq<T>, looked: Option<bool>)

  /** done holds the rows whose write changed the table, in the order of the writes. */
  datatype State<T> = State(table: map<string, T>, loops: map<nat, Loop<T>>, done: seq<T>)

  datatype Move<T> =
    | Begin(p: nat, rows: seq<T>) // a sync arrives
    | Look(p: nat)                // GetMonitor, GetNode
    | Write(p: nat)               // UpdateMonitor or CreateMonitor, as the lookup said
    | Fail(p: nat)                // the next call of p fails: on to the next row

  predicate Working<T>(s: State<T>, p: nat) {
    p in s.loops && s.loops[p].rows != []
  }

  /** The lookup said "missing", and another loop has inserted the row since: the INSERT hits the primary key. */
  predicate Overtaken<T>(d: Table<T>, s: State<T>, p: nat)
    requires Working(s, p)
  {
    s.loops[p].looked == Some(false) && d.key(s.loops[p].rows[0]) in s.table
  }

  function Advance<T>(s: State<T>, p: nat): State<T>
    requires Working(s, p)
  {
    s.(loops := s.loops[p := Loop(s.loops[p].rows[1..], None)])
  }

  function Step<T>(d: Table<T>, s: State<T>, e: Move<T>): State<T> {
    match e
    case Begin(p, rows) => if Working(s, p) then s else s.(loops := s.loops[p := Loop(rows, None)])
    case Look(p) =>
      if !Working(s, p) || s.loops[p].looked.Some? then s
      else s.(loops := s.loops[p := s.loops[p].(looked := Some(d.key(s.loops[p].rows[0]) in s.table))])
    case Write(p) =>
      if !Working(s, p) || s.loops[p].looked.None? then s
      else
        var r, k := s.loops[p].rows[0], d.key(s.loops[p].rows[0]);
        if s.loops[p].looked.value then
          if k in s.table then Advance(s, p).(table := s.table[k := d.keep(s.table[k], r)], done := s.done + [r])
          else Advance(s, p) // UPDATE of a missing row
        else if k in s.table then Advance(s, p) // INSERT refused
        else Advance(s, p).(table := s.table[k := r], done := s.done + [r])
    case Fail(p) => if Working(s, p) then Advance(s, p) else s
  }

  function Run<T>(d: Table<T>, s: State<T>, es: seq<Move<T>>): State<T> {
    if es == [] then s else Step(d, Run(d, s, es[..|es| - 1]), es[|es| - 1])
  }

  /** A node with local table t0 and no sync under way. */
  function Fresh<T>(t0: map<string, T>): State<T> {
    State(t0, map[], [])
  }

  /** Rows are never deleted, so a row once found is still there. */
  ghost predicate FoundStands<T(!new)>(d: Table<T>, table: map<string, T>, loops: map<nat, Loop<T>>) {
    forall p :: p in loops ==> Stands(d, table, loops[p])
  }

  ghost predicate Stands<T(!new)>(d: Table<T>, table: map<string, T>, l: Loop<T>) {
    l.rows != [] && l.looked == Some(true) ==> d.key(l.rows[0]) in table
  }

  /** The table is the merge of the rows written. */
  ghost predicate Serial<T(!new)>(d: Table<T>, t0: map<string, T>, s: State<T>) {
    s.table == Merge(d, t0, s.done) && FoundStands(d, s.table, s.loops)
  }

  lemma OneLoopMoves<T(!new)>(
    d: Table<T>, table: map<string, T>, table': map<string, T>, loops: map<nat, Loop<T>>, p: nat, l: Loop<T>)
    requires FoundStands(d, table, loops) && table.Keys <= table'.Keys && Stands(d, table', l)
    ensures FoundStands(d, table', loops[p := l])
  {
    var loops' := loops[p := l];
    forall q | q in loops' ensures Stands(d, table', loops'[q]) {
      if q != p { assert Stands(d, table, loops[q]); }
    }
  }

  lemma SerialWrite<T(!new)>(d: Table<T>, t0: map<string, T>, s: State<T>, p: nat)
    requires Serial(d, t0, s) && Working(s, p) && s.loops[p].looked.Some?
    ensures var t := Step(d, s, Write(p));
      && t.table == Merge(d, t0, t.done)
      && t.done == (if Overtaken(d, s, p) then s.done else s.done + [s.loops[p].rows[0]])
      && t.table.Keys >= s.table.Keys
      && t.loops == s.loops[p := Loop(s.loops[p].rows[1..], None)]
  {
    assert Stands(d, s.table, s.loops[p]);
    MergeSnoc(d, t0, s.done, s.loops[p].rows[0]);
  }

  lemma SerialStep<T(!new)>(d: Table<T>, t0: map<string, T>, s: State<T>, e: Move<T>)
    requires Serial(d, t0, s)
    ensures Serial(d, t0, Step(d, s, e))
  {
    var t := Step(d, s, e);
    if t != s {
      if e.Write? { SerialWrite(d, t0, s, e.p); }
      OneLoopMoves(d, s.table, t.table, s.loops, e.p, t.loops[e.p]);
      assert t.loops == s.loops[e.p := t.loops[e.p]];
    }
  }

  /**
   Interleaved loops are serializable: whatever calls interleave or fail, the table is that of one loop merging,
   one after the other, the rows whose writes took effect. A row that reaches its write takes effect if and only
   if no other loop inserted it since it was looked up.
   */
  lemma {:induction false} LoopsAreSerializable<T(!new)>(d: Table<T>, t0: map<string, T>, es: seq<Move<T>>, p: nat)
    ensures Serial(d, t0, Run(d, Fresh(t0), es))
    ensures var s := Run(d, Fresh(t0), es);
      Working(s, p) && s.loops[p].looked.Some? ==>
        Step(d, s, Write(p)).done == if Overtaken(d, s, p) then s.done else s.done + [s.loops[p].rows[0]]
  {
    if es != [] {
      LoopsAreSerializable(d, t0, es[..|es| - 1], p);
      SerialStep(d, t0, Run(d, Fresh(t0), es[..|es| - 1]), es[|es| - 1]);
    }
    var s := Run(d, Fresh(t0), es);
    if Working(s, p) && s.loops[p].looked.Some? { SerialWrite(d, t0, s, p); }
  }

  // ---------- what becomes of one row ----------

  /** No move of b belongs to p. */
  ghost predicate Others<T>(b: seq<Move<T>>, p: nat) {
    forall i :: 0 <= i < |b| ==> b[i].p != p
  }

  lemma {:induction false} OthersLeaveLoop<T>(d: Table<T>, s: State<T>, b: seq<Move<T>>, p: nat)
    requires Others(b, p) && p in s.loops
    ensures var t := Run(d, s, b); p in t.loops && t.loops[p] == s.loops[p] && s.table.Keys <= t.table.Keys
  {
    if b != [] { OthersLeaveLoop(d, s, b[..|b| - 1], p); }
  }

  lemma {:induction false} RunAppend<T>(d: Table<T>, s: State<T>, a: seq<Move<T>>, b: seq<Move<T>>)
    ensures Run(d, s, a + b) == Run(d, Run(d, s, a), b)
  {
    if b == [] {
      assert a + b == a;
    } else {
      assert (a + b)[..|a + b| - 1] == a + b[..|b| - 1];
      RunAppend(d, s, a, b[..|b| - 1]);
    }
  }

  /**
   The fate of a row. Loop p looks its next row up after a, other loops move in b, then p writes. The row takes
   effect - overriding what is there, up to what an update keeps - unless the row was missing at the lookup and
   is there at the write; then the write changes nothing. Either way p goes on with its next row.
   */
  lemma RowTakesEffectUnlessOvertaken<T(!new)>(
    d: Table<T>, t0: map<string, T>, a: seq<Move<T>>, b: seq<Move<T>>, p: nat)
    requires Working(Run(d, Fresh(t0), a), p) && Run(d, Fresh(t0), a).loops[p].looked.None? && Others(b, p)
    ensures
      var s, u := Run(d, Fresh(t0), a), Run(d, Fresh(t0), a + [Look(p)] + b);
      var t, r := Run(d, Fresh(t0), a + [Look(p)] + b + [Write(p)]), s.loops[p].rows[0];
      var k := d.key(r);
      && p in t.loops && t.loops[p] == Loop(s.loops[p].rows[1..], None)
      && (if k !in s.table && k in u.table then t.table == u.table && t.done == u.done
          else t.table == u.table[k := if k in u.table then d.keep(u.table[k], r) else r] && t.done == u.done + [r])
  {
    var s := Run(d, Fresh(t0), a);
    RunSnoc(d, Fresh(t0), a, Look(p));
    RunAppend(d, Fresh(t0), a + [Look(p)], b);
    OthersLeaveLoop(d, Step(d, s, Look(p)), b, p);
    RunSnoc(d, Fresh(t0), a + [Look(p)] + b, Write(p));
  }

  /** e finishes the row p is working on: by its write, or by a failed call. */
  predicate Finishes<T>(s: State<T>, e: Move<T>, p: nat) {
    Working(s, p) && e.p == p && (e.Fail? || (e.Write? && s.loops[p].looked.Some?))
  }

  /** The rows p finishes in es, one for each move that finishes one. */
  function Finished<T>(d: Table<T>, s: State<T>, es: seq<Move<T>>, p: nat): seq<T> {
    if es == [] then []
    else
      var init, e := es[..|es| - 1], es[|es| - 1];
      var t := Run(d, s, init);
      Finished(d, s, init, p) + if Finishes(t, e, p) then [t.loops[p].rows[0]] else []
  }

  ghost predicate NoNewSync<T>(es: seq<Move<T>>, p: nat) {
    forall i :: 0 <= i < |es| && es[i].Begin? ==> es[i].p != p
  }

  /** One move takes at most the first row off p's list. */
  lemma MoveTakesFirst<T>(d: Table<T>, s: State<T>, e: Move<T>, p: nat)
    requires p in s.loops && !(e.Begin? && e.p == p)
    ensures p in Step(d, s, e).loops
    ensures s.loops[p].rows
         == (if Finishes(s, e, p) then [s.loops[p].rows[0]] else []) + Step(d, s, e).loops[p].rows
  {
    if Finishes(s, e, p) { assert s.loops[p].rows == [s.loops[p].rows[0]] + s.loops[p].rows[1..]; }
  }

  /** A loop handles the rows of its sync in order, each by exactly one write or one failed call, and skips none. */
  lemma {:induction false} LoopSkipsNoRow<T>(d: Table<T>, s: State<T>, es: seq<Move<T>>, p: nat)
    requires p in s.loops && NoNewSync(es, p)
    ensures p in Run(d, s, es).loops && Finished(d, s, es, p) + Run(d, s, es).loops[p].rows == s.loops[p].rows
  {
    if es != [] {
      var init, e := es[..|es| - 1], es[|es| - 1];
      LoopSkipsNoRow(d, s, init, p);
      var t := Run(d, s, init);
      MoveTakesFirst(d, t, e, p);
      var row := if Finishes(t, e, p) then [t.loops[p].rows[0]] else [];
      Regroup(Finished(d, s, init, p), row, Step(d, t, e).loops[p].rows);
    }
  }

  /** So a loop that takes up a sync has handled, or has still to handle, every row of it, in order. */
  lemma SyncIsHandledWhole<T>(d: Table<T>, s: State<T>, p: nat, rows: seq<T>, es: seq<Move<T>>)
    requires !Working(s, p) && NoNewSync(es, p)
    ensures
      var t := Run(d, s, [Begin(p, rows)]);
      p in Run(d, t, es).loops && Finished(d, t, es, p) + Run(d, t, es).loops[p].rows == rows
  {
    assert [] + [Begin(p, rows)] == [Begin(p, rows)];
    RunSnoc(d, s, [], Begin(p, rows));
    LoopSkipsNoRow(d, Run(d, s, [Begin(p, rows)]), es, p);
  }

  lemma Regroup<T>(a: seq<T>, b: seq<T>, c: seq<T>)
    ensures a + b + c == a + (b + c)
  {
  }

  // ---------- provenance ----------

  ghost predicate BegunFrom<T(!new)>(held: iset<T>, es: seq<Move<T>>) {
    forall i :: 0 <= i < |es| && es[i].Begin? ==> forall j :: 0 <= j < |es[i].rows| ==> es[i].rows[j] in held
  }

  ghost predicate OnlyHeld<T(!new)>(held: iset<T>, s: State<T>) {
    && (forall j :: 0 <= j < |s.done| ==> s.done[j] in held)
    && (forall p, j :: p in s.loops && 0 <= j < |s.loops[p].rows| ==> s.loops[p].rows[j] in held)
  }

  lemma {:induction false} RowsAreHeld<T(!new)>(d: Table<T>, held: iset<T>, es: seq<Move<T>>)
    requires BegunFrom(held, es)
    ensures OnlyHeld(held, Run(d, Fresh(map[]), es))
  {
    if es != [] { RowsAreHeld(d, held, es[..|es| - 1]); }
  }

  ghost predicate NeverInventsInterleaved<T(!new)>(d: Table<T>, held: iset<T>) {
    forall es: seq<Move<T>> :: BegunFrom(held, es) ==> AllHeld(d, held, Run(d, Fresh(map[]), es).table)
  }

  lemma RunSnoc<T>(d: Table<T>, s: State<T>, es: seq<Move<T>>, e: Move<T>)
    ensures Run(d, s, es + [e]) == Step(d, Run(d, s, es), e)
  {
    assert (es + [e])[..|es|] == es;
  }

  lemma OneRowSynced<T>(d: Table<T>, s: State<T>, es: seq<Move<T>>, r: T) returns (es': seq<Move<T>>)
    requires !Working(Run(d, s, es), 0)
    ensures es' == es + [Begin(0, [r])] + [Look(0)] + [Write(0)]
    ensures Run(d, s, es').table == Upsert(d, Run(d, s, es).table, r) && !Working(Run(d, s, es'), 0)
  {
    RunSnoc(d, s, es, Begin(0, [r]));
    RunSnoc(d, s, es + [Begin(0, [r])], Look(0));
    RunSnoc(d, s, es + [Begin(0, [r])] + [Look(0)], Write(0));
    es' := es + [Begin(0, [r])] + [Look(0)] + [Write(0)];
  }

  /** Provenance survives interleaving under exactly the same condition as for one loop after the other. */
  lemma NeverInventsInterleavedIffMixingClosed<T(!new)>(d: Table<T>, held: iset<T>)
    requires Lawful(d)
    ensures NeverInventsInterleaved(d, held) <==> MixingClosed(d, held)
  {
    if MixingClosed(d, held) {
      forall es: seq<Move<T>> | BegunFrom(held, es) ensures AllHeld(d, held, Run(d, Fresh(map[]), es).table) {
        LoopsAreSerializable(d, map[], es, 0);
        RowsAreHeld(d, held, es);
        MergeKeepsHeld(d, held, map[], Run(d, Fresh(map[]), es).done);
      }
    } else {
      var v, w :| v in held && w in held && d.key(v) == d.key(w) && d.keep(v, w) !in held;
      var es := OneRowSynced(d, Fresh(map[]), [], v);
      es := OneRowSynced(d, Fresh(map[]), es, w);
      assert BegunFrom(held, es);
      assert Run(d, Fresh(map[]), es).table[d.key(v)] == d.keep(v, w);
    }
  }

  /** A pull and a push of two versions of a new row: the later version is looked up first, written second, and lost. */
  lemma OvertakenVersionIsLost<T>(d: Table<T>, v: T, w: T) returns (es: seq<Move<T>>)
    requires d.key(v) == d.key(w)
    ensures Run(d, Fresh(map[]), es).table == map[d.key(v) := v]
    ensures !Working(Run(d, Fresh(map[]), es), 0) && !Working(Run(d, Fresh(map[]), es), 1)
    ensures es == [Begin(0, [v])] + [Begin(1, [w])] + [Look(1)] + [Look(0)] + [Write(0)] + [Write(1)]
  {
    var s := Fresh<T>(map[]);
    es := [Begin(0, [v])];
    assert es == [] + [Begin(0, [v])];
    RunSnoc(d, s, [], Begin(0, [v]));
    RunSnoc(d, s, es, Begin(1, [w]));
    es := es + [Begin(1, [w])];
    RunSnoc(d, s, es, Look(1));
    es := es + [Look(1)];
    RunSnoc(d, s, es, Look(0));
    es := es + [Look(0)];
    RunSnoc(d, s, es, Write(0));
    es := es + [Write(0)];
    RunSnoc(d, s, es, Write(1));
    es := es + [Write(1)];
  }
}
