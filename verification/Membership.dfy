/** internal/cluster/cluster.go: offline detection while heartbeats and joins keep landing. */
module Membership {
  import opened Model
  import opened Store

  /** What may land between two updates of a detection pass. */
  datatype Landing = Beat(id: string, at: int) | Join(node: Node)

  /** UpdateHeartbeat: an UPDATE, so an unknown id has no effect. handlePeerJoin: an INSERT. */
  function Land(t: map<string, Node>, l: Landing): map<string, Node> {
    match l
    case Beat(id, at) => if id in t then t[id := t[id].(status := NodeOnline, lastSeen := at)] else t
    case Join(n) => if n.id in t then t else t[n.id := n]
  }

  function LandAll(t: map<string, Node>, ls: seq<Landing>): map<string, Node> {
    if ls == [] then t else Land(LandAll(t, ls[..|ls| - 1]), ls[|ls| - 1])
  }

  predicate Stale(n: Node, cutoff: int) {
    n.lastSeen < cutoff && n.status.NodeOnline?
  }

  function Mark(t: map<string, Node>, n: Node, cutoff: int, failed: set<string>): map<string, Node> {
    if Stale(n, cutoff) && n.id !in failed && n.id in t
    then t[n.id := t[n.id].(status := NodeOffline, lastSeen := n.lastSeen)] else t
  }

  /** The table when the pass has handled i nodes of its snapshot; landed(i) lands just before node i. */
  function PassTo(
    t: map<string, Node>, snap: seq<Node>, cutoff: int, landed: nat -> seq<Landing>, failed: set<string>, i: nat)
    : map<string, Node>
    requires i <= |snap|
  {
    if i == 0 then t
    else Mark(LandAll(PassTo(t, snap, cutoff, landed, failed, i - 1), landed(i - 1)), snap[i - 1], cutoff, failed)
  }

  function Pass(
    t: map<string, Node>, snap: seq<Node>, cutoff: int, landed: nat -> seq<Landing>, failed: set<string>)
    : map<string, Node>
  {
    LandAll(PassTo(t, snap, cutoff, landed, failed, |snap|), landed(|snap|))
  }

  /** ListNodes: every row once. */
  ghost predicate IsSnapshot(snap: seq<Node>, t: map<string, Node>) {
    && (forall i, j :: 0 <= i < j < |snap| ==> snap[i].id != snap[j].id)
    && (forall i :: 0 <= i < |snap| ==> snap[i].id in t && t[snap[i].id] == snap[i])
    && (forall k :: k in t ==> exists i :: 0 <= i < |snap| && snap[i].id == k)
  }

  /** A monotone clock: what lands after the cutoff was read carries a time not before it. */
  ghost predicate Recent(l: Landing, cutoff: int) {
    match l case Beat(_, at) => at >= cutoff case Join(n) => n.status.NodeOnline? && n.lastSeen >= cutoff
  }

  ghost predicate AllRecent(landed: nat -> seq<Landing>, cutoff: int) {
    forall i: nat, j :: 0 <= j < |landed(i)| ==> Recent(landed(i)[j], cutoff)
  }

  ghost predicate Hit(ls: seq<Landing>, k: string) {
    exists j :: 0 <= j < |ls| && ls[j].Beat? && ls[j].id == k
  }

  /** At most status and last-seen differ. */
  predicate OnlySeen(a: Node, b: Node) {
    b == a.(status := b.status, lastSeen := b.lastSeen)
  }

  /** Landing never takes a node offline: a row is as before or freshly seen. */
  lemma {:induction false} LandAllRow(t: map<string, Node>, ls: seq<Landing>, cutoff: int, k: string)
    requires forall j :: 0 <= j < |ls| ==> Recent(ls[j], cutoff)
    ensures k in t
      ==> k in LandAll(t, ls) && (if Hit(ls, k) then Fresh(LandAll(t, ls)[k], cutoff) else LandAll(t, ls)[k] == t[k])
    ensures k in LandAll(t, ls) && k !in t ==> Fresh(LandAll(t, ls)[k], cutoff)
    ensures k in t ==> OnlySeen(t[k], LandAll(t, ls)[k])
  {
    if ls != [] {
      var init, last := ls[..|ls| - 1], ls[|ls| - 1];
      LandAllRow(t, init, cutoff, k);
      assert Hit(init, k) ==> Hit(ls, k) by {
        if Hit(init, k) {
          var j :| 0 <= j < |init| && init[j].Beat? && init[j].id == k;
          assert ls[j] == init[j];
        }
      }
      if Hit(ls, k) && !Hit(init, k) {
        var j :| 0 <= j < |ls| && ls[j].Beat? && ls[j].id == k;
        assert j < |init| ==> init[j] == ls[j];
      }
      assert last.Beat? && last.id == k ==> Hit(ls, k) by { assert ls[|ls| - 1] == last; }
    }
  }

  predicate Fresh(n: Node, cutoff: int) {
    n.status.NodeOnline? && n.lastSeen >= cutoff
  }

  /**
   During the pass a stale online row is untouched since the snapshot, and its turn is yet to come or its update
   failed.
   */
  lemma {:induction false} PassInvariant(
    t: map<string, Node>, snap: seq<Node>, cutoff: int, landed: nat -> seq<Landing>, failed: set<string>, i: nat,
    k: string)
    requires i <= |snap| && IsSnapshot(snap, t) && AllRecent(landed, cutoff)
    ensures var p := PassTo(t, snap, cutoff, landed, failed, i);
      && (k in t ==> k in p && OnlySeen(t[k], p[k]))
      && (k in p && Stale(p[k], cutoff) ==>
            k in t && p[k] == t[k] && (k in failed || exists j :: i <= j < |snap| && snap[j].id == k))
      && (k in t && Fresh(t[k], cutoff) ==> Fresh(p[k], cutoff))
  {
    if i == 0 {
    } else {
      PassInvariant(t, snap, cutoff, landed, failed, i - 1, k);
      LandAllRow(PassTo(t, snap, cutoff, landed, failed, i - 1), landed(i - 1), cutoff, k);
    }
  }

  /**
   After a pass, whatever landed between its updates, an online node not seen since the cutoff is one
   whose update failed; and no node fresh in the snapshot was taken offline.
   */
  lemma DetectionIsSound(
    t: map<string, Node>, snap: seq<Node>, cutoff: int, landed: nat -> seq<Landing>, failed: set<string>, k: string)
    requires IsSnapshot(snap, t) && AllRecent(landed, cutoff)
    ensures var p := Pass(t, snap, cutoff, landed, failed);
      && (k in p && p[k].status == NodeOnline && p[k].lastSeen < cutoff ==> k in failed)
      && (k in t && t[k].status == NodeOnline && t[k].lastSeen >= cutoff ==>
            k in p && p[k].status == NodeOnline && p[k].lastSeen >= cutoff)
  {
    PassInvariant(t, snap, cutoff, landed, failed, |snap|, k);
    LandAllRow(PassTo(t, snap, cutoff, landed, failed, |snap|), landed(|snap|), cutoff, k);
  }

  ghost predicate HitBetween(landed: nat -> seq<Landing>, a: nat, b: nat, k: string) {
    exists j: nat :: a <= j < b && Hit(landed(j), k)
  }

  lemma {:induction false} AfterItsTurn(
    t: map<string, Node>, snap: seq<Node>, cutoff: int, landed: nat -> seq<Landing>, failed: set<string>, i: nat,
    b: nat)
    requires i < b <= |snap| && IsSnapshot(snap, t) && AllRecent(landed, cutoff)
    requires Stale(snap[i], cutoff) && snap[i].id !in failed
    ensures var p, k := PassTo(t, snap, cutoff, landed, failed, b), snap[i].id;
      && k in p
      && if HitBetween(landed, i + 1, b, k) then Fresh(p[k], cutoff) else p[k] == snap[i].(status := NodeOffline)
  {
    var k := snap[i].id;
    if b == i + 1 {
      AtItsTurn(t, snap, cutoff, landed, failed, i);
    } else {
      AfterItsTurn(t, snap, cutoff, landed, failed, i, b - 1);
      LandAllRow(PassTo(t, snap, cutoff, landed, failed, b - 1), landed(b - 1), cutoff, k);
      assert snap[b - 1].id != k;
      HitOnceMore(landed, i + 1, b - 1, k);
    }
  }

  lemma AtItsTurn(
      t: map<string, Node>, snap: seq<Node>, cutoff: int, landed: nat -> seq<Landing>, failed: set<string>, i: nat)
    requires i < |snap| && IsSnapshot(snap, t) && AllRecent(landed, cutoff)
    requires Stale(snap[i], cutoff) && snap[i].id !in failed
    ensures var p, k := PassTo(t, snap, cutoff, landed, failed, i + 1), snap[i].id;
      k in p && p[k] == snap[i].(status := NodeOffline)
  {
    PassInvariant(t, snap, cutoff, landed, failed, i, snap[i].id);
    LandAllRow(PassTo(t, snap, cutoff, landed, failed, i), landed(i), cutoff, snap[i].id);
  }

  lemma HitOnceMore(landed: nat -> seq<Landing>, a: nat, b: nat, k: string)
    ensures HitBetween(landed, a, b + 1, k) <==> HitBetween(landed, a, b, k) || (a <= b && Hit(landed(b), k))
  {
  }

  /**
   A node stale in the snapshot ends the pass online if and only if a heartbeat of it landed after its own
   update. One that landed earlier in the pass is lost: the row goes back to offline and the old time.
   */
  lemma StaleNodeSurvivesIffItReportsAfterItsTurn(
    t: map<string, Node>, snap: seq<Node>, cutoff: int, landed: nat -> seq<Landing>, failed: set<string>, i: nat)
    requires i < |snap| && IsSnapshot(snap, t) && AllRecent(landed, cutoff)
    requires snap[i].status == NodeOnline && snap[i].lastSeen < cutoff && snap[i].id !in failed
    ensures var p, k := Pass(t, snap, cutoff, landed, failed), snap[i].id;
      && k in p
      && (p[k].status.NodeOnline? <==> HitBetween(landed, i + 1, |snap| + 1, k))
      && (!p[k].status.NodeOnline? ==> p[k] == snap[i].(status := NodeOffline))
  {
    var k := snap[i].id;
    AfterItsTurn(t, snap, cutoff, landed, failed, i, |snap|);
    LandAllRow(PassTo(t, snap, cutoff, landed, failed, |snap|), landed(|snap|), cutoff, k);
  }

  // ---------- rows that nothing else touches ----------

  /** No heartbeat of k and no join under id k lands during the pass. */
  ghost predicate Unhit(landed: nat -> seq<Landing>, n: nat, k: string) {
    forall i: nat :: i <= n ==> UnhitBy(landed(i), k)
  }

  ghost predicate UnhitBy(ls: seq<Landing>, k: string) {
    forall j :: 0 <= j < |ls| ==> (match ls[j] case Beat(id, _) => id != k case Join(n) => n.id != k)
  }

  lemma {:induction false} UnhitStays(t: map<string, Node>, ls: seq<Landing>, k: string)
    requires UnhitBy(ls, k)
    ensures (k in LandAll(t, ls) <==> k in t) && (k in t ==> LandAll(t, ls)[k] == t[k])
  {
    if ls != [] {
      assert match ls[|ls| - 1] case Beat(id, _) => id != k case Join(n) => n.id != k;
      UnhitStays(t, ls[..|ls| - 1], k);
    }
  }

  /** What the pass leaves of a row once its turn is over. */
  function Marked(n: Node, cutoff: int, failed: set<string>): Node {
    if n.status == NodeOnline && n.lastSeen < cutoff && n.id !in failed then n.(status := NodeOffline) else n
  }

  lemma {:induction false} UnhitSoFar(
    t: map<string, Node>, snap: seq<Node>, cutoff: int, landed: nat -> seq<Landing>, failed: set<string>, i: nat,
    k: string)
    requires i <= |snap| && IsSnapshot(snap, t) && Unhit(landed, |snap|, k)
    ensures var p := PassTo(t, snap, cutoff, landed, failed, i);
      && (k in p <==> k in t)
      && (k in t && (exists j :: 0 <= j < i && snap[j].id == k) ==> p[k] == Marked(t[k], cutoff, failed))
      && (k in t && (forall j :: 0 <= j < i ==> snap[j].id != k) ==> p[k] == t[k])
  {
    if i > 0 {
      UnhitSoFar(t, snap, cutoff, landed, failed, i - 1, k);
      UnhitStays(PassTo(t, snap, cutoff, landed, failed, i - 1), landed(i - 1), k);
    }
  }

  /**
   The effect of a pass on a row that no heartbeat or join hits: an online row not seen since the cutoff goes
   offline, keeping every other column, unless its update failed; any other row - fresh, offline, suspect, or with
   a failed update - is exactly as before; and no row comes or goes.
   */
  lemma UnhitRowAfterPass(
    t: map<string, Node>, snap: seq<Node>, cutoff: int, landed: nat -> seq<Landing>, failed: set<string>, k: string)
    requires IsSnapshot(snap, t) && Unhit(landed, |snap|, k)
    ensures var p := Pass(t, snap, cutoff, landed, failed);
      && (k in p <==> k in t)
      && (k in t && t[k].status == NodeOnline && t[k].lastSeen < cutoff && k !in failed ==>
            p[k] == t[k].(status := NodeOffline))
      && (k in t && (t[k].status != NodeOnline || t[k].lastSeen >= cutoff || k in failed) ==> p[k] == t[k])
  {
    UnhitSoFar(t, snap, cutoff, landed, failed, |snap|, k);
    UnhitStays(PassTo(t, snap, cutoff, landed, failed, |snap|), landed(|snap|), k);
    if k in t {
      var j :| 0 <= j < |snap| && snap[j].id == k;
      assert t[k].id == k;
    }
  }

  class Manager {
    const db: SQLiteStore

    constructor (db: SQLiteStore)
      ensures this.db == db
    {
      this.db := db;
    }

    method UpdateHeartbeat(fault: bool, id: string, now: int) returns (ok: bool)
      requires db.Valid()
      modifies db`nodes
      ensures db.Valid() && (ok <==> !fault)
      ensures db.nodes == if ok then Land(old(db.nodes), Beat(id, now)) else old(db.nodes)
      ensures ok && id in old(db.nodes) ==>
        db.nodes == old(db.nodes)[id := old(db.nodes)[id].(status := NodeOnline, lastSeen := now)]
      ensures !ok || id !in old(db.nodes) ==> db.nodes == old(db.nodes)
    {
      ok := db.UpdateNodeStatus(fault, id, NodeOnline, now);
    }

    method ListNodes(fault: bool) returns (ok: bool, snap: seq<Node>)
      requires db.Valid()
      ensures ok <==> !fault
      ensures ok ==> IsSnapshot(snap, db.nodes)
      ensures ok ==> forall n :: n in snap <==> n.id in db.nodes && db.nodes[n.id] == n
    {
      ok := !fault;
      snap := [];
      var todo := db.nodes.Keys;
      while todo != {}
        invariant todo <= db.nodes.Keys
        invariant forall i, j :: 0 <= i < j < |snap| ==> snap[i].id != snap[j].id
        invariant forall i ::
          0 <= i < |snap| ==> snap[i].id in db.nodes && snap[i].id !in todo && db.nodes[snap[i].id] == snap[i]
        invariant forall k :: k in db.nodes && k !in todo ==> exists i :: 0 <= i < |snap| && snap[i].id == k
        decreases todo
      {
        var k :| k in todo;
        todo := todo - {k};
        ghost var before := snap;
        snap := snap + [db.nodes[k]];
        forall q | q in db.nodes && q !in todo ensures exists i :: 0 <= i < |snap| && snap[i].id == q {
          if q == k {
            assert snap[|before|].id == q;
          } else {
            var i :| 0 <= i < |before| && before[i].id == q;
            assert snap[i].id == q;
          }
        }
      }
    }

    /** The other handlers: heartbeats and joins landing while the pass runs. */
    method Environment(ls: seq<Landing>)
      requires db.Valid()
      modifies db`nodes
      ensures db.Valid() && db.nodes == LandAll(old(db.nodes), ls)
    {
      for i := 0 to |ls|
        invariant db.Valid() && db.nodes == LandAll(old(db.nodes), ls[..i])
      {
        assert ls[..i + 1][..i] == ls[..i];
        match ls[i] {
          case Beat(id, at) =>
            var _ := UpdateHeartbeat(false, id, at);
          case Join(n) =>
            var _ := db.CreateNode(false, n);
        }
      }
      assert ls[..|ls|] == ls;
    }

    /** The body of the loop. */
    method MarkIfStale(n: Node, cutoff: int, failing: set<string>)
      requires db.Valid()
      modifies db`nodes
      ensures db.Valid() && db.nodes == Mark(old(db.nodes), n, cutoff, failing)
    {
      if n.lastSeen < cutoff && n.status.NodeOnline? {
        var _ := db.UpdateNodeStatus(n.id in failing, n.id, NodeOffline, n.lastSeen);
      }
    }

    /** landed is the schedule of what arrives before each update, failing the nodes whose update fails. */
    method DetectOfflineNodes(fault: bool, timeoutMS: int, now: int, landed: nat -> seq<Landing>, failing: set<string>)
      returns (ok: bool, ghost snap: seq<Node>)
      requires db.Valid()
      modifies db`nodes
      ensures db.Valid() && (ok <==> !fault)
      ensures !ok ==> db.nodes == old(db.nodes)
      ensures ok
        ==> IsSnapshot(snap, old(db.nodes)) && db.nodes == Pass(old(db.nodes), snap, now - timeoutMS, landed, failing)
    {
      var nodes;
      ok, nodes := ListNodes(fault);
      snap := nodes;
      if !ok { return; }
      UpdateStale(nodes, now - timeoutMS, landed, failing);
    }

    /** Its loop. */
    method UpdateStale(nodes: seq<Node>, cutoff: int, landed: nat -> seq<Landing>, failing: set<string>)
      requires db.Valid()
      modifies db`nodes
      ensures db.Valid() && db.nodes == Pass(old(db.nodes), nodes, cutoff, landed, failing)
    {
      for i := 0 to |nodes|
        invariant db.Valid() && db.nodes == PassTo(old(db.nodes), nodes, cutoff, landed, failing, i)
      {
        Environment(landed(i));
        MarkIfStale(nodes[i], cutoff, failing);
      }
      Environment(landed(|nodes|));
    }
  }
}
