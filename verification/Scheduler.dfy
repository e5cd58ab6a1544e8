/** internal/agent/scheduler.go: which check loops are alive, and which checks are in flight. */
module Scheduling {
  import opened Model

  // ---------- the set of loops ----------

  /** owner lists the monitor of every loop ever started; a loop is its index. */
  datatype Loops = Loops(current: map<string, nat>, owner: seq<string>, cancelled: set<nat>)

  function Start(s: Loops, id: string): Loops {
    if id in s.current then s else Loops(s.current[id := |s.owner|], s.owner + [id], s.cancelled)
  }

  function StartAll(s: Loops, ids: seq<string>): Loops {
    if ids == [] then s else Start(StartAll(s, ids[..|ids| - 1]), ids[|ids| - 1])
  }

  /** Cancel the loops of all monitors in gone. */
  function Cancel(s: Loops, gone: set<string>): Loops {
    Loops(s.current - gone, s.owner, s.cancelled + set id | id in s.current && id in gone :: s.current[id])
  }

  function Ids(ms: seq<string>): set<string> { set id | id in ms }

  function Sync(s: Loops, ids: seq<string>): Loops {
    var t := StartAll(s, ids);
    Cancel(t, t.current.Keys - Ids(ids))
  }

  /** The loops ever started and not cancelled are exactly the current entries, one per monitor. */
  ghost predicate Tracks(s: Loops) {
    && (forall id :: id in s.current ==> s.current[id] < |s.owner| && s.owner[s.current[id]] == id)
    && (forall l :: 0 <= l < |s.owner| ==>
          (l !in s.cancelled <==> s.owner[l] in s.current && s.current[s.owner[l]] == l))
    && (forall l :: l in s.cancelled ==> l < |s.owner|)
  }

  lemma StartTracks(s: Loops, id: string)
    requires Tracks(s)
    ensures Tracks(Start(s, id))
  {
  }

  lemma {:induction false} StartAllTracks(s: Loops, ids: seq<string>)
    requires Tracks(s)
    ensures Tracks(StartAll(s, ids))
    ensures StartAll(s, ids).current.Keys == s.current.Keys + Ids(ids)
    ensures forall id :: id in s.current ==> StartAll(s, ids).current[id] == s.current[id]
  {
    if ids != [] {
      StartAllTracks(s, ids[..|ids| - 1]);
      StartTracks(StartAll(s, ids[..|ids| - 1]), ids[|ids| - 1]);
      assert Ids(ids) == Ids(ids[..|ids| - 1]) + {ids[|ids| - 1]};
    }
  }

  lemma CancelTracks(s: Loops, gone: set<string>)
    requires Tracks(s)
    ensures Tracks(Cancel(s, gone))
  {
    var t := Cancel(s, gone);
    forall l | 0 <= l < |s.owner|
      ensures l !in t.cancelled <==> t.owner[l] in t.current && t.current[t.owner[l]] == l
    {
      if l in t.cancelled && l !in s.cancelled {
        var id :| id in s.current && id in gone && s.current[id] == l;
        assert s.owner[l] == id;
      }
    }
  }

  /** After a sync the tracked monitors are exactly the input ids, duplicates or not, and survivors keep their loop. */
  lemma SyncTracksEnabledSet(s: Loops, ids: seq<string>)
    requires Tracks(s)
    ensures Tracks(Sync(s, ids))
    ensures Sync(s, ids).current.Keys == Ids(ids)
    ensures forall id :: id in s.current && id in ids ==> Sync(s, ids).current[id] == s.current[id]
    ensures forall id :: id in s.current && id !in ids ==> s.current[id] in Sync(s, ids).cancelled
  {
    StartAllTracks(s, ids);
    var t := StartAll(s, ids);
    CancelTracks(t, t.current.Keys - Ids(ids));
    forall id | id in s.current && id !in ids ensures s.current[id] in Sync(s, ids).cancelled {
      assert id in t.current && t.current[id] == s.current[id];
    }
  }

  datatype Op = SyncOp(ids: seq<string>) | StopOp

  function Apply(s: Loops, op: Op): Loops {
    match op case SyncOp(ids) => Sync(s, ids) case StopOp => Cancel(s, s.current.Keys)
  }

  function After(ops: seq<Op>): Loops {
    if ops == [] then Loops(map[], [], {}) else Apply(After(ops[..|ops| - 1]), ops[|ops| - 1])
  }

  /**
   Over any sequence of syncs and stops no loop leaks and none is lost: the live loops are one per entry,
   after a sync they are those of the last enabled set, and after a stop there are none.
   */
  lemma {:induction false} NoLoopLeaks(ops: seq<Op>)
    ensures Tracks(After(ops))
    ensures ops != [] && ops[|ops| - 1].SyncOp? ==> After(ops).current.Keys == Ids(ops[|ops| - 1].ids)
    ensures ops != [] && ops[|ops| - 1].StopOp?
      ==> forall l :: 0 <= l < |After(ops).owner| ==> l in After(ops).cancelled
  {
    if ops != [] {
      var s := After(ops[..|ops| - 1]);
      NoLoopLeaks(ops[..|ops| - 1]);
      match ops[|ops| - 1]
      case SyncOp(ids) => SyncTracksEnabledSet(s, ids);
      case StopOp => CancelTracks(s, s.current.Keys);
    }
  }

  /** time.Ticker: fires every intervalMS for the loop it was made for. */
  datatype Ticker = Ticker(loop: nat, intervalMS: int)

  function Intervals(timers: map<string, Ticker>): map<string, int> {
    map id | id in timers :: timers[id].intervalMS
  }

  /** The intervals once every monitor listed has a ticker: those already running keep theirs. */
  function WithNew(t: map<string, int>, monitors: seq<Monitor>): map<string, int> {
    if monitors == [] then t
    else
      var u, m := WithNew(t, monitors[..|monitors| - 1]), monitors[|monitors| - 1];
      if m.id in u then u else u[m.id := if m.intervalMS < 1000 then 1000 else m.intervalMS]
  }

  /** A monitor without a ticker gets one with the interval of its first entry in the list, but at least a second. */
  lemma {:induction false} NewTickerInterval(t: map<string, int>, monitors: seq<Monitor>, id: string) returns (i: int)
    ensures id in t ==> id in WithNew(t, monitors) && WithNew(t, monitors)[id] == t[id]
    ensures i == -1 || (0 <= i < |monitors| && monitors[i].id == id)
    ensures forall j :: 0 <= j < (if i == -1 then |monitors| else i) ==> monitors[j].id != id
    ensures id !in t ==> (id in WithNew(t, monitors) <==> i >= 0)
    ensures id !in t && i >= 0 ==>
      WithNew(t, monitors)[id] == if monitors[i].intervalMS < 1000 then 1000 else monitors[i].intervalMS
  {
    if monitors == [] {
      i := -1;
    } else {
      var n := |monitors| - 1;
      i := NewTickerInterval(t, monitors[..n], id);
      if i == -1 && monitors[n].id == id { i := n; }
    }
  }

  lemma IntervalsOfUpdate(timers: map<string, Ticker>, id: string, t: Ticker)
    ensures Intervals(timers[id := t]) == Intervals(timers)[id := t.intervalMS]
  {
  }

  lemma IntervalsMinus(timers: map<string, Ticker>, gone: set<string>)
    ensures Intervals(timers - gone) == Intervals(timers) - gone
  {
  }

  class Scheduler {
    var timers: map<string, Ticker>
    var cancels: map<string, nat>
    var running: map<string, bool>
    var owner: seq<string>          // goroutines started so far
    ghost var cancelled: set<nat>   // loops whose context is done
    ghost var stopped: set<nat>     // tickers stopped
    ghost var flights: map<nat, string> // goroutines past the guard of executeCheck

    ghost function View(): Loops
      reads this
    {
      Loops(cancels, owner, cancelled)
    }

    /** The maps are in step: a monitor's ticker and cancel function belong to one loop. */
    ghost predicate InStep()
      reads this
    {
      && timers.Keys == cancels.Keys
      && (forall id :: id in timers ==> timers[id].loop == cancels[id] && timers[id].intervalMS >= 1000)
      && stopped == cancelled
    }

    ghost predicate Valid()
      reads this
    {
      InStep() && Tracks(View())
    }

    constructor ()
      ensures Valid() && View() == Loops(map[], [], {}) && running == map[] && flights == map[]
    {
      timers, cancels, running, owner := map[], map[], map[], [];
      cancelled, stopped := {}, {};
      flights := map[];
    }

    /** The guard of executeCheck, under the mutex: skip the check if the previous one still runs. */
    method BeginCheck(ghost g: nat, monitorID: string) returns (admitted: bool)
      requires g !in flights
      modifies this`running, this`flights
      ensures admitted <==> !(monitorID in old(running) && old(running)[monitorID])
      ensures running == if admitted then old(running)[monitorID := true] else old(running)
      ensures flights == if admitted then old(flights)[g := monitorID] else old(flights)
      ensures Guard(running, flights) == Do(old(Guard(running, flights)), Enter(g, monitorID))
    {
      admitted := !(monitorID in running && running[monitorID]);
      if admitted {
        running := running[monitorID := true];
        flights := flights[g := monitorID];
      }
    }

    /** Its deferred half. */
    method EndCheck(ghost g: nat, monitorID: string)
      requires g in flights && flights[g] == monitorID
      modifies this`running, this`flights
      ensures running == old(running)[monitorID := false] && flights == old(flights) - {g}
      ensures Guard(running, flights) == Do(old(Guard(running, flights)), Leave(g))
    {
      running := running[monitorID := false];
      flights := flights - {g};
    }

    method StartMonitor(m: Monitor)
      requires InStep() && m.id !in timers
      modifies this`timers, this`cancels, this`owner
      ensures InStep() && View() == Start(old(View()), m.id)
      ensures timers == old(timers)[m.id := Ticker(|old(owner)|, if m.intervalMS < 1000 then 1000 else m.intervalMS)]
    {
      var interval := m.intervalMS;
      if interval < 1000 { interval := 1000; }
      timers := timers[m.id := Ticker(|owner|, interval)];
      cancels := cancels[m.id := |owner|];
      owner := owner + [m.id];
    }

    method StopMonitor(id: string)
      requires InStep()
      modifies this`timers, this`cancels, this`running, this`cancelled, this`stopped
      ensures InStep() && View() == Cancel(old(View()), {id})
      ensures timers == old(timers) - {id} && running == old(running) - {id}
      ensures Guard(running, flights) == Do(old(Guard(running, flights)), Drop(id))
    {
      CancelOne(View(), id);
      if id in timers {
        stopped := stopped + {timers[id].loop};
        timers := timers - {id};
      }
      if id in cancels {
        cancelled := cancelled + {cancels[id]};
        cancels := cancels - {id};
      }
      running := running - {id};
    }

    /** The first loop of SyncMonitors. */
    method StartNew(monitors: seq<Monitor>) returns (active: set<string>)
      requires InStep()
      modifies this`timers, this`cancels, this`owner
      ensures InStep() && View() == StartAll(old(View()), MonitorIds(monitors))
      ensures active == Ids(MonitorIds(monitors))
      ensures forall id :: id in old(timers) ==> id in timers && timers[id] == old(timers)[id]
      ensures Intervals(timers) == WithNew(Intervals(old(timers)), monitors)
    {
      ghost var ids := MonitorIds(monitors);
      active := {};
      for i := 0 to |monitors|
        invariant InStep() && View() == StartAll(old(View()), ids[..i]) && active == Ids(ids[..i])
        invariant forall id :: id in old(timers) ==> id in timers && timers[id] == old(timers)[id]
        invariant Intervals(timers) == WithNew(Intervals(old(timers)), monitors[..i])
      {
        assert ids[..i + 1][..i] == ids[..i] && ids[..i + 1][i] == monitors[i].id;
        assert monitors[..i + 1][..i] == monitors[..i];
        active := active + {monitors[i].id};
        IdsSnoc(ids[..i], monitors[i].id);
        assert ids[..i + 1] == ids[..i] + [monitors[i].id];
        StartIfNew(monitors[i]);
      }
      assert ids[..|ids|] == ids && monitors[..|monitors|] == monitors;
    }

    /** Its body. */
    method StartIfNew(m: Monitor)
      requires InStep()
      modifies this`timers, this`cancels, this`owner
      ensures InStep() && View() == Start(old(View()), m.id)
      ensures forall id :: id in old(timers) ==> id in timers && timers[id] == old(timers)[id]
      ensures Intervals(timers)
           == if m.id in old(timers) then Intervals(old(timers))
              else Intervals(old(timers))[m.id := if m.intervalMS < 1000 then 1000 else m.intervalMS]
    {
      if m.id !in timers {
        StartMonitor(m);
        IntervalsOfUpdate(old(timers), m.id, timers[m.id]);
      }
    }

    /**
     Start what is new, stop what is gone; survivors keep ticker, loop and running flag, and the flags of those
     stopped are deleted.
     */
    method SyncMonitors(monitors: seq<Monitor>)
      requires Valid()
      modifies this
      ensures Valid() && View() == Sync(old(View()), MonitorIds(monitors))
      ensures timers.Keys == cancels.Keys == Ids(MonitorIds(monitors))
      ensures forall id :: id in old(timers) && id in timers ==> timers[id] == old(timers)[id]
      ensures Intervals(timers)
           == WithNew(Intervals(old(timers)), monitors) - (old(timers).Keys - Ids(MonitorIds(monitors)))
      ensures running == old(running) - (old(timers).Keys - Ids(MonitorIds(monitors))) && flights == old(flights)
    {
      var active := StartNew(monitors);
      ghost var started := timers;
      StartAllTracks(old(View()), MonitorIds(monitors));
      assert timers.Keys - active == old(timers).Keys - active;
      StopAll(timers.Keys - active);
      IntervalsMinus(started, old(timers).Keys - active);
      SyncTracksEnabledSet(old(View()), MonitorIds(monitors));
    }

    method Stop()
      requires Valid()
      modifies this
      ensures Valid() && View() == Cancel(old(View()), old(View()).current.Keys)
      ensures timers == map[] && cancels == map[] && forall l :: 0 <= l < |owner| ==> l in cancelled
      ensures running == old(running) - old(timers).Keys && flights == old(flights)
    {
      StopAll(timers.Keys);
      CancelTracks(old(View()), old(View()).current.Keys);
    }

    /** for id := range timers: Go's map iteration order is arbitrary. */
    method StopAll(gone: set<string>)
      requires InStep()
      modifies this`timers, this`cancels, this`running, this`cancelled, this`stopped
      ensures InStep() && View() == Cancel(old(View()), gone)
      ensures timers == old(timers) - gone && running == old(running) - gone
    {
      var todo, done := gone, {};
      while todo != {}
        invariant todo !! done && gone == todo + done && InStep()
        invariant View() == Cancel(old(View()), done)
        invariant timers == old(timers) - done && running == old(running) - done
        decreases todo
      {
        var id :| id in todo;
        todo := todo - {id};
        StopMonitor(id);
        CancelTwice(old(View()), done, id);
        MinusTwice(old(timers), done, id);
        MinusTwice(old(running), done, id);
        done := done + {id};
      }
    }
  }

  lemma MinusTwice<V>(m: map<string, V>, a: set<string>, id: string)
    ensures m - a - {id} == m - (a + {id})
  {
  }

  lemma IdsSnoc(ids: seq<string>, id: string)
    ensures Ids(ids + [id]) == Ids(ids) + {id}
  {
  }

  lemma CancelOne(s: Loops, id: string)
    ensures Cancel(s, {id})
      == Loops(s.current - {id}, s.owner, if id in s.current then s.cancelled + {s.current[id]} else s.cancelled)
  {
  }

  function MonitorIds(ms: seq<Monitor>): (r: seq<string>)
    ensures |r| == |ms| && forall i :: 0 <= i < |ms| ==> r[i] == ms[i].id
  {
    seq(|ms|, i requires 0 <= i < |ms| => ms[i].id)
  }

  lemma CancelTwice(s: Loops, a: set<string>, id: string)
    requires id !in a
    ensures Cancel(Cancel(s, a), {id}) == Cancel(s, a + {id})
  {
    var x, y := Cancel(Cancel(s, a), {id}), Cancel(s, a + {id});
    assert x.current == y.current;
    forall l | l in y.cancelled ensures l in x.cancelled {
      if l !in s.cancelled {
        var k :| k in s.current && k in a + {id} && s.current[k] == l;
        assert k in a || (k == id && k in Cancel(s, a).current);
      }
    }
    assert x.cancelled == y.cancelled;
  }

  // ---------- the running-flag guard ----------

  /** flights maps each goroutine past the guard of executeCheck to its monitor. */
  datatype Guard = Guard(running: map<string, bool>, flights: map<nat, string>)

  datatype Move =
    | Enter(g: nat, m: string)  // lock; test and set running[m]
    | Leave(g: nat)             // deferred: running[m] = false
    | Drop(m: string)           // stopMonitor: delete(running, m)

  predicate Flag(s: Guard, m: string) { m in s.running && s.running[m] }

  function Do(s: Guard, e: Move): Guard {
    match e
    case Enter(g, m) => if g in s.flights || Flag(s, m) then s else Guard(s.running[m := true], s.flights[g := m])
    case Leave(g) => if g !in s.flights then s else Guard(s.running[s.flights[g] := false], s.flights - {g})
    case Drop(m) => Guard(s.running - {m}, s.flights)
  }

  function Moves(es: seq<Move>): Guard {
    if es == [] then Guard(map[], map[]) else Do(Moves(es[..|es| - 1]), es[|es| - 1])
  }

  ghost predicate InFlight(s: Guard, m: string) { exists g :: g in s.flights && s.flights[g] == m }

  /** The flag of m is true exactly when a check of m is past the guard. */
  ghost predicate FlagExact(s: Guard, m: string) { Flag(s, m) <==> InFlight(s, m) }

  /** At most one check of m is past the guard. */
  ghost predicate Exclusive(s: Guard, m: string) {
    forall g, h :: g in s.flights && h in s.flights && s.flights[g] == m == s.flights[h] ==> g == h
  }

  /** No stopMonitor removes the flag of m while a check of m is in flight; other monitors may be stopped at will. */
  ghost predicate NoDropInFlight(es: seq<Move>, m: string) {
    forall i :: 0 <= i < |es| && es[i] == Drop(m) ==> !InFlight(Moves(es[..i]), m)
  }

  lemma EnterKeeps(s: Guard, g: nat, k: string, m: string)
    requires FlagExact(s, m) && Exclusive(s, m)
    ensures FlagExact(Do(s, Enter(g, k)), m) && Exclusive(Do(s, Enter(g, k)), m)
  {
    var t := Do(s, Enter(g, k));
    if t != s {
      assert t.flights[g] == k;
      if InFlight(s, m) {
        var h :| h in s.flights && s.flights[h] == m;
        assert h in t.flights && t.flights[h] == m;
      }
    }
  }

  lemma LeaveKeeps(s: Guard, g: nat, m: string)
    requires FlagExact(s, m) && Exclusive(s, m)
    ensures FlagExact(Do(s, Leave(g)), m) && Exclusive(Do(s, Leave(g)), m)
  {
    var t := Do(s, Leave(g));
    if g in s.flights && m != s.flights[g] && InFlight(s, m) {
      var h :| h in s.flights && s.flights[h] == m;
      assert h in t.flights && t.flights[h] == m;
    }
  }

  lemma DropKeeps(s: Guard, k: string, m: string)
    requires FlagExact(s, m) && Exclusive(s, m) && (k == m ==> !InFlight(s, m))
    ensures FlagExact(Do(s, Drop(k)), m) && Exclusive(Do(s, Drop(k)), m)
  {
    assert InFlight(Do(s, Drop(k)), m) <==> InFlight(s, m);
  }

  lemma NoDropPrefix(es: seq<Move>, m: string, i: nat)
    requires NoDropInFlight(es, m) && i <= |es|
    ensures NoDropInFlight(es[..i], m)
  {
    assert forall j :: 0 <= j < i ==> es[..i][..j] == es[..j] && es[..i][j] == es[j];
  }

  lemma {:induction false} GuardHolds(es: seq<Move>, m: string)
    requires NoDropInFlight(es, m)
    ensures FlagExact(Moves(es), m) && Exclusive(Moves(es), m)
  {
    if es != [] {
      var init := es[..|es| - 1];
      NoDropPrefix(es, m, |es| - 1);
      GuardHolds(init, m);
      match es[|es| - 1]
      case Enter(g, k) => EnterKeeps(Moves(init), g, k, m);
      case Leave(g) => LeaveKeeps(Moves(init), g, m);
      case Drop(k) => DropKeeps(Moves(init), k, m);
    }
  }

  ghost predicate AlwaysExact(es: seq<Move>, m: string) {
    forall i :: 0 <= i <= |es| ==> FlagExact(Moves(es[..i]), m)
  }

  /**
   The exact condition of the guard, monitor by monitor. For any interleaving of any number of checks and stops,
   the flag of m is true just when a check of m is in flight, at every moment of the run, if and only if no stop
   of m hit an in-flight check of m.
   */
  lemma FlagExactIffNoStopInFlight(es: seq<Move>, m: string)
    ensures AlwaysExact(es, m) <==> NoDropInFlight(es, m)
  {
    if NoDropInFlight(es, m) {
      forall i | 0 <= i <= |es| ensures FlagExact(Moves(es[..i]), m) {
        NoDropPrefix(es, m, i);
        GuardHolds(es[..i], m);
      }
    } else {
      var i :| 0 <= i < |es| && es[i] == Drop(m) && InFlight(Moves(es[..i]), m);
      assert es[..i + 1] == es[..i] + [Drop(m)];
      MovesSnoc(es[..i], Drop(m));
      assert InFlight(Moves(es[..i + 1]), m) && !Flag(Moves(es[..i + 1]), m);
    }
  }

  /** Mutual exclusion: without such a stop at most one check of m is ever past the guard. */
  lemma AtMostOneCheckInFlight(es: seq<Move>, m: string, g: nat, h: nat)
    requires NoDropInFlight(es, m)
    requires g in Moves(es).flights && h in Moves(es).flights && Moves(es).flights[g] == m == Moves(es).flights[h]
    ensures g == h
  {
    GuardHolds(es, m);
  }

  /**
   A free goroutine gets past the guard exactly when no check of its monitor is in flight: a finished check never
   bars a later one.
   */
  lemma AdmittedIffNoneInFlight(es: seq<Move>, m: string, g: nat)
    requires NoDropInFlight(es, m) && g !in Moves(es).flights
    ensures g in Moves(es + [Enter(g, m)]).flights <==> !InFlight(Moves(es), m)
    ensures !InFlight(Moves(es), m) ==> Moves(es + [Enter(g, m)]).flights == Moves(es).flights[g := m]
  {
    GuardHolds(es, m);
    MovesSnoc(es, Enter(g, m));
  }

  /** A check that finishes leaves nobody of its own behind, and everybody else's checks in flight. */
  lemma FinishedCheckIsGone(es: seq<Move>, g: nat)
    ensures Moves(es + [Leave(g)]).flights == Moves(es).flights - {g}
  {
    MovesSnoc(es, Leave(g));
    if g !in Moves(es).flights { assert Moves(es).flights - {g} == Moves(es).flights; }
  }

  /** Stopping a monitor ends no check that is in flight. */
  lemma StopEndsNoCheck(es: seq<Move>, m: string)
    ensures Moves(es + [Drop(m)]).flights == Moves(es).flights
  {
    MovesSnoc(es, Drop(m));
  }

  lemma MovesSnoc(es: seq<Move>, e: Move)
    ensures Moves(es + [e]) == Do(Moves(es), e)
  {
    assert (es + [e])[..|es|] == es;
  }

  /** With one, the next check of a restarted monitor runs beside the old one. */
  lemma StopInFlightAdmitsSecondCheck(es: seq<Move>, g: nat, h: nat, m: string)
    requires g in Moves(es).flights && Moves(es).flights[g] == m && h !in Moves(es).flights
    ensures !Exclusive(Moves(es + [Drop(m)] + [Enter(h, m)]), m)
  {
    var fs := es + [Drop(m)];
    MovesSnoc(es, Drop(m));
    MovesSnoc(fs, Enter(h, m));
    var t := Moves(fs + [Enter(h, m)]);
    assert g in t.flights && h in t.flights && t.flights[g] == t.flights[h];
  }

  lemma UnusedGoroutine(flights: map<nat, string>) returns (h: nat)
    ensures h !in flights
  {
    h := 0;
    var todo := flights.Keys;
    while todo != {}
      invariant todo <= flights.Keys && forall g :: g in flights.Keys && g !in todo ==> g < h
      decreases todo
    {
      var g :| g in todo;
      todo := todo - {g};
      if g >= h { h := g + 1; }
    }
  }

  /** At every moment, and whatever check tries to start next, at most one check of m is past the guard. */
  ghost predicate AlwaysExclusive(es: seq<Move>, m: string) {
    forall i, h :: 0 <= i <= |es| ==> Exclusive(Moves(es[..i] + [Enter(h, m)]), m)
  }

  /**
   The exact condition of mutual exclusion: m never has two checks past the guard, nor can it get a second one,
   if and only if no stop of m hit an in-flight check of m.
   */
  lemma ExclusiveIffNoStopInFlight(es: seq<Move>, m: string)
    ensures AlwaysExclusive(es, m) <==> NoDropInFlight(es, m)
  {
    if NoDropInFlight(es, m) {
      forall i, h | 0 <= i <= |es| ensures Exclusive(Moves(es[..i] + [Enter(h, m)]), m) {
        NoDropPrefix(es, m, i);
        GuardHolds(es[..i], m);
        MovesSnoc(es[..i], Enter(h, m));
        EnterKeeps(Moves(es[..i]), h, m, m);
      }
    } else {
      var i :| 0 <= i < |es| && es[i] == Drop(m) && InFlight(Moves(es[..i]), m);
      var g :| g in Moves(es[..i]).flights && Moves(es[..i]).flights[g] == m;
      var h := UnusedGoroutine(Moves(es[..i]).flights);
      StopInFlightAdmitsSecondCheck(es[..i], g, h, m);
      assert es[..i + 1] == es[..i] + [Drop(m)];
    }
  }

  // ---------- the retry loop ----------

  /** What one attempt returns: an error with no result, or a result. */
  datatype Attempt = Failed | Got(status: CheckStatus)

  /**
   The stored status is up exactly when some attempt within the budget was up; otherwise it is that of the
   last attempt, an error counting as down. No attempt is made after the first up.
   */
  method CheckWithRetries(retries: int, answer: nat -> Attempt) returns (status: CheckStatus, made: nat)
    ensures status.Up? <==> exists i: nat :: (i == 0 || i < retries) && answer(i) == Got(Up)
    ensures 1 <= made && (made == 1 || made <= retries) && forall i: nat :: i + 1 < made ==> answer(i) != Got(Up)
    ensures !status.Up? ==>
      && (made == retries || (made == 1 && retries < 1))
      && status == if answer(made - 1).Failed? then Down else answer(made - 1).status
  {
    var last := Failed;
    var attempts := retries;
    if attempts < 1 { attempts := 1; }
    made := 0;
    while made < attempts
      invariant 0 <= made <= attempts
      invariant forall i: nat :: i < made ==> answer(i) != Got(Up)
      invariant made > 0 ==> last == answer(made - 1)
      decreases attempts - made
    {
      last := answer(made);
      made := made + 1;
      if last == Got(Up) {
        return Up, made;
      }
    }
    status := if last.Failed? then Down else last.status;
  }
}
