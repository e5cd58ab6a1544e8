/**
 The two streak queries of internal/store/sqlite.go. A query selects the rows of one (monitor, node)
 pair, orders them by timestamp, newest first, and keeps at most 100. SQL leaves the order of rows
 with equal timestamps open, so the query is a relation; it becomes a function exactly where the
 theorems below say so.
 */
module Streaks {
  import opened Model

  const LIMIT: nat := 100

  predicate Mine(r: CheckResult, m: string, n: string) {
    r.monitorID == m && r.nodeID == n
  }

  /** WHERE monitor_id = m AND node_id = n, in insertion order. */
  function Select(log: seq<CheckResult>, m: string, n: string): seq<CheckResult> {
    if log == [] then []
    else
      var rest := Select(log[..|log| - 1], m, n);
      var r := log[|log| - 1];
      if Mine(r, m, n) then rest + [r] else rest
  }

  ghost predicate SortedNewestFirst(rows: seq<CheckResult>) {
    forall i, j :: 0 <= i < j < |rows| ==> rows[i].timestamp >= rows[j].timestamp
  }

  /** rows is an answer the database may give before LIMIT is applied. */
  ghost predicate IsNewestFirst(log: seq<CheckResult>, m: string, n: string, rows: seq<CheckResult>) {
    multiset(rows) == multiset(Select(log, m, n)) && SortedNewestFirst(rows)
  }

  function Limit(rows: seq<CheckResult>): seq<CheckResult> {
    if |rows| <= LIMIT then rows else rows[..LIMIT]
  }

  /** Length of the leading run of up results (up) or of non-up results (!up). */
  function Streak(rows: seq<CheckResult>, up: bool): nat {
    if rows == [] || rows[0].status.Up? != up then 0 else 1 + Streak(rows[1..], up)
  }

  /** What the counting loop answers on the rows of a query. */
  function Counted(rows: seq<CheckResult>, up: bool): nat {
    Streak(Limit(rows), up)
  }

  // ---------- the counting loop ----------

  /** Streak is the length of the longest uniform prefix. */
  lemma {:induction false} StreakIsLongestPrefix(rows: seq<CheckResult>, up: bool)
    ensures Streak(rows, up) <= |rows|
    ensures forall i :: 0 <= i < Streak(rows, up) ==> rows[i].status.Up? == up
    ensures Streak(rows, up) < |rows| ==> rows[Streak(rows, up)].status.Up? != up
  {
    if rows != [] && rows[0].status.Up? == up {
      StreakIsLongestPrefix(rows[1..], up);
      forall i | 0 <= i < Streak(rows, up) ensures rows[i].status.Up? == up {
        if i > 0 { assert rows[i] == rows[1..][i - 1]; }
      }
    }
  }

  /** A uniform prefix of length k bounds the streak from below. */
  lemma {:induction false} StreakAtLeast(rows: seq<CheckResult>, up: bool, k: nat)
    requires k <= |rows| && forall i :: 0 <= i < k ==> rows[i].status.Up? == up
    ensures Streak(rows, up) >= k
  {
    if k > 0 { StreakAtLeast(rows[1..], up, k - 1); }
  }

  /** The loop under LIMIT 100 answers the true streak, capped at 100. */
  lemma CountedIsCappedStreak(rows: seq<CheckResult>, up: bool)
    ensures Counted(rows, up) == if Streak(rows, up) <= 100 then Streak(rows, up) else 100
  {
    var l, c, s := Limit(rows), Counted(rows, up), Streak(rows, up);
    StreakIsLongestPrefix(rows, up);
    StreakIsLongestPrefix(l, up);
    StreakAtLeast(l, up, if s <= |l| then s else |l|);
    StreakAtLeast(rows, up, c);
  }

  /** What a count says about the answer it was taken from: it stops at a row of the other polarity, the end, or 100. */
  lemma CountReads(rows: seq<CheckResult>, up: bool)
    ensures Counted(rows, up) <= |rows| && Counted(rows, up) <= 100
    ensures forall i :: 0 <= i < Counted(rows, up) ==> rows[i].status.Up? == up
    ensures Counted(rows, up) < |rows| && Counted(rows, up) < 100 ==> rows[Counted(rows, up)].status.Up? != up
  {
    CountedIsCappedStreak(rows, up);
    StreakIsLongestPrefix(rows, up);
  }

  /** An answer holds exactly the results of the pair, as often as the log does, newest first. */
  lemma AnswerReads(log: seq<CheckResult>, m: string, n: string, rows: seq<CheckResult>)
    requires IsNewestFirst(log, m, n, rows)
    ensures forall r: CheckResult ::
      multiset(rows)[r] == if r.monitorID == m && r.nodeID == n then multiset(log)[r] else 0
    ensures forall i, j :: 0 <= i < j < |rows| ==> rows[i].timestamp >= rows[j].timestamp
  {
    forall r: CheckResult
      ensures multiset(rows)[r] == if r.monitorID == m && r.nodeID == n then multiset(log)[r] else 0
    {
      SelectCounts(log, m, n, r);
    }
  }

  /** A streak of length t exists for every t. */
  lemma LongStreakExists(t: nat, up: bool) returns (rows: seq<CheckResult>)
    ensures Streak(rows, up) == t
  {
    rows := seq(t, i => CheckResult("m", "n", if up then Up else Down, -i));
    StreakAtLeast(rows, up, t);
    StreakIsLongestPrefix(rows, up);
  }

  ghost predicate CapHarmless(threshold: int, up: bool) {
    forall rows :: Counted(rows, up) >= threshold <==> Streak(rows, up) >= threshold
  }

  /** The LIMIT is harmless for a threshold exactly when the threshold is at most 100. */
  lemma CapHarmlessIffThresholdAtMostLimit(threshold: int, up: bool)
    ensures CapHarmless(threshold, up) <==> threshold <= 100
  {
    if threshold <= LIMIT {
      forall rows ensures Counted(rows, up) >= threshold <==> Streak(rows, up) >= threshold {
        CountedIsCappedStreak(rows, up);
      }
    } else {
      var rows := LongStreakExists(threshold, up);
      CountedIsCappedStreak(rows, up);
      assert !(Counted(rows, up) >= threshold <==> Streak(rows, up) >= threshold);
    }
  }

  /** With at least one result, exactly one of the two counts is positive. */
  lemma ExactlyOneCountPositive(rows: seq<CheckResult>)
    requires rows != []
    ensures (Counted(rows, true) > 0) != (Counted(rows, false) > 0)
  {
    assert Limit(rows)[0] == rows[0];
  }

  // ---------- the selection ----------

  lemma {:induction false} SelectAppend(a: seq<CheckResult>, b: seq<CheckResult>, m: string, n: string)
    ensures Select(a + b, m, n) == Select(a, m, n) + Select(b, m, n)
  {
    if b == [] {
      assert a + b == a;
    } else {
      var k := |b| - 1;
      assert (a + b)[..|a + b| - 1] == a + b[..k];
      SelectAppend(a, b[..k], m, n);
    }
  }

  lemma {:induction false} SelectCounts(log: seq<CheckResult>, m: string, n: string, r: CheckResult)
    ensures multiset(Select(log, m, n))[r] == if Mine(r, m, n) then multiset(log)[r] else 0
  {
    if log != [] {
      SelectCounts(log[..|log| - 1], m, n, r);
      assert log == log[..|log| - 1] + [log[|log| - 1]];
    }
  }

  // ---------- the order ----------

  function Insert(r: CheckResult, rows: seq<CheckResult>): seq<CheckResult> {
    if rows == [] || r.timestamp >= rows[0].timestamp then [r] + rows else [rows[0]] + Insert(r, rows[1..])
  }

  function Newest(rows: seq<CheckResult>): seq<CheckResult> {
    if rows == [] then [] else Insert(rows[|rows| - 1], Newest(rows[..|rows| - 1]))
  }

  ghost predicate AtMost(rows: seq<CheckResult>, bound: int) {
    forall i :: 0 <= i < |rows| ==> rows[i].timestamp <= bound
  }

  lemma {:induction false} InsertKeepsOrder(r: CheckResult, rows: seq<CheckResult>, bound: int)
    requires SortedNewestFirst(rows) && AtMost(rows, bound) && r.timestamp <= bound
    ensures SortedNewestFirst(Insert(r, rows)) && AtMost(Insert(r, rows), bound)
  {
    if rows != [] && r.timestamp < rows[0].timestamp {
      InsertKeepsOrder(r, rows[1..], rows[0].timestamp);
    }
  }

  lemma {:induction false} InsertKeepsRows(r: CheckResult, rows: seq<CheckResult>)
    ensures multiset(Insert(r, rows)) == multiset(rows) + multiset{r}
  {
    if rows != [] {
      assert rows == [rows[0]] + rows[1..];
      if r.timestamp < rows[0].timestamp { InsertKeepsRows(r, rows[1..]); }
    }
  }

  /** The database always has an answer. */
  lemma {:induction false} NewestSorts(rows: seq<CheckResult>)
    ensures multiset(Newest(rows)) == multiset(rows) && SortedNewestFirst(Newest(rows))
  {
    if rows != [] {
      NewestSorts(rows[..|rows| - 1]);
      var r, rest := rows[|rows| - 1], Newest(rows[..|rows| - 1]);
      InsertKeepsRows(r, rest);
      var bound := if rest == [] || r.timestamp >= rest[0].timestamp then r.timestamp else rest[0].timestamp;
      InsertKeepsOrder(r, rest, bound);
      assert rows == rows[..|rows| - 1] + [rows[|rows| - 1]];
    }
  }

  /** Timestamps are distinct per (monitor, node). */
  ghost predicate DistinctStamps(log: seq<CheckResult>) {
    forall i, j :: 0 <= i < j < |log| && Mine(log[j], log[i].monitorID, log[i].nodeID)
      ==> log[i].timestamp != log[j].timestamp
  }

  /** The same for the results of one monitor; what other monitors report is immaterial. */
  ghost predicate DistinctStampsOf(log: seq<CheckResult>, m: string) {
    forall i, j :: 0 <= i < j < |log| && log[i].monitorID == m && Mine(log[j], m, log[i].nodeID)
      ==> log[i].timestamp != log[j].timestamp
  }

  ghost predicate DistinctRows(rows: multiset<CheckResult>) {
    && (forall r :: r in rows ==> rows[r] == 1)
    && (forall r, q :: r in rows && q in rows && r.timestamp == q.timestamp ==> r == q)
  }

  lemma {:induction false} SelectDistinct(log: seq<CheckResult>, m: string, n: string)
    requires DistinctStampsOf(log, m)
    ensures DistinctRows(multiset(Select(log, m, n)))
  {
    if log != [] {
      var init, last := log[..|log| - 1], log[|log| - 1];
      SelectDistinct(init, m, n);
      if Mine(last, m, n) {
        forall r | r in multiset(Select(init, m, n)) ensures r.timestamp != last.timestamp {
          SelectCounts(init, m, n, r);
          assert r in init;
        }
      }
    }
  }

  lemma HeadIsNewest(a: seq<CheckResult>, r: CheckResult)
    requires a != [] && SortedNewestFirst(a) && r in multiset(a)
    ensures a[0].timestamp >= r.timestamp
  {
    var k :| 0 <= k < |a| && a[k] == r;
  }

  ghost predicate StrictlyNewestFirst(rows: seq<CheckResult>) {
    forall i, j :: 0 <= i < j < |rows| ==> rows[i].timestamp > rows[j].timestamp
  }

  lemma SortedDistinctIsStrict(a: seq<CheckResult>)
    requires SortedNewestFirst(a) && DistinctRows(multiset(a))
    ensures StrictlyNewestFirst(a)
  {
    forall i, j | 0 <= i < j < |a| ensures a[i].timestamp > a[j].timestamp {
      assert a[i] in multiset(a) && a[j] in multiset(a);
      assert a == a[..j] + [a[j]] + a[j + 1..];
      assert a[..j][i] == a[i];
    }
  }

  lemma TailMultiset(a: seq<CheckResult>)
    requires a != []
    ensures multiset(a[1..]) == multiset(a) - multiset{a[0]}
  {
    assert a == [a[0]] + a[1..];
  }

  lemma HeadsAgree(a: seq<CheckResult>, b: seq<CheckResult>)
    requires a != [] && b != [] && StrictlyNewestFirst(a) && StrictlyNewestFirst(b)
    requires multiset(a) == multiset(b)
    ensures a[0] == b[0]
  {
    assert a[0] in multiset(b) && b[0] in multiset(a);
    HeadIsNewest(a, b[0]);
    HeadIsNewest(b, a[0]);
  }

  lemma {:induction false} SortedUnique(a: seq<CheckResult>, b: seq<CheckResult>)
    requires StrictlyNewestFirst(a) && StrictlyNewestFirst(b) && multiset(a) == multiset(b)
    ensures a == b
  {
    assert |multiset(a)| == |a| && |multiset(b)| == |b|;
    if a != [] {
      HeadsAgree(a, b);
      TailMultiset(a);
      TailMultiset(b);
      SortedUnique(a[1..], b[1..]);
      assert a == [a[0]] + a[1..] && b == [b[0]] + b[1..];
    }
  }

  /**
   Delivery order is irrelevant: two logs holding the same results in any order give the same query
   answer, whatever way the database breaks ties.
   */
  lemma DeliveryOrderIrrelevant(
    log: seq<CheckResult>, log': seq<CheckResult>, m: string, n: string, rows: seq<CheckResult>,
    rows': seq<CheckResult>)
    requires DistinctStampsOf(log, m) && multiset(log) == multiset(log')
    requires IsNewestFirst(log, m, n, rows) && IsNewestFirst(log', m, n, rows')
    ensures rows == rows'
  {
    forall r ensures multiset(Select(log, m, n))[r] == multiset(Select(log', m, n))[r] {
      SelectCounts(log, m, n, r);
      SelectCounts(log', m, n, r);
    }
    assert multiset(Select(log, m, n)) == multiset(Select(log', m, n));
    SelectDistinct(log, m, n);
    SortedDistinctIsStrict(rows);
    SortedDistinctIsStrict(rows');
    SortedUnique(rows, rows');
  }

  lemma SelectPair(a: CheckResult, b: CheckResult)
    requires Mine(b, a.monitorID, a.nodeID)
    ensures Select([a] + [b], a.monitorID, a.nodeID) == [a] + [b]
  {
    SelectAppend([a], [b], a.monitorID, a.nodeID);
    assert Select([a], a.monitorID, a.nodeID) == [a];
    assert Select([b], a.monitorID, a.nodeID) == [b];
  }

  lemma SwappedPair(a: CheckResult, b: CheckResult)
    ensures multiset([b] + [a]) == multiset([a] + [b])
  {
  }

  /** The answer to a two-row query lists either row first when neither is older. */
  lemma PairIsAnswer(a: CheckResult, b: CheckResult)
    requires Mine(b, a.monitorID, a.nodeID) && b.timestamp >= a.timestamp
    ensures IsNewestFirst([a] + [b], a.monitorID, a.nodeID, [b] + [a])
    ensures a.timestamp == b.timestamp ==> IsNewestFirst([a] + [b], a.monitorID, a.nodeID, [a] + [b])
  {
    SelectPair(a, b);
    SwappedPair(a, b);
    SortedPair(a, b);
    SortedPair(b, a);
  }

  lemma SortedPair(a: CheckResult, b: CheckResult)
    ensures a.timestamp >= b.timestamp ==> SortedNewestFirst([a] + [b])
  {
    assert [a] + [b] == [a, b];
  }

  /** The newest row alone decides whether a count is positive. */
  lemma HeadDecides(rows: seq<CheckResult>, up: bool)
    requires rows != []
    ensures Counted(rows, up) >= 1 <==> rows[0].status.Up? == up
  {
    assert Limit(rows)[0] == rows[0];
  }

  /** Distinctness is what it takes: two results with one timestamp can be answered in two orders. */
  lemma TieMakesTheCountAmbiguous(u: CheckResult, d: CheckResult)
    requires u.status.Up? && !d.status.Up? && u.timestamp == d.timestamp && Mine(d, u.monitorID, u.nodeID)
    ensures IsNewestFirst([u] + [d], u.monitorID, u.nodeID, [u] + [d]) && Counted([u] + [d], false) == 0
    ensures IsNewestFirst([u] + [d], u.monitorID, u.nodeID, [d] + [u]) && Counted([d] + [u], false) >= 1
  {
    PairIsAnswer(u, d);
    HeadDecides([u] + [d], false);
    HeadDecides([d] + [u], false);
  }

  // ---------- fresh results between two counts ----------

  /** Results of (m, n) with the given polarity among rows. */
  function Matching(rows: seq<CheckResult>, m: string, n: string, up: bool): seq<CheckResult> {
    if rows == [] then []
    else
      var rest := Matching(rows[..|rows| - 1], m, n, up);
      var r := rows[|rows| - 1];
      if Mine(r, m, n) && r.status.Up? == up then rest + [r] else rest
  }

  lemma {:induction false} MatchingCounts(rows: seq<CheckResult>, m: string, n: string, up: bool, r: CheckResult)
    ensures multiset(Matching(rows, m, n, up))[r]
         == if Mine(r, m, n) && r.status.Up? == up then multiset(rows)[r] else 0
  {
    if rows != [] {
      MatchingCounts(rows[..|rows| - 1], m, n, up, r);
      assert rows == rows[..|rows| - 1] + [rows[|rows| - 1]];
    }
  }

  /**
   The flip lemma. A pair counted with one polarity when the log held p results, and with a streak of
   at least t of the other polarity when it held q results, received at least t results of the other
   polarity in between - whatever order results arrived in.
   */
  lemma FlipNeedsFreshResults(
    log: seq<CheckResult>, m: string, n: string, p: nat, q: nat,
    before: seq<CheckResult>, after: seq<CheckResult>, up: bool, t: nat)
    requires p <= q <= |log| && DistinctStampsOf(log, m)
    requires IsNewestFirst(log[..p], m, n, before) && IsNewestFirst(log[..q], m, n, after)
    requires Counted(before, !up) >= 1 && Counted(after, up) >= t
    ensures |set i: nat | p <= i < q && log[i].monitorID == m && log[i].nodeID == n && log[i].status.Up? == up| >= t
  {
    CountedIsCappedStreak(after, up);
    StreakIsLongestPrefix(after, up);
    StreakIsLongestPrefix(Limit(before), !up);
    forall r ensures multiset(after[..t])[r] <= multiset(Matching(log[p..q], m, n, up))[r] {
      TopRowsAreAmongTheFresh(log, m, n, p, q, before, after, up, t, r);
    }
    SubMultisetSize(multiset(after[..t]), multiset(Matching(log[p..q], m, n, up)));
    MatchingAtPlaces(log, p, q, m, n, up);
  }

  ghost function Places(log: seq<CheckResult>, p: nat, q: nat, m: string, n: string, up: bool): set<nat>
    requires p <= q <= |log|
  {
    set i: nat | p <= i < q && log[i].monitorID == m && log[i].nodeID == n && log[i].status.Up? == up
  }

  lemma PlacesStep(log: seq<CheckResult>, p: nat, q: nat, m: string, n: string, up: bool)
    requires p < q <= |log|
    ensures Places(log, p, q, m, n, up)
         == Places(log, p, q - 1, m, n, up)
            + if Mine(log[q - 1], m, n) && log[q - 1].status.Up? == up then {q - 1} else {}
  {
  }

  /** The matching results, counted by their places in the log. */
  lemma {:induction false} MatchingAtPlaces(log: seq<CheckResult>, p: nat, q: nat, m: string, n: string, up: bool)
    requires p <= q <= |log|
    ensures |Matching(log[p..q], m, n, up)| == |Places(log, p, q, m, n, up)|
  {
    if p < q {
      MatchingAtPlaces(log, p, q - 1, m, n, up);
      assert log[p..q][..q - p - 1] == log[p..q - 1];
      PlacesStep(log, p, q, m, n, up);
      assert q - 1 !in Places(log, p, q - 1, m, n, up);
    }
  }

  lemma TopRowsAreAmongTheFresh(
    log: seq<CheckResult>, m: string, n: string, p: nat, q: nat,
    before: seq<CheckResult>, after: seq<CheckResult>, up: bool, t: nat, r: CheckResult)
    requires p <= q <= |log| && DistinctStampsOf(log, m) && t <= |after|
    requires IsNewestFirst(log[..p], m, n, before) && IsNewestFirst(log[..q], m, n, after)
    requires before != [] && before[0].status.Up? != up
    requires forall i :: 0 <= i < t ==> after[i].status.Up? == up
    ensures multiset(after[..t])[r] <= multiset(Matching(log[p..q], m, n, up))[r]
  {
    if r in multiset(after[..t]) {
      var j :| 0 <= j < t && after[..t][j] == r;
      TopRowIsFresh(log, m, n, p, q, before, after, up, t, j);
      MatchingCounts(log[p..q], m, n, up, r);
      SelectCounts(log[..q], m, n, r);
      FreshMultiplicity(log, p, q, r);
      PrefixMultiplicity(after, t, r);
    }
  }

  lemma FreshMultiplicity(log: seq<CheckResult>, p: nat, q: nat, r: CheckResult)
    requires p <= q <= |log| && r !in log[..p]
    ensures multiset(log[..q])[r] == multiset(log[p..q])[r]
  {
    assert log[..q] == log[..p] + log[p..q];
  }

  lemma PrefixMultiplicity(rows: seq<CheckResult>, t: nat, r: CheckResult)
    requires t <= |rows|
    ensures multiset(rows[..t])[r] <= multiset(rows)[r]
  {
    assert rows == rows[..t] + rows[t..];
  }

  lemma SelectedIffMine(log: seq<CheckResult>, m: string, n: string, rows: seq<CheckResult>, r: CheckResult)
    requires IsNewestFirst(log, m, n, rows)
    ensures r in rows <==> Mine(r, m, n) && r in log
  {
    SelectCounts(log, m, n, r);
    assert r in multiset(rows) <==> r in rows;
    assert r in multiset(log) <==> r in log;
  }

  /** The newest row of the earlier count is still in the later answer, below the new streak. */
  lemma OldHeadIsBelow(
    log: seq<CheckResult>, m: string, n: string, p: nat, q: nat,
    before: seq<CheckResult>, after: seq<CheckResult>, up: bool, t: nat, j: nat)
    requires p <= q <= |log| && j < t <= |after|
    requires IsNewestFirst(log[..p], m, n, before) && IsNewestFirst(log[..q], m, n, after)
    requires before != [] && before[0].status.Up? != up
    requires forall i :: 0 <= i < t ==> after[i].status.Up? == up
    ensures before[0] in after && after[j].timestamp >= before[0].timestamp
  {
    var x := before[0];
    SelectedIffMine(log[..p], m, n, before, x);
    assert log[..p] == log[..q][..p];
    SelectedIffMine(log[..q], m, n, after, x);
    var k :| 0 <= k < |after| && after[k] == x;
  }

  /** No row of the new streak was already in the log at the earlier count. */
  lemma TopRowIsFresh(
    log: seq<CheckResult>, m: string, n: string, p: nat, q: nat,
    before: seq<CheckResult>, after: seq<CheckResult>, up: bool, t: nat, j: nat)
    requires p <= q <= |log| && DistinctStampsOf(log, m) && j < t <= |after|
    requires IsNewestFirst(log[..p], m, n, before) && IsNewestFirst(log[..q], m, n, after)
    requires before != [] && before[0].status.Up? != up
    requires forall i :: 0 <= i < t ==> after[i].status.Up? == up
    ensures after[j] !in log[..p] && Mine(after[j], m, n)
  {
    var x, r := before[0], after[j];
    OldHeadIsBelow(log, m, n, p, q, before, after, up, t, j);
    SelectedIffMine(log[..q], m, n, after, r);
    SelectedIffMine(log[..p], m, n, before, r);
    SameStampSameRow(log, m, n, q, after, r, x);
    if r in log[..p] {
      HeadIsNewest(before, r);
      assert false;
    }
  }

  lemma SameStampSameRow(
      log: seq<CheckResult>, m: string, n: string, q: nat, rows: seq<CheckResult>, r: CheckResult, x: CheckResult)
    requires q <= |log| && DistinctStampsOf(log, m) && IsNewestFirst(log[..q], m, n, rows) && r in rows && x in rows
    ensures r.timestamp == x.timestamp ==> r == x
  {
    assert DistinctStampsOf(log[..q], m);
    SelectDistinct(log[..q], m, n);
    assert r in multiset(rows) && x in multiset(rows);
  }

  lemma SubMultisetSize<T>(a: multiset<T>, b: multiset<T>)
    requires forall x :: a[x] <= b[x]
    ensures |a| <= |b|
  {
    assert b == a + (b - a);
  }
}
