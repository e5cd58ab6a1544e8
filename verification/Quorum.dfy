/** The quorum rule of internal/consensus/evaluator.go and what it promises about two quorums. */
module Quorum {
  import opened Model

  function EvaluateQuorum(quorumType: QuorumType, quorumN: int, failCount: nat, totalCount: nat): bool {
    match quorumType
    case Majority => failCount > totalCount / 2
    case NOfM => failCount >= quorumN
    case OtherQuorum(_) => failCount > totalCount / 2
  }

  predicate Met(mon: Monitor, count: nat, total: nat) {
    EvaluateQuorum(mon.quorumType, mon.quorumN, count, total)
  }

  /** The smallest count that meets the rule. */
  function Need(mon: Monitor, total: nat): nat {
    if !mon.quorumType.NOfM? then total / 2 + 1 else if mon.quorumN > 0 then mon.quorumN else 0
  }

  /** Any two quorums of the same total overlap; always so for a majority rule. */
  predicate Overlapping(mon: Monitor, total: nat) {
    2 * Need(mon, total) > total
  }

  /** The rule is a threshold rule: adding confirming nodes never withdraws a verdict. */
  lemma MetIffAtLeastNeed(mon: Monitor, count: nat, total: nat)
    ensures Met(mon, count, total) <==> count >= Need(mon, total)
    ensures !mon.quorumType.NOfM? ==> Overlapping(mon, total) && (Met(mon, count, total) <==> 2 * count > total)
    ensures mon.quorumType.NOfM? ==> (Met(mon, count, total) <==> count >= mon.quorumN)
  {
  }

  /**
   README.md promises that a recovery needs a majority. The code applies the monitor's own rule to
   recoveries too, so the promise holds for a total exactly when the rule's quorums overlap.
   */
  lemma RecoveryNeedsMajorityIffOverlapping(mon: Monitor, total: nat)
    ensures (forall count: nat :: count <= total && Met(mon, count, total) ==> 2 * count > total)
            <==> Overlapping(mon, total)
  {
    MetIffAtLeastNeed(mon, Need(mon, total), total);
    if !Overlapping(mon, total) {
      var count := Need(mon, total);
      assert count <= total && Met(mon, count, total) && !(2 * count > total);
    }
  }

  function Elements<T(==)>(s: seq<T>): set<T> {
    set x | x in s
  }

  lemma ElementsConcat<T>(a: seq<T>, b: seq<T>)
    ensures Elements(a + b) == Elements(a) + Elements(b)
  {
    forall x | x in Elements(a) + Elements(b) ensures x in a + b {}
  }

  lemma {:induction false} NoDupSize<T>(s: seq<T>)
    requires NoDup(s)
    ensures |Elements(s)| == |s|
  {
    if s != [] {
      var init, last := s[..|s| - 1], s[|s| - 1];
      NoDupSize(init);
      assert Elements(s) == Elements(init) + {last};
      assert last !in Elements(init);
    }
  }

  lemma SubsetSize<T>(a: set<T>, b: set<T>)
    requires a <= b
    ensures |a| <= |b|
  {
    assert b == a + (b - a);
  }

  /** Two duplicate-free lists whose lengths exceed the union they come from share an element. */
  lemma QuorumsIntersect<T>(a: seq<T>, b: seq<T>, all: set<T>) returns (x: T)
    requires NoDup(a) && NoDup(b)
    requires Elements(a) <= all && Elements(b) <= all
    requires |a| + |b| > |all|
    ensures x in a && x in b
  {
    NoDupSize(a);
    NoDupSize(b);
    var s, t := Elements(a), Elements(b);
    if s * t == {} {
      assert |s + t| == |s| + |t|;
      SubsetSize(s + t, all);
      assert false;
    }
    x :| x in s * t;
  }
}
