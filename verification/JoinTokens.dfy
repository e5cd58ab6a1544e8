/** Join tokens: issued once, consumed at most once, and never outnumbered by the nodes they admit. */
module JoinTokens {

  datatype Token = Token(expiresAt: int, used: bool)

  /** INSERT; a second token with the same hash violates the primary key. */
  function Issue(t: map<string, Token>, hash: string, expiresAt: int): map<string, Token> {
    if hash in t then t else t[hash := Token(expiresAt, false)]
  }

  predicate Valid(t: map<string, Token>, hash: string, now: int) {
    hash in t && !t[hash].used && t[hash].expiresAt > now
  }

  function Consume(t: map<string, Token>, hash: string, now: int): map<string, Token> {
    if Valid(t, hash, now) then t[hash := t[hash].(used := true)] else t
  }

  class TokenStore {
    var tokens: map<string, Token>

    constructor ()
      ensures tokens == map[]
    {
      tokens := map[];
    }

    method StoreJoinToken(fault: bool, hash: string, expiresAt: int) returns (ok: bool)
      modifies this
      ensures ok <==> !fault && hash !in old(tokens)
      ensures tokens == if ok then Issue(old(tokens), hash, expiresAt) else old(tokens)
      ensures ok ==> tokens == old(tokens)[hash := Token(expiresAt, false)]
    {
      ok := !fault && hash !in tokens;
      if ok { tokens := tokens[hash := Token(expiresAt, false)]; }
    }

    /**
     One UPDATE ... WHERE used = 0 AND expires_at > now; the answer is whether a row was affected. The call may
     fail before the update, or lose the number of affected rows after it: then the token is spent all the same.
     */
    method ValidateAndConsumeToken(
        fault: bool, answerLost: bool, hash: string, now: int)
        returns (ok: bool, valid: bool)
      modifies this
      ensures ok <==> !fault && !answerLost
      ensures tokens == if fault then old(tokens) else Consume(old(tokens), hash, now)
      ensures valid <==> ok && Valid(old(tokens), hash, now)
      ensures ok ==>
        (valid <==> hash in old(tokens) && !old(tokens)[hash].used && now < old(tokens)[hash].expiresAt)
      ensures !fault && hash in old(tokens) && now < old(tokens)[hash].expiresAt ==>
        tokens == old(tokens)[hash := Token(old(tokens)[hash].expiresAt, true)]
      ensures fault || hash !in old(tokens) || now >= old(tokens)[hash].expiresAt ==> tokens == old(tokens)
    {
      ok, valid := false, false;
      if fault { return; }
      var affected := hash in tokens && !tokens[hash].used && tokens[hash].expiresAt > now;
      if affected { tokens := tokens[hash := tokens[hash].(used := true)]; }
      if answerLost { return; }
      ok, valid := true, affected;
    }
  }

  // ---------- runs: any interleaving of issuing and of the steps of any number of join requests ----------

  datatype Phase = Admitted | Joined(nodeID: string) | Dropped

  /** A join request whose token was answered true: handlePeerJoin past its validation. */
  datatype Request = Request(hash: string, now: int, phase: Phase)

  /**
   joined files the nodes created by joins under their id, with the request that created them; others are the other
   nodes.
   */
  datatype State = State(
    tokens: map<string, Token>, requests: seq<Request>, joined: map<string, nat>, others: set<string>)

  datatype Event =
    | Issued(hash: string, expiresAt: int)
    | Validated(hash: string, now: int, answerLost: bool) // a request arrives: its first step
    | NodeCreated(r: nat, nodeID: string, fault: bool)    // request r, last step: CreateNode under a generated id
    | Abandoned(r: nat)                                   // request r fails in between (certificates, crash)
    | NodeAdded(nodeID: string)                           // nodes that do not come from joins
    | NodeDeleted(nodeID: string)

  predicate Pending(s: State, r: nat) {
    r < |s.requests| && s.requests[r].phase.Admitted?
  }

  function End(s: State, r: nat, phase: Phase): seq<Request>
    requires r < |s.requests|
  {
    s.requests[r := s.requests[r].(phase := phase)]
  }

  function Step(s: State, e: Event): State {
    match e
    case Issued(h, x) => s.(tokens := Issue(s.tokens, h, x))
    case Validated(h, now, answerLost) =>
      if !Valid(s.tokens, h, now) then s
      else if answerLost then s.(tokens := Consume(s.tokens, h, now))
      else s.(tokens := Consume(s.tokens, h, now), requests := s.requests + [Request(h, now, Admitted)])
    case NodeCreated(r, id, fault) =>
      if !Pending(s, r) then s
      else if fault || id in s.joined || id in s.others then s.(requests := End(s, r, Dropped))
      else s.(requests := End(s, r, Joined(id)), joined := s.joined[id := r])
    case Abandoned(r) => if Pending(s, r) then s.(requests := End(s, r, Dropped)) else s
    case NodeAdded(id) => if id in s.joined then s else s.(others := s.others + {id})
    case NodeDeleted(id) => s.(joined := s.joined - {id}, others := s.others - {id})
  }

  function Run(others: set<string>, es: seq<Event>): State {
    if es == [] then State(map[], [], map[], others) else Step(Run(others, es[..|es| - 1]), es[|es| - 1])
  }

  function Used(t: map<string, Token>): set<string> {
    set h | h in t && t[h].used
  }

  /** Each request spent its own token, before its expiry. */
  ghost predicate RequestsPaid(s: State) {
    && (forall i, j :: 0 <= i < j < |s.requests| ==> s.requests[i].hash != s.requests[j].hash)
    && (forall i :: 0 <= i < |s.requests| ==> Paid(s.tokens, s.requests[i]))
  }

  ghost predicate Paid(t: map<string, Token>, q: Request) {
    q.hash in t && t[q.hash].used && q.now < t[q.hash].expiresAt
  }

  /** Each joined node was created by the request that is filed with it. */
  ghost predicate NodesTraced(s: State) {
    forall id :: id in s.joined ==> s.joined[id] < |s.requests| && s.requests[s.joined[id]].phase == Joined(id)
  }

  /** e loses the true answer to a token that is valid at s. */
  predicate LosesAnswer(s: State, e: Event) {
    e.Validated? && e.answerLost && Valid(s.tokens, e.hash, e.now)
  }

  function LostAnswers(others: set<string>, es: seq<Event>): nat {
    if es == [] then 0
    else
      var init := es[..|es| - 1];
      LostAnswers(others, init) + if LosesAnswer(Run(others, init), es[|es| - 1]) then 1 else 0
  }

  ghost predicate NoAnswerLost(others: set<string>, es: seq<Event>) {
    forall i :: 0 <= i < |es| ==> !LosesAnswer(Run(others, es[..i]), es[i])
  }

  lemma NoAnswerLostSnoc(others: set<string>, es: seq<Event>, e: Event)
    ensures NoAnswerLost(others, es + [e]) <==> NoAnswerLost(others, es) && !LosesAnswer(Run(others, es), e)
  {
    var es' := es + [e];
    assert es'[..|es|] == es && es'[|es|] == e;
    assert forall i :: 0 <= i < |es| ==> es'[..i] == es[..i] && es'[i] == es[i];
  }

  lemma LostAnswersSnoc(others: set<string>, es: seq<Event>, e: Event)
    ensures LostAnswers(others, es + [e]) == LostAnswers(others, es) + if LosesAnswer(Run(others, es), e) then 1 else 0
  {
    assert (es + [e])[..|es|] == es;
  }

  lemma CountsSnoc(others: set<string>, es: seq<Event>, e: Event)
    requires LostAnswers(others, es) == 0 <==> NoAnswerLost(others, es)
    ensures LostAnswers(others, es + [e]) == 0 <==> NoAnswerLost(others, es + [e])
  {
    LostAnswersSnoc(others, es, e);
    NoAnswerLostSnoc(others, es, e);
  }

  lemma {:induction false} CountsLostAnswers(others: set<string>, es: seq<Event>)
    ensures LostAnswers(others, es) == 0 <==> NoAnswerLost(others, es)
  {
    if es != [] {
      CountsLostAnswers(others, es[..|es| - 1]);
      CountsSnoc(others, es[..|es| - 1], es[|es| - 1]);
      assert es[..|es| - 1] + [es[|es| - 1]] == es;
    }
  }

  ghost predicate Conserved(s: State) {
    RequestsPaid(s) && NodesTraced(s)
  }

  lemma UsedAfterConsume(t: map<string, Token>, h: string, now: int)
    requires Valid(t, h, now)
    ensures Used(Consume(t, h, now)) == Used(t) + {h} && h !in Used(t)
  {
  }

  lemma UsedAfterIssue(t: map<string, Token>, h: string, x: int)
    ensures Used(Issue(t, h, x)) == Used(t)
  {
  }

  /** A spent token is never touched again, so payments stand. */
  lemma PaymentStands(s: State, e: Event, q: Request)
    requires Paid(s.tokens, q)
    ensures Paid(Step(s, e).tokens, q)
  {
  }

  lemma StepKeepsPayments(s: State, e: Event)
    requires RequestsPaid(s)
    ensures RequestsPaid(Step(s, e))
  {
    forall i | 0 <= i < |s.requests| ensures Paid(Step(s, e).tokens, s.requests[i]) {
      PaymentStands(s, e, s.requests[i]);
    }
    var qs := Step(s, e).requests;
    forall i | 0 <= i < |qs|
      ensures Paid(Step(s, e).tokens, qs[i]) && (i < |s.requests| ==> qs[i].hash == s.requests[i].hash)
    {
      if i < |s.requests| { assert Paid(Step(s, e).tokens, s.requests[i]); }
    }
  }

  lemma StepKeepsTraces(s: State, e: Event)
    requires NodesTraced(s)
    ensures NodesTraced(Step(s, e))
  {
  }

  lemma ValidationCounts(s: State, e: Event, lost: nat)
    requires e.Validated? && |Used(s.tokens)| == |s.requests| + lost
    ensures |Used(Step(s, e).tokens)| == |Step(s, e).requests| + lost + if LosesAnswer(s, e) then 1 else 0
  {
    if Valid(s.tokens, e.hash, e.now) {
      UsedAfterConsume(s.tokens, e.hash, e.now);
      assert |Used(s.tokens) + {e.hash}| == |Used(s.tokens)| + 1;
    }
  }

  lemma StepCounts(s: State, e: Event, lost: nat)
    requires |Used(s.tokens)| == |s.requests| + lost
    ensures |Used(Step(s, e).tokens)| == |Step(s, e).requests| + lost + if LosesAnswer(s, e) then 1 else 0
  {
    if e.Validated? {
      ValidationCounts(s, e, lost);
    } else if e.Issued? {
      UsedAfterIssue(s.tokens, e.hash, e.expiresAt);
    }
  }

  lemma StepConserves(s: State, e: Event)
    requires Conserved(s)
    ensures Conserved(Step(s, e))
  {
    StepKeepsPayments(s, e);
    StepKeepsTraces(s, e);
  }

  lemma {:induction false} AllConserved(others: set<string>, es: seq<Event>)
    ensures Conserved(Run(others, es))
    ensures |Used(Run(others, es).tokens)| == |Run(others, es).requests| + LostAnswers(others, es)
  {
    if es == [] {
      assert Used(map[]) == {};
    } else {
      var init := es[..|es| - 1];
      AllConserved(others, init);
      StepConserves(Run(others, init), es[|es| - 1]);
      StepCounts(Run(others, init), es[|es| - 1], LostAnswers(others, init));
    }
  }

  /** A map whose values are below n and determine their keys has at most n entries. */
  lemma {:induction false} AtMostOnePerIndex(m: map<string, nat>, n: nat)
    requires forall k :: k in m ==> m[k] < n
    requires forall k, q :: k in m && q in m && m[k] == m[q] ==> k == q
    ensures |m| <= n
  {
    if n > 0 {
      if k :| k in m && m[k] == n - 1 {
        var rest := m - {k};
        assert m.Keys == rest.Keys + {k};
        assert |m.Keys| == |rest.Keys| + 1;
        AtMostOnePerIndex(rest, n - 1);
      } else {
        AtMostOnePerIndex(m, n - 1);
      }
    } else if k :| k in m {
      assert false;
    } else {
      assert m == map[];
    }
  }

  /**
   Token conservation. Each token is answered true at most once and only before its expiry. Used rows and true
   answers are equally many if and only if no call lost the answer to a token that was valid just then. Every
   joined node goes back to one such answer and no two to the same, so nodes created by joins never outnumber
   true answers or used tokens.
   */
  lemma TokensAreConserved(others: set<string>, es: seq<Event>)
    ensures var s := Run(others, es);
      && RequestsPaid(s)
      && (|Used(s.tokens)| == |s.requests| <==> NoAnswerLost(others, es))
      && |s.joined| <= |s.requests| <= |Used(s.tokens)|
  {
    AllConserved(others, es);
    CountsLostAnswers(others, es);
    AtMostOnePerIndex(Run(others, es).joined, |Run(others, es).requests|);
  }

  /**
   What the last step of request r does: while r is admitted and nothing fails it creates a node under an id not yet
   taken, and r is over either way; once r is over it does nothing.
   */
  lemma AdmittedRequestCreatesNode(others: set<string>, es: seq<Event>, r: nat, id: string, fault: bool)
    ensures
      var s, t := Run(others, es), Run(others, es + [NodeCreated(r, id, fault)]);
      && t.tokens == s.tokens && |t.requests| == |s.requests|
      && (if r < |s.requests| && s.requests[r].phase == Admitted then
            && t.requests[r].phase != Admitted
            && t.joined == (if !fault && id !in s.joined && id !in s.others then s.joined[id := r] else s.joined)
          else t == s)
  {
    assert (es + [NodeCreated(r, id, fault)])[..|es|] == es;
  }

  // ---------- the life of one token ----------

  /** es[i] is the event that stores the token under hash, with expiry x. */
  ghost predicate IssuedAt(others: set<string>, es: seq<Event>, i: nat, hash: string, x: int) {
    i < |es| && es[i] == Issued(hash, x) && hash !in Run(others, es[..i]).tokens
  }

  /** Between i and j somebody presented the token in time. */
  ghost predicate PresentedInTime(es: seq<Event>, i: nat, j: nat, hash: string, x: int)
    requires j <= |es|
  {
    exists m :: i < m < j && es[m].Validated? && es[m].hash == hash && es[m].now < x
  }

  lemma PresentedSnoc(es: seq<Event>, i: nat, j: nat, hash: string, x: int)
    requires i < j < |es|
    ensures PresentedInTime(es, i, j + 1, hash, x)
      <==> PresentedInTime(es, i, j, hash, x) || (es[j].Validated? && es[j].hash == hash && es[j].now < x)
  {
  }

  /** The stored expiry is the one issued, and the token is used once somebody presented it in time. */
  lemma {:induction false} TokenSoFar(others: set<string>, es: seq<Event>, i: nat, j: nat, hash: string, x: int)
    requires IssuedAt(others, es, i, hash, x) && i < j <= |es|
    ensures hash in Run(others, es[..j]).tokens && Run(others, es[..j]).tokens[hash].expiresAt == x
    ensures Run(others, es[..j]).tokens[hash].used <==> PresentedInTime(es, i, j, hash, x)
  {
    assert es[..j][..j - 1] == es[..j - 1];
    if j > i + 1 {
      TokenSoFar(others, es, i, j - 1, hash, x);
      PresentedSnoc(es, i, j - 1, hash, x);
    }
  }

  /**
   A token issued with expiry x is spent by the first request that presents it before x, and by no other: one at
   or after x is turned down, as is every later one. The request is admitted unless its answer is lost.
   */
  lemma FirstTimelyPresentationSpends(others: set<string>, es: seq<Event>, i: nat, j: nat, hash: string, x: int)
    requires IssuedAt(others, es, i, hash, x) && i < j < |es| && es[j].Validated? && es[j].hash == hash
    ensures var s, t := Run(others, es[..j]), Run(others, es[..j + 1]);
      && hash in s.tokens && hash in t.tokens
      && (if es[j].now < x && !PresentedInTime(es, i, j, hash, x)
          then
            && !s.tokens[hash].used && t.tokens[hash].used
            && t.requests == s.requests + (if es[j].answerLost then [] else [Request(hash, es[j].now, Admitted)])
          else t.tokens == s.tokens && t.requests == s.requests)
  {
    TokenSoFar(others, es, i, j, hash, x);
    assert es[..j + 1][..j] == es[..j];
    assert Run(others, es[..j]).requests + [] == Run(others, es[..j]).requests;
  }

  /** The token behind a joined node. */
  function TokenOf(s: State, id: string): string
    requires id in s.joined && s.joined[id] < |s.requests|
  {
    s.requests[s.joined[id]].hash
  }

  /** Two joined nodes never share a token, and each one's token was valid when its request was admitted. */
  lemma NodesHaveOwnTokens(others: set<string>, es: seq<Event>, id: string, id': string)
    requires id in Run(others, es).joined && id' in Run(others, es).joined && id != id'
    ensures var s := Run(others, es);
      && s.joined[id] < |s.requests| && s.joined[id'] < |s.requests|
      && TokenOf(s, id) != TokenOf(s, id') && TokenOf(s, id) in Used(s.tokens) && TokenOf(s, id') in Used(s.tokens)
  {
    AllConserved(others, es);
    var s := Run(others, es);
    assert Paid(s.tokens, s.requests[s.joined[id]]) && Paid(s.tokens, s.requests[s.joined[id']]);
  }

  /** A consumed token never validates again, whatever happens afterwards. */
  lemma {:induction false} UsedTokensStayUsed(others: set<string>, es: seq<Event>, fs: seq<Event>, h: string)
    requires h in Run(others, es).tokens && Run(others, es).tokens[h].used
    ensures h in Run(others, es + fs).tokens && Run(others, es + fs).tokens[h] == Run(others, es).tokens[h]
  {
    if fs == [] {
      assert es + fs == es;
    } else {
      assert (es + fs)[..|es + fs| - 1] == es + fs[..|fs| - 1];
      UsedTokensStayUsed(others, es, fs[..|fs| - 1], h);
    }
  }
}
