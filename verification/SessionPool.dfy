/** Live sessions and the tokens that lead back to them, as values (internal/session/manager.go,
    internal/session/session.go), with every method taken as one step. */
module SessionPool {
  import opened TokenIndex
  import opened Wrappers

  /** A live session: its peers by id, when it last had none, and the token it was last given. */
  datatype Entry = Entry(canResume: bool, peers: set<string>, idleSince: Option<int>, token: string)

  /** Sessions by id, and the sessions tokens lead to. */
  datatype Pool = Pool(maxSessions: int, live: map<string, Entry>, index: map<string, string>)

  // ---------------------------------------------------------------- the steps

  function Born(canResume: bool, now: int): Entry {
    Entry(canResume, {}, Some(now), "")
  }

  predicate Full(p: Pool) {
    AtCap(p.maxSessions, |p.live|)
  }

  function Created(p: Pool, id: string, canResume: bool, now: int): Pool {
    if id in p.live || Full(p) then p else p.(live := p.live[id := Born(canResume, now)])
  }

  function Issued(p: Pool, id: string, token: string): Pool
    requires id in p.live
  {
    var e := p.live[id];
    if !e.canResume then p
    else Pool(p.maxSessions, p.live[id := e.(token := token)], Without(p.index, e.token)[token := id])
  }

  function Evicted(e: Entry, now: int): Entry {
    e.(peers := {}, idleSince := if e.peers == {} then e.idleSince else Some(now))
  }

  function Resumed(p: Pool, token: string, now: int): Pool {
    if token !in p.index || p.index[token] !in p.live then p
    else
      var id := p.index[token];
      Pool(p.maxSessions, p.live[id := Evicted(p.live[id], now)], p.index - {token})
  }

  function WithPeer(e: Entry, peer: string): Entry {
    e.(peers := e.peers + {peer}, idleSince := None)
  }

  function WithoutPeer(e: Entry, peer: string, now: int): Entry {
    var left := e.peers - {peer};
    e.(peers := left, idleSince := if left == {} then Some(now) else e.idleSince)
  }

  function Removed(p: Pool, id: string): Pool {
    if id !in p.live then p
    else Pool(p.maxSessions, p.live - {id}, Without(p.index, p.live[id].token))
  }

  /** Idle for the whole grace period. */
  predicate IdleFor(idleSince: Option<int>, now: int, grace: int) {
    idleSince.Some? && now - idleSince.value >= grace
  }

  predicate Expired(e: Entry, now: int, grace: int) {
    IdleFor(e.idleSince, now, grace)
  }

  /** The pool without some sessions, and without any token that led to one of them. */
  function Keeping(p: Pool, gone: set<string>): Pool {
    Pool(p.maxSessions, p.live - gone, map t | t in p.index && p.index[t] !in gone :: p.index[t])
  }

  function ExpiredIds(p: Pool, now: int, grace: int): set<string> {
    set id | id in p.live && Expired(p.live[id], now, grace)
  }

  function Reaped(p: Pool, now: int, grace: int): Pool {
    Keeping(p, ExpiredIds(p, now, grace))
  }

  datatype Op =
    | Create(id: string, canResume: bool, now: int)
    | Issue(id: string, token: string)
    | Resume(token: string, now: int)
    | AddPeer(id: string, peer: string)
    | RemovePeer(id: string, peer: string, now: int)
    | Remove(id: string)
    | Reap(now: int, grace: int)
    | CloseAll

  function Step(p: Pool, op: Op): Pool {
    match op
    case Create(id, canResume, now) => Created(p, id, canResume, now)
    case Issue(id, token) => if id in p.live then Issued(p, id, token) else p
    case Resume(token, now) => Resumed(p, token, now)
    case AddPeer(id, peer) => if id in p.live then p.(live := p.live[id := WithPeer(p.live[id], peer)]) else p
    case RemovePeer(id, peer, now) => if id in p.live then p.(live := p.live[id := WithoutPeer(p.live[id], peer, now)]) else p
    case Remove(id) => Removed(p, id)
    case Reap(now, grace) => Reaped(p, now, grace)
    case CloseAll => Pool(p.maxSessions, map[], map[])
  }

  // ---------------------------------------------------------------- what every step keeps

  /** Every token in the index is the current one of a live session. */
  predicate Indexed(p: Pool) {
    forall t :: t in p.index ==> t != "" && p.index[t] in p.live && p.live[p.index[t]].token == t
  }

  /** A session is stamped as idle exactly when it has no peers. */
  predicate Stamped(p: Pool) {
    forall id :: id in p.live ==> (p.live[id].idleSince.Some? <==> p.live[id].peers == {})
  }

  predicate UnderCap(p: Pool) {
    p.maxSessions > 0 ==> |p.live| <= p.maxSessions
  }

  /** No two live sessions have been given the same token. */
  predicate Distinct(p: Pool) {
    forall a, b :: a in p.live && b in p.live && a != b && p.live[a].token != "" ==> p.live[a].token != p.live[b].token
  }

  predicate Inv(p: Pool) {
    Indexed(p) && Stamped(p) && UnderCap(p) && Distinct(p)
  }

  /** What a random token is taken to be: one that no live session has been given. */
  predicate NewToken(p: Pool, t: string) {
    t != "" && forall id :: id in p.live ==> p.live[id].token != t
  }

  lemma {:induction false} CreatedKeepsInv(p: Pool, id: string, canResume: bool, now: int)
    requires Inv(p)
    ensures Inv(Created(p, id, canResume, now))
  {
    if id !in p.live && !Full(p) {
      var after := Created(p, id, canResume, now);
      OneMore(p.live, id, Born(canResume, now));
      hide UnderCap;
      assert forall other :: other in p.live ==> after.live[other] == p.live[other];
    }
  }

  lemma {:induction false} OneMore(live: map<string, Entry>, id: string, e: Entry)
    requires id !in live
    ensures |live[id := e]| == |live| + 1
  {
    assert live[id := e].Keys == live.Keys + {id};
  }

  lemma {:induction false} IssuedKeepsInv(p: Pool, id: string, token: string)
    requires Inv(p) && id in p.live && NewToken(p, token)
    ensures Inv(Issued(p, id, token))
  {
    var after := Issued(p, id, token);
    SameKeys(p.live, id, after.live[id]);
    IssuedIndexed(p, id, token);
  }

  lemma {:induction false} SameKeys(live: map<string, Entry>, id: string, e: Entry)
    requires id in live
    ensures |live[id := e]| == |live|
  {
    assert live[id := e].Keys == live.Keys;
  }

  /** Issuing replaces: the new token is the only one that leads to the session. */
  lemma {:induction false} IssuedIndexed(p: Pool, id: string, token: string)
    requires Indexed(p) && id in p.live && NewToken(p, token)
    ensures Indexed(Issued(p, id, token))
    ensures p.live[id].canResume ==>
              forall t :: t in Issued(p, id, token).index && Issued(p, id, token).index[t] == id ==> t == token
  {
    hide NewToken;
    assert token != "" && forall other :: other in p.live ==> p.live[other].token != token by { NewTokenMeans(p, token); }
    var after := Issued(p, id, token);
    forall t | t in after.index ensures t != "" && after.index[t] in after.live && after.live[after.index[t]].token == t {
      if t != token { assert t in p.index; }
    }
  }

  lemma {:induction false} NewTokenMeans(p: Pool, t: string)
    requires NewToken(p, t)
    ensures t != "" && forall id :: id in p.live ==> p.live[id].token != t
  {}

  lemma {:induction false} ChangedKeepsInv(p: Pool, id: string, e: Entry)
    requires Inv(p) && id in p.live && e.token == p.live[id].token && (e.idleSince.Some? <==> e.peers == {})
    ensures Inv(p.(live := p.live[id := e]))
  {
    SameKeys(p.live, id, e);
  }

  lemma {:induction false} DetachedKeepsInv(p: Pool, token: string)
    requires Inv(p)
    ensures Inv(p.(index := p.index - {token}))
  {}

  /** A token leads back once: using it detaches it, and nothing else leads to the session either. */
  lemma {:induction false} ResumedKeepsInv(p: Pool, token: string, now: int)
    requires Inv(p)
    ensures var after := Resumed(p, token, now);
            && Inv(after) && token !in after.index && |after.live| == |p.live|
            && (token in p.index ==> forall t :: t in after.index ==> after.index[t] != p.index[token])
  {
    if token in p.index {
      var id := p.index[token];
      hide UnderCap, Distinct;
      ChangedKeepsInv(p, id, Evicted(p.live[id], now));
      SameKeys(p.live, id, Evicted(p.live[id], now));
      DetachedKeepsInv(p.(live := p.live[id := Evicted(p.live[id], now)]), token);
    }
  }

  lemma {:induction false} KeepingKeepsInv(p: Pool, gone: set<string>)
    requires Inv(p)
    ensures Inv(Keeping(p, gone))
  {
    assert (p.live - gone).Keys <= p.live.Keys;
    SubsetSize((p.live - gone).Keys, p.live.Keys);
  }

  lemma {:induction false} SubsetSize<T>(a: set<T>, b: set<T>)
    requires a <= b
    ensures |a| <= |b|
    decreases |a|
  {
    if a != {} {
      var x :| x in a;
      SubsetSize(a - {x}, b - {x});
    }
  }

  /** Dropping a session's current token is enough: no other token led to it. */
  lemma {:induction false} RemovedIsUnreachable(p: Pool, id: string)
    requires Inv(p) && id in p.live
    ensures Removed(p, id) == Keeping(p, {id})
  {
    hide UnderCap, Stamped;
    var a, b := Removed(p, id).index, Keeping(p, {id}).index;
    forall t | t in p.index ensures p.index[t] == id <==> t == p.live[id].token {
      assert p.live[p.index[t]].token == t && t != "";
    }
    assert forall t :: t in a <==> t in b;
  }

  lemma {:induction false} StepKeepsInv(p: Pool, op: Op)
    requires Inv(p) && (op.Issue? ==> NewToken(p, op.token))
    ensures Inv(Step(p, op))
  {
    hide Distinct, Indexed, UnderCap, Stamped, NewToken;
    match op
    case Create(id, canResume, now) => CreatedKeepsInv(p, id, canResume, now);
    case Issue(id, token) => if id in p.live { IssuedKeepsInv(p, id, token); }
    case Resume(token, now) => ResumedKeepsInv(p, token, now);
    case AddPeer(id, peer) => if id in p.live {
      PeerJoins(p.live[id], peer);
      ChangedKeepsInv(p, id, WithPeer(p.live[id], peer));
    }
    case RemovePeer(id, peer, now) => if id in p.live {
      StampedAt(p, id);
      ChangedKeepsInv(p, id, WithoutPeer(p.live[id], peer, now));
    }
    case Remove(id) => if id in p.live {
      RemovedIsUnreachable(p, id);
      KeepingKeepsInv(p, {id});
    }
    case Reap(now, grace) => KeepingKeepsInv(p, ExpiredIds(p, now, grace));
    case CloseAll => EmptyInv(p.maxSessions);
  }

  lemma {:induction false} PeerJoins(e: Entry, peer: string)
    ensures peer in WithPeer(e, peer).peers && WithPeer(e, peer).peers != {}
  {
    assert peer in WithPeer(e, peer).peers;
  }

  lemma {:induction false} StampedAt(p: Pool, id: string)
    requires Inv(p) && id in p.live
    ensures p.live[id].idleSince.Some? <==> p.live[id].peers == {}
  {}

  lemma {:induction false} EmptyInv(maxSessions: int)
    ensures Inv(Pool(maxSessions, map[], map[]))
  {}

  function Run(maxSessions: int, ops: seq<Op>): Pool {
    if ops == [] then Pool(maxSessions, map[], map[]) else Step(Run(maxSessions, ops[..|ops| - 1]), ops[|ops| - 1])
  }

  /** Each token issued is one that no session living then has been given. */
  predicate TokensAreNew(maxSessions: int, ops: seq<Op>) {
    forall i :: 0 <= i < |ops| && ops[i].Issue? ==> NewToken(Run(maxSessions, ops[..i]), ops[i].token)
  }

  /** In every run the cap holds, every indexed token is the current one of a live session, and a
      session is stamped as idle exactly when it has no peers. */
  lemma {:induction false} EveryRunKeepsInv(maxSessions: int, ops: seq<Op>)
    requires TokensAreNew(maxSessions, ops)
    ensures Inv(Run(maxSessions, ops))
  {
    hide Inv, Step, NewToken;
    if ops == [] {
      EmptyInv(maxSessions);
    } else {
      var most, last := ops[..|ops| - 1], ops[|ops| - 1];
      forall i | 0 <= i < |most| && most[i].Issue? ensures NewToken(Run(maxSessions, most[..i]), most[i].token) {
        assert most[..i] == ops[..i] && most[i] == ops[i];
      }
      EveryRunKeepsInv(maxSessions, most);
      StepKeepsInv(Run(maxSessions, most), last);
    }
  }

  /** A token that stops leading anywhere stays dead unless it is issued again. */
  lemma {:induction false} DeadTokenStaysDead(p: Pool, op: Op, token: string)
    requires token !in p.index && !(op.Issue? && op.token == token)
    ensures token !in Step(p, op).index
  {}

  /** A session that was removed or reaped is out of reach of every token, at once. */
  lemma {:induction false} GoneIsUnreachable(p: Pool, op: Op, id: string)
    requires Inv(p) && id in p.live && id !in Step(p, op).live
    ensures forall t :: t in Step(p, op).index ==> Step(p, op).index[t] != id
  {
    if op.Remove? && op.id in p.live { RemovedIsUnreachable(p, op.id); }
  }

  // ---------------------------------------------------------------- what the steps do bring about

  /** A session is made unless it is there, or the cap is reached; it is idle from then on. */
  lemma {:induction false} CreateMeans(p: Pool, id: string, canResume: bool, now: int)
    ensures var after := Step(p, Create(id, canResume, now));
            if id !in p.live && (p.maxSessions <= 0 || |p.live| < p.maxSessions)
            then after == p.(live := p.live[id := Entry(canResume, {}, Some(now), "")])
            else after == p
  {}

  /** A token that was issued leads to its session. */
  lemma {:induction false} IssueLeads(p: Pool, id: string, token: string)
    requires id in p.live && p.live[id].canResume
    ensures var after := Step(p, Issue(id, token)); token in after.index && after.index[token] == id && id in after.live
  {}

  /** The step leaves the session, and the token it was last given, alone. */
  predicate Spares(p: Pool, op: Op, id: string, token: string)
    requires id in p.live
  {
    match op
    case Create(_, _, _) => true
    case Issue(other, t) => other != id && t != token
    case Resume(t, _) => t != token
    case AddPeer(_, _) => true
    case RemovePeer(_, _, _) => true
    case Remove(other) => other != id
    case Reap(now, grace) => p.live[id].idleSince.None? || now - p.live[id].idleSince.value < grace
    case CloseAll => false
  }

  /** And it goes on leading there until it is used or replaced, or the session goes. */
  lemma {:induction false} TokenGoesOnLeading(p: Pool, op: Op, id: string, token: string)
    requires Inv(p) && token in p.index && p.index[token] == id && Spares(p, op, id, token)
    ensures var after := Step(p, op); token in after.index && after.index[token] == id && id in after.live
  {
    assert id in p.live && p.live[id].token == token && token != "";
    if op.Remove? && op.id in p.live { assert p.live[op.id].token != token; }
    if op.Issue? && op.id in p.live { assert p.live[op.id].token != token; }
  }

  /** Resuming hands the session over without its peers, and nothing else of it changes. */
  lemma {:induction false} ResumeMeans(p: Pool, token: string, now: int)
    requires Inv(p) && token in p.index
    ensures var after, id := Step(p, Resume(token, now)), p.index[token];
            && id in p.live && after.live.Keys == p.live.Keys && after.index == p.index - {token}
            && after.live[id] == Entry(p.live[id].canResume, {}, if p.live[id].peers == {} then p.live[id].idleSince else Some(now), token)
            && forall other :: other in p.live && other != id ==> after.live[other] == p.live[other]
  {
    hide UnderCap, Distinct, Stamped;
  }

  /** A sweep takes exactly the sessions that have been idle for the grace period. */
  lemma {:induction false} ReapIff(p: Pool, now: int, grace: int, id: string)
    requires id in p.live
    ensures var after := Step(p, Reap(now, grace));
            && (id in after.live <==> p.live[id].idleSince.None? || now < p.live[id].idleSince.value + grace)
            && (id in after.live ==> after.live[id] == p.live[id])
  {}

  /** Idle since when: since a peer was last taken off and none was left, or since it was made. */
  lemma {:induction false} StampMeans(p: Pool, op: Op, id: string)
    requires Inv(p) && id in p.live && id in Step(p, op).live
    ensures var e, after := p.live[id], Step(p, op).live[id];
            && (after.peers != {} ==> after.idleSince.None?)
            && (after.peers == {} && e.peers != {} ==>
                  (op.RemovePeer? || op.Resume?) && after.idleSince == Some(op.now))
            && (after.peers == {} && e.peers == {} && !(op.RemovePeer? && op.id == id) ==> after.idleSince == e.idleSince)
            && (op.AddPeer? && op.id == id ==> after.peers == e.peers + {op.peer})
            && (op.RemovePeer? && op.id == id ==> after.peers == e.peers - {op.peer})
  {
    hide UnderCap, Distinct, Indexed;
    if op.AddPeer? && op.id == id { PeerJoins(p.live[id], op.peer); }
    StampedAt(p, id);
  }

  /** Taking sessions away in two goes is taking them away at once. */
  lemma {:induction false} KeepingTwice(p: Pool, a: set<string>, b: set<string>)
    ensures Keeping(Keeping(p, a), b) == Keeping(p, a + b)
  {
    assert (p.live - a) - b == p.live - (a + b);
  }

  lemma {:induction false} KeepingAll(p: Pool)
    requires Indexed(p)
    ensures Keeping(p, {}) == p
  {
    assert p.live - {} == p.live;
    assert Keeping(p, {}).index == p.index;
  }
}
