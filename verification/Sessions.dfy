/** The session objects and the manager that holds them (internal/session/manager.go,
    internal/session/session.go), tied to the pool of SessionPool.

    Peers are known by their ids; making and closing the connection behind one is not part of this
    model. Tokens are random in the source and here a parameter. */
module Sessions {
  import opened SessionPool
  import opened TokenIndex
  import opened Wrappers

  class Session {
    const id: string
    // A realtime session keeps its history at the provider and cannot be resumed.
    const canResume: bool
    var peers: set<string>
    var idleSince: Option<int>
    var resumeToken: string
    var cancelled: bool

    ghost function View(): Entry
      reads `peers, `idleSince, `resumeToken
    {
      Entry(canResume, peers, idleSince, resumeToken)
    }

    constructor (id: string, canResume: bool, now: int)
      ensures this.id == id && View() == Born(canResume, now) && !cancelled
    {
      this.id, this.canResume := id, canResume;
      peers, idleSince, resumeToken, cancelled := {}, Some(now), "", false;
    }

    /** `made` says whether the connection of the peer could be made; if not, nothing changes. */
    method AddPeer(peerID: string, made: bool) returns (ok: bool)
      modifies `peers, `idleSince
      ensures ok == made && View() == if made then WithPeer(old(View()), peerID) else old(View())
    {
      if !made {
        return false;
      }
      peers := peers + {peerID};
      idleSince := None;
      return true;
    }

    method RemovePeer(peerID: string, now: int)
      modifies `peers, `idleSince
      ensures View() == WithoutPeer(old(View()), peerID, now)
    {
      peers := peers - {peerID};
      if peers == {} {
        idleSince := Some(now);
      }
    }

    /** Closing a peer takes it off the session again, which by then has none, and stamps it. */
    method EvictPeers(now: int)
      modifies `peers, `idleSince
      ensures View() == Evicted(old(View()), now)
    {
      var evicted := peers;
      peers := {};
      while evicted != {}
        invariant evicted <= old(peers) && peers == {} && resumeToken == old(resumeToken)
        invariant idleSince == if evicted == old(peers) then old(idleSince) else Some(now)
        decreases |evicted|
      {
        var peerID :| peerID in evicted;
        evicted := evicted - {peerID};
        RemovePeer(peerID, now);
      }
    }

    method RotateResumeToken(token: string) returns (previous: string)
      modifies `resumeToken
      ensures previous == old(resumeToken) && View() == old(View()).(token := token)
    {
      previous := resumeToken;
      resumeToken := token;
    }

    method Close(now: int)
      modifies `peers, `idleSince, `cancelled
      ensures View() == Evicted(old(View()), now) && cancelled
    {
      cancelled := true;
      EvictPeers(now);
    }
  }

  class Manager {
    const maxSessions: int
    const canResume: bool
    var sessions: map<string, Session>
    var resumable: map<string, Session>

    ghost predicate Live(s: Session)
      reads `sessions
    {
      s.id in sessions && sessions[s.id] == s
    }

    /** Each session is found under its own id, and tokens lead to sessions that are there. */
    ghost predicate Linked()
      reads `sessions, `resumable
    {
      && (forall id :: id in sessions ==> sessions[id].id == id)
      && (forall t :: t in resumable ==> Live(resumable[t]))
    }

    ghost function LiveEntries(): (m: map<string, Entry>)
      reads `sessions, sessions.Values
      ensures m.Keys == sessions.Keys
    {
      map id | id in sessions :: sessions[id].View()
    }

    ghost function Index(): (m: map<string, string>)
      reads `resumable
      ensures m.Keys == resumable.Keys
    {
      map t | t in resumable :: resumable[t].id
    }

    ghost function View(): Pool
      reads `sessions, `resumable, sessions.Values
    {
      Pool(maxSessions, LiveEntries(), Index())
    }

    ghost predicate Valid()
      reads `sessions, `resumable, sessions.Values
    {
      Linked() && Inv(View())
    }

    constructor (maxSessions: int, canResume: bool)
      ensures Valid() && View() == Pool(maxSessions, map[], map[])
      ensures this.maxSessions == maxSessions && this.canResume == canResume
    {
      this.maxSessions, this.canResume := maxSessions, canResume;
      sessions, resumable := map[], map[];
      EmptyInv(maxSessions);
    }

    // What a pool still says of the objects while they are being changed.

    /** `p` has every session that is here, and says of all but `s` what they are now. */
    ghost predicate Describes(p: Pool, s: Session?)
      reads `sessions, sessions.Values
    {
      && p.maxSessions == maxSessions && p.live.Keys == sessions.Keys
      && forall id :: id in sessions ==> sessions[id].id == id && (sessions[id] != s ==> p.live[id] == sessions[id].View())
    }

    /** `p` has these tokens, and they lead to sessions that are here. */
    ghost predicate Leads(p: Pool, tokens: map<string, Session>)
      reads `sessions
    {
      p.index.Keys == tokens.Keys && forall t :: t in tokens ==> Live(tokens[t]) && p.index[t] == tokens[t].id
    }

    lemma {:induction false} Described(p: Pool, s: Session?)
      requires p == View() && Linked()
      ensures Describes(p, s) && Leads(p, resumable)
      ensures |p.live| == |sessions|
      ensures s != null && Live(s) ==> s.id in p.live && p.live[s.id] == s.View()
    {
      assert |p.live.Keys| == |sessions.Keys|;
    }

    /** The pool of the objects as they are, once only `s` has changed. */
    lemma {:induction false} Settled(p: Pool, s: Session, tokens: map<string, Session>)
      requires Describes(p, s) && Leads(p, tokens) && Live(s)
      ensures LiveEntries() == p.live[s.id := s.View()]
    {}

    /** The named session, made if there is room for one more; an existing one takes no room. */
    method GetOrCreate(sessionID: string, now: int) returns (s: Session?)
      requires Valid()
      modifies `sessions
      ensures Valid() && View() == Created(old(View()), sessionID, canResume, now)
      ensures sessionID in old(sessions) ==> s == old(sessions)[sessionID]
      ensures s == null <==> sessionID !in old(sessions) && Full(old(View()))
      ensures sessions == if s == null then old(sessions) else old(sessions)[sessionID := s]
      ensures s != null && sessionID !in old(sessions) ==> fresh(s) && s.id == sessionID && !s.cancelled
    {
      hide Inv, Index, LiveEntries, Linked;
      ghost var before, others := View(), sessions;
      Described(before, null);
      if sessionID in sessions {
        return sessions[sessionID];
      }
      if maxSessions > 0 && |sessions| >= maxSessions {
        return null;
      }
      s := new Session(sessionID, canResume, now);
      sessions := sessions[sessionID := s];
      CreatedKeepsInv(before, sessionID, canResume, now);
      Added(before, others, s, now);
    }

    /** A session that was not there is there, and nothing else has changed. */
    lemma {:induction false} Added(before: Pool, others: map<string, Session>, s: Session, now: int)
      requires before.maxSessions == maxSessions && before.live.Keys == others.Keys && before.index.Keys == resumable.Keys
      requires forall id :: id in others ==> others[id].id == id && before.live[id] == others[id].View()
      requires forall t :: t in resumable ==> resumable[t].id in others && others[resumable[t].id] == resumable[t] && before.index[t] == resumable[t].id
      requires s.id !in others && sessions == others[s.id := s] && s.View() == Born(canResume, now)
      ensures View() == before.(live := before.live[s.id := Born(canResume, now)]) && Linked()
    {
      assert LiveEntries() == before.live[s.id := Born(canResume, now)];
      assert Index() == before.index;
    }

    /** Mints a token for a session that can be resumed and forgets its previous one; none when no
        token could be made. Nothing checks that the session is still held: if it is not, its token
        leads to it all the same. */
    method IssueResumeToken(s: Session?, token: Option<string>) returns (issued: string)
      requires Valid() && (token.Some? ==> NewToken(View(), token.value))
      modifies `resumable, (if s == null then {} else {s})`resumeToken
      ensures sessions == old(sessions)
      ensures issued == if s != null && s.canResume && token.Some? then token.value else ""
      ensures s != null && s.canResume && token.Some? ==>
                && s.View() == old(s.View()).(token := issued)
                && resumable == Replaced(old(resumable), old(s.resumeToken), issued, s)
      ensures s != null && !(s.canResume && token.Some?) ==> s.View() == old(s.View()) && resumable == old(resumable)
      ensures s == null || Live(s) ==>
                && Valid()
                && View() == if s != null && token.Some? then Issued(old(View()), s.id, token.value) else old(View())
    {
      hide Inv, NewToken, Linked, LiveEntries, Index;
      Described(View(), s);
      if s == null || !s.canResume {
        return "";
      }
      if token.None? {
        return "";
      }
      issued := token.value;
      Issue(s, issued);
    }

    static function Replaced(tokens: map<string, Session>, previous: string, issued: string, s: Session): map<string, Session> {
      (if previous != "" then tokens - {previous} else tokens)[issued := s]
    }

    method Issue(s: Session, issued: string)
      requires Valid() && s.canResume && NewToken(View(), issued)
      modifies `resumable, s`resumeToken
      ensures sessions == old(sessions) && s.View() == old(s.View()).(token := issued)
      ensures resumable == Replaced(old(resumable), old(s.resumeToken), issued, s)
      ensures Live(s) ==> Valid() && View() == Issued(old(View()), s.id, issued)
    {
      hide Inv, NewToken, Linked, LiveEntries, Index, View, Issued, Leads, Describes, Replaced;
      ghost var before, tokens := View(), resumable;
      Described(before, s);
      if Live(s) { IssuedKeepsInv(before, s.id, issued); }
      Reindex(s, issued, before);
      if Live(s) { Reissued(before, tokens, s, old(s.resumeToken), issued); }
    }

    method Reindex(s: Session, issued: string, ghost before: Pool)
      requires Describes(before, s)
      modifies `resumable, s`resumeToken
      ensures Describes(before, s) && s.View() == old(s.View()).(token := issued)
      ensures resumable == Replaced(old(resumable), old(s.resumeToken), issued, s)
    {
      var previous := s.RotateResumeToken(issued);
      if previous != "" {
        resumable := resumable - {previous};
      }
      resumable := resumable[issued := s];
    }

    lemma {:induction false} Reissued(before: Pool, tokens: map<string, Session>, s: Session, previous: string, issued: string)
      requires Describes(before, s) && Leads(before, tokens) && Live(s) && s.canResume
      requires before.live[s.id].canResume && previous == before.live[s.id].token && s.View() == before.live[s.id].(token := issued)
      requires resumable == Replaced(tokens, previous, issued, s)
      ensures Linked() && View() == Issued(before, s.id, issued)
    {
      Settled(before, s, tokens);
      ReissuedIndex(before, tokens, s, previous, issued);
      hide LiveEntries, Index, Leads, Describes;
      assert View().live == before.live[s.id := before.live[s.id].(token := issued)];
    }

    lemma {:induction false} ReissuedIndex(before: Pool, tokens: map<string, Session>, s: Session, previous: string, issued: string)
      requires Describes(before, s) && Leads(before, tokens) && Live(s)
      requires resumable == Replaced(tokens, previous, issued, s)
      ensures Linked() && Index() == Without(before.index, previous)[issued := s.id]
    {
      hide LiveEntries;
    }

    /** The session a token leads to, once: the token is detached and the old peers go. */
    method Resume(token: string, now: int) returns (s: Session?)
      requires Valid()
      modifies `resumable
      modifies (if token in resumable then {resumable[token]} else {})`peers
      modifies (if token in resumable then {resumable[token]} else {})`idleSince
      ensures Valid() && sessions == old(sessions)
      ensures s == if token in old(resumable) then old(resumable)[token] else null
      ensures View() == Resumed(old(View()), token, now)
    {
      hide Inv, Linked, LiveEntries, Index, Resumed;
      ghost var before, tokens := View(), resumable;
      Described(before, if token in resumable then resumable[token] else null);
      ResumedKeepsInv(before, token, now);
      NoEmptyToken(before);
      if token == "" {
        Unknown(before, token, now);
        return null;
      }
      if token !in resumable {
        Unknown(before, token, now);
        return null;
      }
      s := resumable[token];
      resumable := resumable - {token};
      s.EvictPeers(now);
      Detached(before, tokens, s, token, now);
    }

    lemma {:induction false} Detached(before: Pool, tokens: map<string, Session>, s: Session, token: string, now: int)
      requires Describes(before, s) && Leads(before, tokens) && Live(s) && token in tokens && tokens[token] == s
      requires s.View() == Evicted(before.live[s.id], now) && resumable == tokens - {token}
      ensures Linked() && View() == Resumed(before, token, now)
    {
      Settled(before, s, tokens);
      hide LiveEntries;
      assert Index() == before.index - {token};
    }

    method DropResumeToken(s: Session)
      modifies `resumable
      ensures resumable == if s.resumeToken != "" then old(resumable) - {s.resumeToken} else old(resumable)
    {
      if s.resumeToken != "" {
        resumable := resumable - {s.resumeToken};
      }
    }

    /** Takes one session off both maps. */
    method Forget(id: string)
      requires Valid() && id in sessions
      modifies `sessions, `resumable
      ensures Valid() && View() == Removed(old(View()), id) == Keeping(old(View()), {id})
      ensures sessions == old(sessions) - {id}
    {
      hide Inv, Removed, Keeping, Linked, LiveEntries, Index;
      ghost var before, others, tokens := View(), sessions, resumable;
      Described(before, null);
      var s := sessions[id];
      sessions := sessions - {id};
      DropResumeToken(s);
      RemovedIsUnreachable(before, id);
      KeepingKeepsInv(before, {id});
      Forgotten(before, others, tokens, id);
    }

    lemma {:induction false} Forgotten(before: Pool, others: map<string, Session>, tokens: map<string, Session>, id: string)
      requires before.maxSessions == maxSessions && before.live.Keys == others.Keys && before.index.Keys == tokens.Keys
      requires forall i :: i in others ==> others[i].id == i && before.live[i] == others[i].View()
      requires forall t :: t in tokens ==> tokens[t].id in others && others[tokens[t].id] == tokens[t] && before.index[t] == tokens[t].id
      requires id in others && sessions == others - {id} && Removed(before, id) == Keeping(before, {id})
      requires resumable == if others[id].resumeToken != "" then tokens - {others[id].resumeToken} else tokens
      ensures Linked() && View() == Removed(before, id)
    {
      assert LiveEntries() == before.live - {id};
      assert Index() == Without(before.index, before.live[id].token);
      hide LiveEntries;
      forall t | t in resumable ensures Live(resumable[t]) {
        assert t in Index() && t in Keeping(before, {id}).index;
      }
    }

    method Remove(sessionID: string, now: int)
      requires Valid()
      modifies `sessions, `resumable, if sessionID in sessions then {sessions[sessionID]} else {}
      ensures Valid() && View() == Removed(old(View()), sessionID)
      ensures sessions == old(sessions) - {sessionID}
      ensures sessionID in old(sessions) ==> old(sessions)[sessionID].cancelled
    {
      hide Inv, Linked, LiveEntries, Index, Removed, Keeping;
      ghost var before := View();
      Described(before, null);
      NotThere(before, sessionID);
      if sessionID in sessions {
        var s := sessions[sessionID];
        CloseHeld(s, now);
        Forget(sessionID);
        ForgetsEvicted(before, sessionID, now);
      }
    }

    /** Closes a session while it is still held. */
    method CloseHeld(s: Session, now: int)
      requires Valid() && Live(s)
      modifies s`peers, s`idleSince, s`cancelled
      ensures Valid() && s.cancelled && s.id in old(View()).live
      ensures View() == old(View()).(live := old(View()).live[s.id := Evicted(old(View()).live[s.id], now)])
    {
      hide Inv, Linked, LiveEntries, Index;
      ghost var before, tokens := View(), resumable;
      Described(before, s);
      StampedAt(before, s.id);
      ChangedKeepsInv(before, s.id, Evicted(before.live[s.id], now));
      s.Close(now);
      Settled(before, s, tokens);
      SameTokens(before, tokens);
    }

    /** `taken` are the sessions that went from `held`. */
    ghost predicate Gone(held: map<string, Session>, left: map<string, Session>, gone: set<string>, taken: seq<Session>) {
      && left == held - gone
      && (forall id :: id in gone ==> id in held && held[id] in taken)
      && (forall k :: 0 <= k < |taken| ==> taken[k].id in gone && held[taken[k].id] == taken[k])
    }

    /** Every session idle for the grace period is taken off the maps, and then closed. */
    method Reap(now: int, grace: int, closedAt: int)
      requires Valid()
      modifies `sessions, `resumable, sessions.Values
      ensures Valid() && View() == Reaped(old(View()), now, grace)
      ensures sessions == old(sessions) - ExpiredIds(old(View()), now, grace)
      ensures forall id :: id in old(sessions) && id !in sessions ==> old(sessions)[id].cancelled
      ensures forall id :: id in sessions ==> unchanged(sessions[id])
    {
      hide Inv, Linked, LiveEntries, Index, Reaped, ExpiredIds, Gone;
      ghost var held := sessions;
      var expired := TakeExpired(now, grace);
      ghost var gone := ExpiredIds(old(View()), now, grace);
      NotHeld(held, gone, expired);
      CloseEach(expired, closedAt);
      AllCancelled(held, gone, expired);
    }

    lemma {:induction false} NotHeld(held: map<string, Session>, gone: set<string>, taken: seq<Session>)
      requires Gone(held, sessions, gone, taken) && Linked()
      ensures sessions == held - gone
      ensures forall k :: 0 <= k < |taken| ==> taken[k] in held.Values && taken[k] !in sessions.Values
    {
      forall k | 0 <= k < |taken| ensures taken[k] in held.Values && taken[k] !in sessions.Values {
        assert taken[k].id in gone;
      }
    }

    lemma {:induction false} AllCancelled(held: map<string, Session>, gone: set<string>, taken: seq<Session>)
      requires Gone(held, sessions, gone, taken) && forall k :: 0 <= k < |taken| ==> taken[k].cancelled
      ensures forall id :: id in held && id !in sessions ==> held[id].cancelled
    {}

    method CloseEach(expired: seq<Session>, closedAt: int)
      modifies expired
      ensures forall k :: 0 <= k < |expired| ==> expired[k].cancelled
      ensures forall k :: 0 <= k < |expired| ==> expired[k].resumeToken == old(expired[k].resumeToken)
    {
      for i := 0 to |expired|
        invariant forall k :: 0 <= k < i ==> expired[k].cancelled
        invariant forall k :: 0 <= k < |expired| ==> expired[k].resumeToken == old(expired[k].resumeToken)
      {
        expired[i].Close(closedAt);
      }
    }

    /** One sweep, in whatever order the sessions come. */
    method TakeExpired(now: int, grace: int) returns (expired: seq<Session>)
      requires Valid()
      modifies `sessions, `resumable
      ensures Valid() && View() == Reaped(old(View()), now, grace)
      ensures Gone(old(sessions), sessions, ExpiredIds(old(View()), now, grace), expired)
    {
      hide Inv, Linked, LiveEntries, Index, Gone, Keeping, ExpiredIds, View;
      ghost var before := View();
      ghost var gone: set<string> := {};
      KeepingNothing(before);
      NothingGone();
      ExpiredAreLive(before, now, grace);
      var ids := sessions.Keys;
      expired := [];
      while ids != {}
        invariant ids <= sessions.Keys && gone == ExpiredIds(before, now, grace) - ids
        invariant Valid() && View() == Keeping(before, gone)
        invariant Gone(old(sessions), sessions, gone, expired)
        decreases |ids|
      {
        var id :| id in ids;
        var s := sessions[id];
        ids := ids - {id};
        StillThere(before, gone, id, now, grace);
        if IdleFor(s.idleSince, now, grace) {
          OneMoreGone(old(sessions), sessions, gone, expired, id);
          expired := expired + [s];
          Forget(id);
          KeepingTwice(before, gone, {id});
          gone := gone + {id};
        }
      }
      assert gone == ExpiredIds(before, now, grace);
    }

    lemma {:induction false} NothingGone()
      ensures Gone(sessions, sessions, {}, [])
    {}

    lemma {:induction false} ExpiredAreLive(p: Pool, now: int, grace: int)
      requires p == View()
      ensures ExpiredIds(p, now, grace) - sessions.Keys == {}
    {}

    lemma {:induction false} StillThere(before: Pool, gone: set<string>, id: string, now: int, grace: int)
      requires View() == Keeping(before, gone) && id in sessions
      ensures id !in gone && (id in ExpiredIds(before, now, grace) <==> IdleFor(sessions[id].idleSince, now, grace))
      ensures id in View().live
      ensures Linked() ==> sessions[id].id == id
    {
      assert View().live[id] == sessions[id].View();
      assert id in View().live && View().live[id] == before.live[id];
    }

    lemma {:induction false} OneMoreGone(all: map<string, Session>, left: map<string, Session>, gone: set<string>, taken: seq<Session>, id: string)
      requires Gone(all, left, gone, taken) && id in left && left[id].id == id
      ensures Gone(all, left - {id}, gone + {id}, taken + [left[id]])
    {
      assert left[id] == all[id] && left - {id} == all - (gone + {id});
    }

    method CloseAll(now: int)
      requires Valid()
      modifies `sessions, `resumable, sessions.Values
      ensures Valid() && View() == Pool(maxSessions, map[], map[])
      ensures forall id :: id in old(sessions) ==> old(sessions)[id].cancelled
    {
      hide Inv, Index, LiveEntries;
      ghost var held := sessions;
      while sessions != map[]
        invariant sessions.Keys <= held.Keys && forall id :: id in sessions ==> sessions[id] == held[id]
        invariant forall id :: id in held && id !in sessions ==> held[id].cancelled
        decreases |sessions|
      {
        var id :| id in sessions;
        CloseOne(id, held, now);
      }
      resumable := map[];
      EmptyInv(maxSessions);
      EmptyView();
    }

    method CloseOne(id: string, ghost held: map<string, Session>, now: int)
      requires id in sessions && sessions.Keys <= held.Keys && forall i :: i in sessions ==> sessions[i] == held[i]
      requires forall i :: i in held && i !in sessions ==> held[i].cancelled
      modifies `sessions, sessions[id]
      ensures sessions == old(sessions) - {id} && |sessions| < |old(sessions)|
      ensures forall i :: i in held && i !in sessions ==> held[i].cancelled
    {
      sessions[id].Close(now);
      sessions := sessions - {id};
      assert old(sessions).Keys == sessions.Keys + {id};
    }

    lemma {:induction false} EmptyView()
      requires sessions == map[] && resumable == map[]
      ensures View() == Pool(maxSessions, map[], map[])
    {}

    lemma {:induction false} SameTokens(p: Pool, tokens: map<string, Session>)
      requires Leads(p, tokens) && resumable == tokens
      ensures Index() == p.index
    {}

    lemma {:induction false} NotThere(p: Pool, id: string)
      ensures id !in p.live ==> Removed(p, id) == p
    {}
  }

  lemma {:induction false} KeepingNothing(p: Pool)
    requires Inv(p)
    ensures Keeping(p, {}) == p
  {
    KeepingAll(p);
  }

  lemma {:induction false} ForgetsEvicted(p: Pool, id: string, now: int)
    requires id in p.live
    ensures Removed(p.(live := p.live[id := Evicted(p.live[id], now)]), id) == Removed(p, id)
  {
    assert p.live[id := Evicted(p.live[id], now)] - {id} == p.live - {id};
  }

  lemma {:induction false} Unknown(p: Pool, token: string, now: int)
    requires token !in p.index
    ensures Resumed(p, token, now) == p
  {}

  lemma {:induction false} NoEmptyToken(p: Pool)
    requires Inv(p)
    ensures "" !in p.index
  {}
}
