/** Sessions and tokens when requests interleave (internal/session/manager.go:54-146,
    internal/session/session.go:279-306).

    One step is one block under one lock. Issuing a token takes two: the session's own lock to rotate
    it, then the manager's to index it, and anything may happen in between. A sweep or a close of
    several sessions is as many drops, which allows more interleavings than the code does. */
module SessionInterleaving {
  import opened TokenIndex

  /** A token that has been rotated in on a session object and is not indexed yet. */
  datatype Issue = Issue(session: nat, previous: string)

  /** Session objects are numbered as they are made. `live` has those in the map, with their ids;
      `current` what each was last given; `index` where tokens lead; `granted` the tokens that have
      resumed something, in order. */
  datatype World = World(
    maxSessions: int, made: nat, live: map<nat, string>, current: map<nat, string>,
    index: map<string, nat>, pending: map<string, Issue>, minted: set<string>, granted: seq<string>)

  datatype Action =
    | Create(id: string)
    | Rotate(session: nat, token: string)
    | IndexToken(token: string)
    | Take(token: string)
    | Drop(session: nat)
    | CloseAll

  function Initial(maxSessions: int): World {
    World(maxSessions, 0, map[], map[], map[], map[], {}, [])
  }

  predicate Full(w: World) {
    AtCap(w.maxSessions, |w.live|)
  }

  function Current(w: World, session: nat): string {
    if session in w.current then w.current[session] else ""
  }

  /** The mint is random: a token is never made twice. */
  predicate Enabled(w: World, a: Action) {
    match a
    case Rotate(session, token) => session < w.made && token != "" && token !in w.minted
    case IndexToken(token) => token in w.pending
    case Drop(session) => session in w.live
    case _ => true
  }

  /** What an action does; one that cannot happen does nothing. */
  function Step(w: World, a: Action): World {
    if !Enabled(w, a) then w else
    match a
    case Create(id) =>
      if id in w.live.Values || Full(w) then w else w.(made := w.made + 1, live := w.live[w.made := id])
    case Rotate(session, token) =>
      w.(current := w.current[session := token], pending := w.pending[token := Issue(session, Current(w, session))],
         minted := w.minted + {token})
    case IndexToken(token) =>
      w.(index := Without(w.index, w.pending[token].previous)[token := w.pending[token].session], pending := w.pending - {token})
    case Take(token) =>
      if token == "" || token !in w.index then w else w.(index := w.index - {token}, granted := w.granted + [token])
    case Drop(session) =>
      w.(live := w.live - {session}, index := Without(w.index, Current(w, session)))
    case CloseAll => w.(live := map[], index := map[])
  }

  /** A run, each action in its turn. */
  function Run(maxSessions: int, actions: seq<Action>): World {
    if actions == [] then Initial(maxSessions) else Step(Run(maxSessions, actions[..|actions| - 1]), actions[|actions| - 1])
  }

  /** What the steps bring about: a session is made while there is room, a token leads to the session it
      was rotated in on once it is indexed, and the previous one nowhere; taking it grants it. */
  lemma {:induction false} StepMeans(w: World, a: Action)
    requires Enabled(w, a)
    ensures var after := Step(w, a);
            match a
            case Create(id) =>
              if id !in w.live.Values && (w.maxSessions <= 0 || |w.live| < w.maxSessions) then after.live == w.live[w.made := id]
              else after == w
            case Rotate(session, token) => Current(after, session) == token && token in after.pending && after.index == w.index
            case IndexToken(token) =>
              && token in after.index && after.index[token] == w.pending[token].session
              && (w.pending[token].previous != token ==> w.pending[token].previous !in after.index || w.pending[token].previous == "")
            case Take(token) => token != "" && token in w.index ==> after.granted == w.granted + [token] && token !in after.index
            case Drop(session) => session !in after.live && (Current(w, session) == "" || Current(w, session) !in after.index)
            case CloseAll => after.live == map[] && after.index == map[]
  {}

  // ---------------------------------------------------------------- safe in every interleaving

  predicate Once(granted: seq<string>) {
    forall i, j :: 0 <= i < j < |granted| ==> granted[i] != granted[j]
  }

  /** A token waits to be indexed, then leads somewhere, then has been used: never two of these. */
  predicate OneStage(w: World) {
    && (forall t :: t in w.pending ==> t in w.minted && t !in w.index && t !in w.granted)
    && (forall t :: t in w.index ==> t in w.minted && t !in w.granted)
    && (forall t :: t in w.granted ==> t in w.minted)
    && Once(w.granted)
  }

  predicate UnderCap(w: World) {
    w.maxSessions > 0 ==> |w.live| <= w.maxSessions
  }

  lemma {:induction false} SmallerMap(m: map<nat, string>, k: nat)
    ensures |m - {k}| <= |m|
  {
    if k in m {
      assert m.Keys == (m - {k}).Keys + {k};
    } else {
      assert m - {k} == m;
    }
  }

  lemma {:induction false} OneMore(m: map<nat, string>, k: nat, id: string)
    ensures |m[k := id]| <= |m| + 1
  {
    assert m[k := id].Keys == m.Keys + {k};
  }

  lemma {:induction false} StepKeepsCap(w: World, a: Action)
    requires UnderCap(w)
    ensures UnderCap(Step(w, a)) && Step(w, a).maxSessions == w.maxSessions
  {
    match a
    case Create(id) => OneMore(w.live, w.made, id);
    case Drop(session) => SmallerMap(w.live, session);
    case _ =>
  }

  lemma {:induction false} StepKeepsStage(w: World, a: Action)
    requires OneStage(w)
    ensures OneStage(Step(w, a))
  {
    hide Full, UnderCap;
  }

  /** In any interleaving live sessions never exceed the cap, and a token resumes at most once. */
  lemma {:induction false} EveryRunIsSafe(maxSessions: int, actions: seq<Action>)
    ensures var w := Run(maxSessions, actions);
            && OneStage(w) && (maxSessions > 0 ==> |w.live| <= maxSessions)
            && forall i, j :: 0 <= i < j < |w.granted| ==> w.granted[i] != w.granted[j]
  {
    hide Step, OneStage, UnderCap;
    RunIsSafe(maxSessions, actions);
    SafeMeans(Run(maxSessions, actions));
  }

  lemma {:induction false} SafeMeans(w: World)
    requires OneStage(w) && UnderCap(w)
    ensures Once(w.granted) && (w.maxSessions > 0 ==> |w.live| <= w.maxSessions)
  {}

  lemma {:induction false} RunIsSafe(maxSessions: int, actions: seq<Action>)
    ensures var w := Run(maxSessions, actions); OneStage(w) && UnderCap(w) && w.maxSessions == maxSessions
  {
    hide Step, OneStage, UnderCap;
    if actions == [] {
      StartIsSafe(maxSessions);
    } else {
      var before, a := Run(maxSessions, actions[..|actions| - 1]), actions[|actions| - 1];
      RunIsSafe(maxSessions, actions[..|actions| - 1]);
      StepKeepsCap(before, a);
      StepKeepsStage(before, a);
    }
  }

  lemma {:induction false} StartIsSafe(maxSessions: int)
    ensures OneStage(Initial(maxSessions)) && UnderCap(Initial(maxSessions))
  {}

  // ---------------------------------------------------------------- where a token may lead

  /** The token is the session's current one, or one that an issue under way is about to remove. */
  predicate Leads(w: World, t: string, session: nat) {
    session in w.live && (Current(w, session) == t || exists u :: u in w.pending && w.pending[u] == Issue(session, t))
  }

  /** Every indexed token leads to a live session that answers to it. */
  predicate Sound(w: World) {
    forall t :: t in w.index ==> t != "" && Leads(w, t, w.index[t])
  }

  /** Objects are made before they live, and only a token that was minted is waited for. */
  predicate WellMade(w: World) {
    && (forall s :: s in w.live ==> s < w.made)
    && (forall t :: t in w.pending ==> t != "" && t in w.minted)
    && (forall t :: t in w.index ==> t in w.minted)
  }

  /** The session of an issue still answers to the token: it is live, and has not been given another
      unless the issue of that one is still to remove this one. */
  predicate StillAnswers(w: World, t: string)
    requires t in w.pending
  {
    var s := w.pending[t].session;
    s in w.live && (Current(w, s) == t || exists u :: u in w.pending && u != t && w.pending[u] == Issue(s, t))
  }

  /** Indexing is right exactly when, before it, the session still answers to the token. */
  lemma {:induction false} IndexSoundIff(w: World, t: string)
    requires Sound(w) && WellMade(w) && t in w.pending
    ensures Sound(Step(w, IndexToken(t))) <==> StillAnswers(w, t)
  {
    var after, issue := Step(w, IndexToken(t)), w.pending[t];
    AnswersIsLeads(w, t);
    hide Sound, StillAnswers;
    assert after.index[t] == issue.session;
    if StillAnswers(w, t) {
      forall x | x in after.index ensures x != "" && Leads(after, x, after.index[x]) {
        if x != t { OthersStillLead(w, t, x); }
      }
      SoundIf(after);
    } else {
      NotSoundIf(after, t);
    }
  }

  lemma {:induction false} AnswersIsLeads(w: World, t: string)
    requires t in w.pending
    ensures StillAnswers(w, t) <==> Leads(Step(w, IndexToken(t)), t, w.pending[t].session)
  {
    var after, s := Step(w, IndexToken(t)), w.pending[t].session;
    forall u ensures (u in after.pending && after.pending[u] == Issue(s, t)) <==> (u in w.pending && u != t && w.pending[u] == Issue(s, t)) {}
  }

  lemma {:induction false} SoundIf(w: World)
    requires forall t :: t in w.index ==> t != "" && Leads(w, t, w.index[t])
    ensures Sound(w)
  {}

  lemma {:induction false} NotSoundIf(w: World, t: string)
    requires t in w.index && !Leads(w, t, w.index[t])
    ensures !Sound(w)
  {}

  lemma {:induction false} OthersStillLead(w: World, t: string, x: string)
    requires Sound(w) && t in w.pending && x in Step(w, IndexToken(t)).index && x != t
    ensures x != "" && x in w.index && Leads(Step(w, IndexToken(t)), x, Step(w, IndexToken(t)).index[x])
  {
    var after, session := Step(w, IndexToken(t)), w.index[x];
    assert Leads(w, x, session);
    if Current(w, session) != x {
      var u :| u in w.pending && w.pending[u] == Issue(session, x);
      assert u in after.pending && after.pending[u] == Issue(session, x);
    }
  }

  /** Taking a session off the maps is right exactly when its current token is the only one that leads
      to it: when no issue for it is still to remove an older one. */
  lemma {:induction false} DropSoundIff(w: World, session: nat)
    requires Sound(w) && session in w.live
    ensures Sound(Step(w, Drop(session))) <==>
            forall t :: t in w.index && w.index[t] == session ==> t == Current(w, session)
  {
    var after := Step(w, Drop(session));
    if forall t :: t in w.index && w.index[t] == session ==> t == Current(w, session) {
      forall t | t in after.index ensures t != "" && Leads(after, t, after.index[t]) {
        assert t in w.index && t != "" && Leads(w, t, w.index[t]);
      }
    } else {
      var t :| t in w.index && w.index[t] == session && t != Current(w, session);
      assert t in after.index && !Leads(after, t, session);
    }
  }

  /** The other steps never break it. */
  lemma {:induction false} OthersKeepSound(w: World, a: Action)
    requires Sound(w) && WellMade(w) && !a.IndexToken? && !a.Drop?
    ensures Sound(Step(w, a))
  {
    var after := Step(w, a);
    forall t | t in after.index ensures t != "" && Leads(after, t, after.index[t]) {
      assert t in w.index && t != "" && Leads(w, t, w.index[t]);
      if a.Rotate? && Enabled(w, a) { RotatedStillLeads(w, a.session, a.token, t); }
    }
  }

  lemma {:induction false} RotatedStillLeads(w: World, session: nat, token: string, t: string)
    requires Sound(w) && WellMade(w) && Enabled(w, Rotate(session, token)) && t in w.index
    ensures Leads(Step(w, Rotate(session, token)), t, w.index[t])
  {
    var after, s := Step(w, Rotate(session, token)), w.index[t];
    assert Leads(w, t, s);
    if Current(w, s) == t {
      if s == session { assert after.pending[token] == Issue(s, t); }
    } else {
      var u :| u in w.pending && w.pending[u] == Issue(s, t);
      assert u != token && after.pending[u] == Issue(s, t);
    }
  }

  lemma {:induction false} StepKeepsMade(w: World, a: Action)
    requires WellMade(w)
    ensures WellMade(Step(w, a))
  {
    hide Full;
  }

  /** What a step must find for tokens to keep leading to live sessions only. */
  predicate InOrder(w: World, a: Action) {
    match a
    case IndexToken(t) => t in w.pending ==> StillAnswers(w, t)
    case Drop(session) => session in w.live ==> forall t :: t in w.index && w.index[t] == session ==> t == Current(w, session)
    case _ => true
  }

  /** A run in which every step found that. */
  predicate AllInOrder(maxSessions: int, actions: seq<Action>) {
    actions == [] ||
    (AllInOrder(maxSessions, actions[..|actions| - 1]) && InOrder(Run(maxSessions, actions[..|actions| - 1]), actions[|actions| - 1]))
  }

  /** A run stays right up to the first token that is indexed for a session that no longer answers to
      it, or session that is dropped while an older token leads to it, and is wrong after that step. */
  lemma {:induction false} SoundUntilStale(maxSessions: int, actions: seq<Action>, a: Action)
    requires AllInOrder(maxSessions, actions)
    ensures Sound(Run(maxSessions, actions))
    ensures Sound(Run(maxSessions, actions + [a])) <==> InOrder(Run(maxSessions, actions), a)
  {
    hide Step, Sound, InOrder;
    OrderedRunsAreSound(maxSessions, actions);
    StepSoundIff(Run(maxSessions, actions), a);
    assert (actions + [a])[..|actions|] == actions;
  }

  /** While no step finds either, every token in the index leads to a live session. */
  lemma {:induction false} OrderedRunsAreSound(maxSessions: int, actions: seq<Action>)
    requires AllInOrder(maxSessions, actions)
    ensures Sound(Run(maxSessions, actions)) && WellMade(Run(maxSessions, actions))
  {
    hide Step, InOrder;
    if actions != [] {
      var before, a := Run(maxSessions, actions[..|actions| - 1]), actions[|actions| - 1];
      OrderedRunsAreSound(maxSessions, actions[..|actions| - 1]);
      StepKeepsMade(before, a);
      StepSoundIff(before, a);
    }
  }

  lemma {:induction false} StepSoundIff(w: World, a: Action)
    requires Sound(w) && WellMade(w)
    ensures Sound(Step(w, a)) <==> InOrder(w, a)
  {
    hide Leads, Sound, WellMade, StillAnswers;
    match a
    case IndexToken(t) => if t in w.pending { IndexSoundIff(w, t); }
    case Drop(session) => if session in w.live { DropSoundIff(w, session); }
    case _ => OthersKeepSound(w, a);
  }

  // ---------------------------------------------------------------- one issue or drop at a time

  function WaitingAfter(waiting: map<string, nat>, a: Action): map<string, nat> {
    match a
    case Rotate(session, token) => waiting[token := session]
    case IndexToken(token) => waiting - {token}
    case _ => waiting
  }

  /** The tokens rotated in and not indexed yet, with their sessions: read off the actions alone. */
  function Waiting(actions: seq<Action>): map<string, nat> {
    if actions == [] then map[] else WaitingAfter(Waiting(actions[..|actions| - 1]), actions[|actions| - 1])
  }

  /** No issue of the session is under way. */
  predicate Quiet(waiting: map<string, nat>, session: nat) {
    forall t :: t in waiting ==> waiting[t] != session
  }

  /** The action waits for its turn: a session is issued a token, dropped or closed only when no issue
      of it is under way, and issued one only while it is live. */
  predicate TakesTurns(live: map<nat, string>, waiting: map<string, nat>, a: Action) {
    match a
    case Rotate(session, _) => session in live && Quiet(waiting, session)
    case Drop(session) => Quiet(waiting, session)
    case CloseAll => waiting == map[]
    case _ => true
  }

  predicate InTurn(w: World, waiting: map<string, nat>, a: Action) {
    a.IndexToken? || (Enabled(w, a) && TakesTurns(w.live, waiting, a))
  }

  /** A run of actions that can happen and that take turns. */
  predicate OneAtATime(maxSessions: int, actions: seq<Action>) {
    actions == [] ||
    var most := actions[..|actions| - 1];
    OneAtATime(maxSessions, most) && InTurn(Run(maxSessions, most), Waiting(most), actions[|actions| - 1])
  }

  /** The waiting issues are those of the actions; each is its live session's newest, and its only. */
  predicate Tidy(w: World, waiting: map<string, nat>) {
    && waiting.Keys == w.pending.Keys
    && (forall t :: t in w.pending ==>
          waiting[t] == w.pending[t].session && w.pending[t].session in w.live && Current(w, w.pending[t].session) == t)
  }

  lemma {:induction false} StepTidy(w: World, waiting: map<string, nat>, a: Action)
    requires Tidy(w, waiting) && WellMade(w) && InTurn(w, waiting, a)
    ensures Tidy(Step(w, a), WaitingAfter(waiting, a))
  {
    hide Full;
  }

  lemma {:induction false} TurnsAreInOrder(w: World, waiting: map<string, nat>, a: Action)
    requires Tidy(w, waiting) && Sound(w) && InTurn(w, waiting, a)
    ensures InOrder(w, a)
  {
    if a.Drop? {
      forall t | t in w.index && w.index[t] == a.session ensures t == Current(w, a.session) {
        assert Leads(w, t, a.session);
        assert forall u :: u in w.pending ==> u in waiting && waiting[u] != a.session;
      }
    }
  }

  /** If a session's issues and drops are done one at a time, every token in the index leads to a live
      session at every point, and between issues it is the session's current one. */
  lemma {:induction false} TurnsAreSound(maxSessions: int, actions: seq<Action>)
    requires OneAtATime(maxSessions, actions)
    ensures var w := Run(maxSessions, actions);
            && Sound(w)
            && (forall t :: t in w.index && Quiet(Waiting(actions), w.index[t]) ==> Current(w, w.index[t]) == t)
  {
    hide Step, OneAtATime;
    TurnsAreTidy(maxSessions, actions);
    var w, waiting := Run(maxSessions, actions), Waiting(actions);
    forall t | t in w.index && Quiet(waiting, w.index[t]) ensures Current(w, w.index[t]) == t {
      assert Leads(w, t, w.index[t]);
      assert forall u :: u in w.pending ==> u in waiting && waiting[u] != w.index[t];
    }
  }

  lemma {:induction false} TurnsAreTidy(maxSessions: int, actions: seq<Action>)
    requires OneAtATime(maxSessions, actions)
    ensures var w := Run(maxSessions, actions); Sound(w) && WellMade(w) && Tidy(w, Waiting(actions))
  {
    hide Step, InTurn, Tidy, InOrder;
    if actions == [] {
      StartIsTidy(maxSessions);
    } else {
      var most, a := actions[..|actions| - 1], actions[|actions| - 1];
      var before := Run(maxSessions, most);
      TurnsAreTidy(maxSessions, most);
      StepKeepsMade(before, a);
      TurnsAreInOrder(before, Waiting(most), a);
      StepSoundIff(before, a);
      StepTidy(before, Waiting(most), a);
    }
  }

  lemma {:induction false} StartIsTidy(maxSessions: int)
    ensures var w := Initial(maxSessions); Sound(w) && WellMade(w) && Tidy(w, map[])
  {}

  predicate OnlyIndexes(rest: seq<Action>) {
    forall i :: 0 <= i < |rest| ==> rest[i].IndexToken?
  }

  /** Taking turns is exactly what it takes: after a run in turns, an action takes its turn if and only
      if the index stays right in whatever order the issues under way are then finished. */
  lemma {:induction false} TurnsAreNeeded(maxSessions: int, actions: seq<Action>, a: Action)
    requires OneAtATime(maxSessions, actions) && Enabled(Run(maxSessions, actions), a)
    ensures TakesTurns(Run(maxSessions, actions).live, Waiting(actions), a)
            <==> forall rest :: OnlyIndexes(rest) ==> Sound(Run(maxSessions, actions + [a] + rest))
  {
    hide Sound, OnlyIndexes, TakesTurns;
    if TakesTurns(Run(maxSessions, actions).live, Waiting(actions), a) {
      forall rest | OnlyIndexes(rest) ensures Sound(Run(maxSessions, actions + [a] + rest)) {
        OneMoreTurn(maxSessions, actions, a);
        FinishingTakesTurns(maxSessions, actions + [a], rest);
        TurnsAreSound(maxSessions, actions + [a] + rest);
      }
    } else {
      var rest := OutOfTurnLeaks(maxSessions, actions, a);
    }
  }

  lemma {:induction false} OneMoreTurn(maxSessions: int, actions: seq<Action>, a: Action)
    requires OneAtATime(maxSessions, actions) && InTurn(Run(maxSessions, actions), Waiting(actions), a)
    ensures OneAtATime(maxSessions, actions + [a])
  {
    hide InTurn, Run, Waiting;
    assert (actions + [a])[..|actions|] == actions;
  }

  lemma {:induction false} FinishingTakesTurns(maxSessions: int, actions: seq<Action>, rest: seq<Action>)
    requires OneAtATime(maxSessions, actions) && OnlyIndexes(rest)
    ensures OneAtATime(maxSessions, actions + rest)
  {
    hide OneAtATime, Run, Waiting;
    if rest == [] {
      assert actions + rest == actions;
    } else {
      var most, last := rest[..|rest| - 1], rest[|rest| - 1];
      FinishingTakesTurns(maxSessions, actions, most);
      OneMoreTurn(maxSessions, actions + most, last);
      assert actions + rest == (actions + most) + [last];
    }
  }

  /** An action out of turn, and a way to finish what is under way that leaves a stale token. */
  lemma {:induction false} OutOfTurnLeaks(maxSessions: int, actions: seq<Action>, a: Action) returns (rest: seq<Action>)
    requires OneAtATime(maxSessions, actions)
    requires Enabled(Run(maxSessions, actions), a) && !TakesTurns(Run(maxSessions, actions).live, Waiting(actions), a)
    ensures OnlyIndexes(rest) && !Sound(Run(maxSessions, actions + [a] + rest))
  {
    var w, waiting := Run(maxSessions, actions), Waiting(actions);
    TurnsAreTidy(maxSessions, actions);
    RunNext(maxSessions, actions, a);
    hide Run, Waiting, OneAtATime, Step, Tidy, Sound, TakesTurns;
    if a.Rotate? && a.session in w.live {
      var t := RotatedPast(w, waiting, a);
      rest := [IndexToken(a.token), IndexToken(t)];
      assert actions + [a] + rest == (actions + [a] + [IndexToken(a.token)]) + [IndexToken(t)];
      RunNext(maxSessions, actions + [a], IndexToken(a.token));
      RunNext(maxSessions, actions + [a] + [IndexToken(a.token)], IndexToken(t));
      RotatedPastLeaks(w, waiting, a.session, a.token, t);
    } else {
      var t := LeftBehind(w, waiting, a);
      rest := [IndexToken(t)];
      RunNext(maxSessions, actions + [a], IndexToken(t));
      GoneLeaks(Step(w, a), t);
    }
  }

  lemma {:induction false} RotatedPast(w: World, waiting: map<string, nat>, a: Action) returns (t: string)
    requires a.Rotate? && a.session in w.live && !TakesTurns(w.live, waiting, a)
    ensures t in waiting && waiting[t] == a.session
  {
    t :| t in waiting && waiting[t] == a.session;
  }

  /** Any other action out of turn leaves an issue waiting whose session is gone. */
  lemma {:induction false} LeftBehind(w: World, waiting: map<string, nat>, a: Action) returns (t: string)
    requires Tidy(w, waiting) && Enabled(w, a) && !TakesTurns(w.live, waiting, a)
    requires !(a.Rotate? && a.session in w.live)
    ensures var after := Step(w, a); t in after.pending && after.pending[t].session !in after.live
  {
    t := if a.Rotate? then a.token else if a.Drop? then Waited(waiting, a.session) else Any(waiting);
  }

  ghost function Waited(waiting: map<string, nat>, session: nat): (t: string)
    requires !Quiet(waiting, session)
    ensures t in waiting && waiting[t] == session
  {
    var t :| t in waiting && waiting[t] == session;
    t
  }

  ghost function Any(waiting: map<string, nat>): (t: string)
    requires waiting != map[]
    ensures t in waiting
  {
    var t :| t in waiting;
    t
  }

  lemma {:induction false} GoneLeaks(w: World, t: string)
    requires t in w.pending && w.pending[t].session !in w.live
    ensures !Sound(Step(w, IndexToken(t)))
  {
    hide Sound;
    NotSoundIf(Step(w, IndexToken(t)), t);
  }

  lemma {:induction false} RotatedPastLeaks(w: World, waiting: map<string, nat>, session: nat, token: string, t: string)
    requires Tidy(w, waiting) && Enabled(w, Rotate(session, token)) && WellMade(w)
    requires t in waiting && waiting[t] == session
    ensures !Sound(Step(Step(Step(w, Rotate(session, token)), IndexToken(token)), IndexToken(t)))
  {
    var w1 := Step(w, Rotate(session, token));
    var w2 := Step(w1, IndexToken(token));
    var w3 := Step(w2, IndexToken(t));
    assert t != token && w3.index[t] == session && Current(w3, session) == token;
    assert forall u :: u in w3.pending ==> u in w.pending && w3.pending[u] == w.pending[u];
    hide Sound;
    assert forall u :: u in w3.pending && w3.pending[u] == Issue(session, t) ==> u in waiting && waiting[u] == session && u == Current(w, session);
    NotSoundIf(w3, t);
  }

  // ---------------------------------------------------------------- when they are not

  /** Two issues of one session that overlap: the first to rotate is the last to index, and its token,
      which the session no longer answers to, outlives the session. Nothing was dropped in between. */
  lemma {:induction false} OverlappingIssuesLeak(maxSessions: int, id: string, t1: string, t2: string)
    requires t1 != "" && t2 != "" && t1 != t2
    ensures var actions := [Create(id), Rotate(0, t1), Rotate(0, t2), IndexToken(t2), IndexToken(t1)];
            !Sound(Run(maxSessions, actions))
    ensures var actions := [Create(id), Rotate(0, t1), Rotate(0, t2), IndexToken(t2), IndexToken(t1), Drop(0)];
            var w := Run(maxSessions, actions);
            w.live == map[] && t1 in w.index && w.index[t1] == 0 && Step(w, Take(t1)).granted == [t1]
  {
    hide Run, Step, Sound;
    var a1, a2, a3, a4, a5, a6 := Create(id), Rotate(0, t1), Rotate(0, t2), IndexToken(t2), IndexToken(t1), Drop(0);
    assert [] + [a1] == [a1] && [a1] + [a2] == [a1, a2] && [a1, a2] + [a3] == [a1, a2, a3];
    assert [a1, a2, a3] + [a4] == [a1, a2, a3, a4] && [a1, a2, a3, a4] + [a5] == [a1, a2, a3, a4, a5];
    assert [a1, a2, a3, a4, a5] + [a6] == [a1, a2, a3, a4, a5, a6];
    RunNext(maxSessions, [], a1);
    RunNext(maxSessions, [a1], a2);
    RunNext(maxSessions, [a1, a2], a3);
    RunNext(maxSessions, [a1, a2, a3], a4);
    RunNext(maxSessions, [a1, a2, a3, a4], a5);
    RunNext(maxSessions, [a1, a2, a3, a4, a5], a6);
    Overlapped(maxSessions, id, t1, t2);
  }

  /** A world that has made one session. */
  function Single(maxSessions: int, live: map<nat, string>, current: string, index: map<string, nat>, pending: map<string, Issue>,
                  minted: set<string>): World {
    World(maxSessions, 1, live, map[0 := current], index, pending, minted, [])
  }

  lemma {:induction false} BothRotated(maxSessions: int, id: string, t1: string, t2: string)
    requires t1 != "" && t2 != "" && t1 != t2
    ensures Step(Step(Step(Initial(maxSessions), Create(id)), Rotate(0, t1)), Rotate(0, t2))
         == Single(maxSessions, map[0 := id], t2, map[], map[t1 := Issue(0, ""), t2 := Issue(0, t1)], {t1, t2})
  {
    var w1 := Step(Initial(maxSessions), Create(id));
    assert w1 == Initial(maxSessions).(made := 1, live := map[0 := id]);
    var w2 := Step(w1, Rotate(0, t1));
    assert w2 == w1.(current := map[0 := t1], pending := map[t1 := Issue(0, "")], minted := {t1});
  }

  lemma {:induction false} BothIndexed(w: World, id: string, t1: string, t2: string)
    requires t1 != "" && t2 != "" && t1 != t2
    requires w == Single(w.maxSessions, map[0 := id], t2, map[], map[t1 := Issue(0, ""), t2 := Issue(0, t1)], {t1, t2})
    ensures Step(Step(w, IndexToken(t2)), IndexToken(t1))
         == Single(w.maxSessions, map[0 := id], t2, map[t2 := 0, t1 := 0], map[], {t1, t2})
  {
    var w4 := Step(w, IndexToken(t2));
    assert w4 == w.(index := map[t2 := 0], pending := map[t1 := Issue(0, "")]);
  }

  /** The same steps, one at a time. */
  lemma {:induction false} Overlapped(maxSessions: int, id: string, t1: string, t2: string)
    requires t1 != "" && t2 != "" && t1 != t2
    ensures var w := Step(Step(Step(Step(Step(Initial(maxSessions), Create(id)), Rotate(0, t1)), Rotate(0, t2)), IndexToken(t2)), IndexToken(t1));
            && !Sound(w)
            && Step(w, Drop(0)).live == map[] && t1 in Step(w, Drop(0)).index && Step(w, Drop(0)).index[t1] == 0
            && Step(Step(w, Drop(0)), Take(t1)).granted == [t1]
  {
    BothRotated(maxSessions, id, t1, t2);
    var w3 := Single(maxSessions, map[0 := id], t2, map[], map[t1 := Issue(0, ""), t2 := Issue(0, t1)], {t1, t2});
    BothIndexed(w3, id, t1, t2);
    var w5 := Single(maxSessions, map[0 := id], t2, map[t2 := 0, t1 := 0], map[], {t1, t2});
    DroppedStale(w5, id, t1, t2);
    hide Sound, Step;
    assert !Leads(w5, t1, 0);
    NotSoundIf(w5, t1);
  }

  lemma {:induction false} DroppedStale(w: World, id: string, t1: string, t2: string)
    requires t1 != "" && t2 != "" && t1 != t2
    requires w == Single(w.maxSessions, map[0 := id], t2, map[t2 := 0, t1 := 0], map[], {t1, t2})
    ensures var after := Step(w, Drop(0));
            after.live == map[] && t1 in after.index && after.index[t1] == 0 && Step(after, Take(t1)).granted == [t1]
  {
    assert Step(w, Drop(0)) == w.(live := map[], index := map[t1 := 0]);
  }

  /** A session removed between the two halves of an issue is indexed afterwards, and its token then
      resumes a session that no longer exists. */
  lemma {:induction false} RemovedSessionIsResumed(maxSessions: int, id: string, t: string)
    requires t != ""
    ensures var w := Run(maxSessions, [Create(id), Rotate(0, t), Drop(0), IndexToken(t)]);
            && w.live == map[] && t in w.index && w.index[t] == 0 && !Sound(w)
            && Step(w, Take(t)).granted == [t]
  {
    hide Run, Step, Sound;
    var a1, a2, a3, a4 := Create(id), Rotate(0, t), Drop(0), IndexToken(t);
    assert [] + [a1] == [a1] && [a1] + [a2] == [a1, a2];
    assert [a1, a2] + [a3] == [a1, a2, a3] && [a1, a2, a3] + [a4] == [a1, a2, a3, a4];
    RunNext(maxSessions, [], a1);
    RunNext(maxSessions, [a1], a2);
    RunNext(maxSessions, [a1, a2], a3);
    RunNext(maxSessions, [a1, a2, a3], a4);
    Unmade(maxSessions, id, t);
  }

  /** The same four steps, one at a time. */
  lemma {:induction false} Unmade(maxSessions: int, id: string, t: string)
    requires t != ""
    ensures var w := Step(Step(Step(Step(Initial(maxSessions), Create(id)), Rotate(0, t)), Drop(0)), IndexToken(t));
            w.live == map[] && t in w.index && w.index[t] == 0 && !Sound(w) && Step(w, Take(t)).granted == [t]
  {
    var w1 := Step(Initial(maxSessions), Create(id));
    assert w1 == Initial(maxSessions).(made := 1, live := map[0 := id]);
    var w2 := Step(w1, Rotate(0, t));
    assert w2 == w1.(current := map[0 := t], pending := map[t := Issue(0, "")], minted := {t});
    var w3 := Step(w2, Drop(0));
    assert w3.live == map[] && w3.index == map[] && w3.pending == w2.pending && w3.granted == [];
    var w4 := Step(w3, IndexToken(t));
    hide Sound;
    assert w4.index == map[t := 0] && w4.live == map[] && w4.granted == [];
    NotSoundIf(w4, t);
  }

  lemma {:induction false} RunNext(maxSessions: int, actions: seq<Action>, a: Action)
    ensures Run(maxSessions, []) == Initial(maxSessions)
    ensures Run(maxSessions, actions + [a]) == Step(Run(maxSessions, actions), a)
  {
    hide Step;
    assert (actions + [a])[..|actions|] == actions;
  }
}
