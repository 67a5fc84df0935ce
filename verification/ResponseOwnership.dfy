/** Which response owns the audio path (internal/pipeline/agent.go).

    An atomic generation counter and a mutex-guarded cancel handle decide it. The blocks are
    verified as methods of `Pipeline`, and the same blocks, cut at every lock operation and every
    atomic load or add, are the steps of a state machine in which any number of responses,
    supersede calls and the greeting interleave freely. */
module ResponseOwnership {
  import opened Wrappers

  // ---------------------------------------------------------------- the shared words

  /** `handle` names the response whose cancel function is stored; `dead` holds the responses
      whose context has been cancelled. */
  datatype Shared = Shared(gen: nat, handle: Option<nat>, handleGen: nat, dead: set<nat>)

  const FRESH: Shared := Shared(0, None, 0, {})

  function CallHandle(o: Shared): Shared {
    if o.handle.Some? then o.(dead := o.dead + {o.handle.value}) else o
  }

  function CancelCurrent(o: Shared): Shared {
    CallHandle(o).(handle := None)
  }

  function Install(o: Shared, id: nat, gen: nat): Shared {
    CallHandle(o).(handle := Some(id), handleGen := gen)
  }

  function Release(o: Shared, gen: nat): Shared {
    if o.handleGen == gen then o.(handle := None) else o
  }

  /** The ownership fields of a pipeline; cancel functions are named by the response they belong
      to and `cancelled` records the ones that were called. */
  class Pipeline {
    var responseGen: nat
    var responseCancel: Option<nat>
    var responseCancelGen: nat
    var cancelled: set<nat>
    // The frames queued for the sender, and when the agent last stopped speaking.
    var outPCM: seq<seq<int>>
    var speaking: bool
    var speechEndedAt: int

    function Words(): Shared
      reads `responseGen, `responseCancel, `responseCancelGen, `cancelled
    {
      Shared(responseGen, responseCancel, responseCancelGen, cancelled)
    }

    constructor ()
      ensures Words() == FRESH && outPCM == [] && !speaking
    {
      responseGen, responseCancel, responseCancelGen, cancelled := 0, None, 0, {};
      outPCM, speaking, speechEndedAt := [], false, 0;
    }

    method CancelResponse()
      modifies `responseCancel, `cancelled
      ensures Words() == CancelCurrent(old(Words()))
    {
      if responseCancel != None {
        cancelled := cancelled + {responseCancel.value};
        responseCancel := None;
      }
    }

    method DrainOutbound()
      modifies `outPCM
      ensures outPCM == []
    {
      while outPCM != [] {
        outPCM := outPCM[1..];
      }
    }

    /** Stamps the moment at which the agent stops speaking, and no other. */
    method SetSpeaking(on: bool, now: int)
      modifies `speaking, `speechEndedAt
      ensures speaking == on
      ensures speechEndedAt == if old(speaking) && !on then now else old(speechEndedAt)
    {
      var before := speaking;
      speaking := on;
      if before && !on {
        speechEndedAt := now;
      }
    }

    /** Clears the audio path: a new generation, its predecessor cancelled, its queued frames gone. */
    method SupersedeResponse(now: int) returns (gen: nat)
      modifies this
      ensures gen == old(responseGen) + 1
      ensures Words() == CancelCurrent(old(Words()).(gen := gen))
      ensures outPCM == [] && !speaking && speechEndedAt == if old(speaking) then now else old(speechEndedAt)
    {
      responseGen := responseGen + 1;
      gen := responseGen;
      CancelResponse();
      DrainOutbound();
      SetSpeaking(false, now);
    }

    /** Refuses a superseded generation; otherwise the previous response is cancelled and `id`
        becomes the one a supersede would cancel. */
    method RegisterResponse(gen: nat, id: nat) returns (ok: bool)
      modifies `responseCancel, `responseCancelGen, `cancelled
      ensures ok == (old(responseGen) == gen)
      ensures Words() == if ok then Install(old(Words()), id, gen) else old(Words())
    {
      if responseGen != gen {
        return false;
      }
      if responseCancel != None {
        cancelled := cancelled + {responseCancel.value};
      }
      responseCancel := Some(id);
      responseCancelGen := gen;
      return true;
    }

    /** A superseded response leaves the speaking flag to its successor. */
    method FinishResponse(gen: nat, now: int) returns (stale: bool)
      modifies `responseCancel, `speaking, `speechEndedAt
      ensures stale == (old(responseGen) != gen)
      ensures Words() == Release(old(Words()), gen)
      ensures speaking == (old(speaking) && stale)
      ensures speechEndedAt == if old(speaking) && !stale then now else old(speechEndedAt)
    {
      if responseCancelGen == gen {
        responseCancel := None;
      }
      stale := responseGen != gen;
      if stale {
        return;
      }
      SetSpeaking(false, now);
    }
  }

  // ---------------------------------------------------------------- the interleaved protocol

  /** Where a response (or the greeting) is. Loading the counter and acting on it are separate
      steps, so the counter may move in between; the lock is held from `Entering` to `Installed`
      or `Refusing`, and from `Leaving` to `Left`. */
  datatype Phase =
    | Dispatched
    | Entering
    | Loaded(value: nat)
    | Installed
    | Refusing
    | Running
    | Refused
    | Unwinding
    | Leaving
    | Left
    | Done

  datatype Response = Response(gen: nat, phase: Phase) {
    predicate Registered() {
      phase in {Installed, Running, Unwinding, Leaving, Left, Done}
    }
    predicate HoldsLock() {
      phase in {Entering, Installed, Refusing, Leaving, Left} || phase.Loaded?
    }
  }

  /** A call of supersedeResponse, after its atomic add. */
  datatype SupersedePhase = Bumped | Locked | Cancelled | Released | Answered

  datatype Supersede = Supersede(gen: nat, phase: SupersedePhase) {
    predicate HasCancelled() {
      phase in {Cancelled, Released, Answered}
    }
    predicate HoldsLock() {
      phase in {Locked, Cancelled}
    }
  }

  datatype Owner = Nobody | ByResponse(i: nat) | BySupersede(j: nat)

  datatype State = State(o: Shared, lock: Owner, resps: seq<Response>, sups: seq<Supersede>,
                         greeted: bool, down: bool) {
    predicate Live(i: nat) {
      !down && i !in o.dead
    }
  }

  const INIT: State := State(FRESH, Nobody, [], [], false, false)

  datatype Step =
    | Bump                     // responseGen.Add(1)
    | LockCancel(j: nat)       // responseMu.Lock in cancelResponse
    | Cancel(j: nat)
    | UnlockCancel(j: nat)
    | Dispatch(j: nat)         // go p.respond(gen, ...)
    | Greet                    // responseGen.Load in greet
    | LockRegister(i: nat)
    | LoadRegister(i: nat)     // responseGen.Load under the lock
    | Register(i: nat)
    | UnlockRegister(i: nat)
    | EndContext(i: nat)       // the deferred cancel()
    | LockFinish(i: nat)
    | Finish(i: nat)
    | UnlockFinish(i: nat)
    | Shutdown                 // the pipeline's own context ends

  predicate Enabled(s: State, step: Step) {
    match step
    case Bump => true
    case LockCancel(j) => j < |s.sups| && s.sups[j].phase == Bumped && s.lock == Nobody
    case Cancel(j) => j < |s.sups| && s.sups[j].phase == Locked
    case UnlockCancel(j) => j < |s.sups| && s.sups[j].phase == Cancelled
    case Dispatch(j) => j < |s.sups| && s.sups[j].phase == Released
    case Greet => !s.greeted
    case LockRegister(i) => i < |s.resps| && s.resps[i].phase == Dispatched && s.lock == Nobody
    case LoadRegister(i) => i < |s.resps| && s.resps[i].phase == Entering
    case Register(i) => i < |s.resps| && s.resps[i].phase.Loaded?
    case UnlockRegister(i) => i < |s.resps| && s.resps[i].phase in {Installed, Refusing}
    case EndContext(i) => i < |s.resps| && s.resps[i].phase in {Running, Refused}
    case LockFinish(i) => i < |s.resps| && s.resps[i].phase == Unwinding && s.lock == Nobody
    case Finish(i) => i < |s.resps| && s.resps[i].phase == Leaving
    case UnlockFinish(i) => i < |s.resps| && s.resps[i].phase == Left
    case Shutdown => true
  }

  function MoveResponse(s: State, i: nat, phase: Phase): State
    requires i < |s.resps|
  {
    s.(resps := s.resps[i := s.resps[i].(phase := phase)])
  }

  function MoveSupersede(s: State, j: nat, phase: SupersedePhase): State
    requires j < |s.sups|
  {
    s.(sups := s.sups[j := s.sups[j].(phase := phase)])
  }

  function Next(s: State, step: Step): State
    requires Enabled(s, step)
  {
    match step
    case Bump =>
      s.(o := s.o.(gen := s.o.gen + 1), sups := s.sups + [Supersede(s.o.gen + 1, Bumped)])
    case LockCancel(j) => MoveSupersede(s, j, Locked).(lock := BySupersede(j))
    case Cancel(j) => MoveSupersede(s, j, Cancelled).(o := CancelCurrent(s.o))
    case UnlockCancel(j) => MoveSupersede(s, j, SupersedePhase.Released).(lock := Nobody)
    case Dispatch(j) =>
      MoveSupersede(s, j, Answered).(resps := s.resps + [Response(s.sups[j].gen, Dispatched)])
    case Greet => s.(resps := s.resps + [Response(s.o.gen, Dispatched)], greeted := true)
    case LockRegister(i) => MoveResponse(s, i, Entering).(lock := ByResponse(i))
    case LoadRegister(i) => MoveResponse(s, i, Loaded(s.o.gen))
    case Register(i) =>
      if s.resps[i].phase.value == s.resps[i].gen
      then MoveResponse(s, i, Installed).(o := Install(s.o, i, s.resps[i].gen))
      else MoveResponse(s, i, Refusing)
    case UnlockRegister(i) =>
      MoveResponse(s, i, if s.resps[i].phase == Installed then Running else Refused).(lock := Nobody)
    case EndContext(i) =>
      MoveResponse(s, i, if s.resps[i].phase == Running then Unwinding else Refused)
        .(o := s.o.(dead := s.o.dead + {i}))
    case LockFinish(i) => MoveResponse(s, i, Leaving).(lock := ByResponse(i))
    case Finish(i) => MoveResponse(s, i, Left).(o := Release(s.o, s.resps[i].gen))
    case UnlockFinish(i) => MoveResponse(s, i, Done).(lock := Nobody)
    case Shutdown => s.(down := true)
  }

  /** The steps can be taken one after the other from `s`. */
  predicate Possible(s: State, steps: seq<Step>)
    decreases |steps|
  {
    steps == [] || (Enabled(s, steps[0]) && Possible(Next(s, steps[0]), steps[1..]))
  }

  function Run(s: State, steps: seq<Step>): State
    requires Possible(s, steps)
    decreases |steps|
  {
    if steps == [] then s else Run(Next(s, steps[0]), steps[1..])
  }

  /** The greeting reads `g` from the counter, if it is ever spoken. */
  predicate GreetingReads(s: State, steps: seq<Step>, g: nat)
    requires Possible(s, steps)
    decreases |steps|
  {
    steps == [] || ((steps[0].Greet? ==> s.o.gen == g) && GreetingReads(Next(s, steps[0]), steps[1..], g))
  }

  /** The turn of generation `g` is never answered. */
  predicate NeverAnswers(s: State, steps: seq<Step>, g: nat)
    requires Possible(s, steps)
    decreases |steps|
  {
    steps == [] || ((steps[0].Dispatch? ==> s.sups[steps[0].j].gen != g) && NeverAnswers(Next(s, steps[0]), steps[1..], g))
  }

  // ---------------------------------------------------------------- what the protocol promises

  /** At most one registered response still has a live context, and the stored handle cancels it. */
  predicate OneOwner(s: State) {
    forall i :: 0 <= i < |s.resps| && s.resps[i].Registered() && s.Live(i) ==> s.o.handle == Some(i)
  }

  /** Once a supersede call has cancelled, an older response is cancelled or can no longer
      register. */
  predicate OldRetired(s: State) {
    forall i, j :: 0 <= i < |s.resps| && 0 <= j < |s.sups|
                   && s.sups[j].HasCancelled() && s.resps[i].gen < s.sups[j].gen
                   ==> !s.Live(i) || (!s.resps[i].Registered() && WillBeRefused(s, i))
  }

  /** The counter has passed this response, and so did any value it already loaded. */
  predicate WillBeRefused(s: State, i: nat)
    requires i < |s.resps|
  {
    s.resps[i].gen < s.o.gen && (s.resps[i].phase.Loaded? ==> s.resps[i].phase.value != s.resps[i].gen)
  }

  predicate Safe(s: State) {
    OneOwner(s) && OldRetired(s)
  }

  // ---------------------------------------------------------------- what does happen

  /** Under the lock a response registers exactly if the counter it read there is its generation: the
      handle is then its own, and what the handle was for is cancelled. */
  lemma {:induction false} RegistersIff(s: State, i: nat)
    requires Enabled(s, Register(i))
    ensures var after := Next(s, Register(i)); var was := s.o.handle;
            if s.resps[i].phase.value == s.resps[i].gen
            then after.resps[i].phase == Installed && after.o.handle == Some(i)
                 && after.o.dead == s.o.dead + (if was.Some? then {was.value} else {})
            else after.resps[i].phase == Refusing && after.o == s.o
  {}

  /** A supersede moves the counter on by one, and under the lock cancels whoever has the handle. */
  lemma {:induction false} SupersedeMeans(s: State, j: nat)
    ensures Next(s, Bump).o == s.o.(gen := s.o.gen + 1) && Next(s, Bump).sups == s.sups + [Supersede(s.o.gen + 1, Bumped)]
    ensures Enabled(s, Cancel(j)) ==>
              var after := Next(s, Cancel(j)); var was := s.o.handle;
              after.o.handle == None && after.o.gen == s.o.gen && after.o.dead == s.o.dead + (if was.Some? then {was.value} else {})
    ensures Enabled(s, Dispatch(j)) ==> Next(s, Dispatch(j)).resps == s.resps + [Response(s.sups[j].gen, Dispatched)]
  {}

  /** The stored handle is that of a response that registered for its generation and has not let go. */
  predicate HandleHeld(s: State) {
    s.o.handle.Some? ==>
      var i := s.o.handle.value;
      i < |s.resps| && s.o.handleGen == s.resps[i].gen && s.resps[i].phase in {Installed, Running, Unwinding, Leaving}
  }

  lemma {:induction false} StepHoldsHandle(s: State, step: Step)
    requires Enabled(s, step) && HandleHeld(s)
    ensures HandleHeld(Next(s, step))
  {}

  lemma {:induction false} RunHoldsHandle(s: State, steps: seq<Step>)
    requires Possible(s, steps) && HandleHeld(s)
    ensures HandleHeld(Run(s, steps))
    decreases |steps|
  {
    hide Next, Enabled, HandleHeld;
    if steps != [] {
      StepHoldsHandle(s, steps[0]);
      RunHoldsHandle(Next(s, steps[0]), steps[1..]);
    }
  }

  /** In every run a response that has finished has let go of the handle: a later supersede never calls
      the handle of a response that is done. */
  lemma {:induction false} DoneLetsGo(steps: seq<Step>, i: nat)
    requires Possible(INIT, steps)
    ensures var s := Run(INIT, steps); i < |s.resps| && s.resps[i].phase in {Left, Done} ==> s.o.handle != Some(i)
  {
    hide Next, Enabled;
    RunHoldsHandle(INIT, steps);
  }

  // ---------------------------------------------------------------- the inductive invariant

  /** The lock has one holder, and the holder is inside a locked block. */
  predicate Exclusive(s: State) {
    ResponsesExclude(s) && SupersedesExclude(s)
  }

  predicate ResponsesExclude(s: State) {
    && (s.lock.ByResponse? ==> s.lock.i < |s.resps|)
    && (forall i :: 0 <= i < |s.resps| ==> (s.resps[i].HoldsLock() <==> s.lock == ByResponse(i)))
  }

  predicate SupersedesExclude(s: State) {
    && (s.lock.BySupersede? ==> s.lock.j < |s.sups|)
    && (forall j :: 0 <= j < |s.sups| ==> (s.sups[j].HoldsLock() <==> s.lock == BySupersede(j)))
  }

  /** Every supersede call mints the next generation. */
  predicate Minted(s: State) {
    s.o.gen == |s.sups| && (forall j :: 0 <= j < |s.sups| ==> s.sups[j].gen == j + 1)
  }

  /** The greeting carries `g`; a response carries the generation of the call that dispatched it. */
  predicate Carried(s: State, g: nat) {
    forall i :: 0 <= i < |s.resps| ==>
      if s.resps[i].gen == g then s.greeted
      else 1 <= s.resps[i].gen <= |s.sups| && s.sups[s.resps[i].gen - 1].phase == Answered
  }

  predicate Unshared(s: State) {
    forall i, k :: 0 <= i < |s.resps| && 0 <= k < |s.resps| && s.resps[i].gen == s.resps[k].gen ==> i == k
  }

  /** The stored handle belongs to a registered response of the recorded generation. */
  predicate HandleOwned(s: State) {
    s.o.handle.Some? ==>
      s.o.handle.value < |s.resps|
      && s.resps[s.o.handle.value].Registered()
      && s.o.handleGen == s.resps[s.o.handle.value].gen
  }

  /** A response past its deferred cancel has a dead context. */
  predicate EndedAreDead(s: State) {
    forall i :: 0 <= i < |s.resps| && s.resps[i].phase in {Unwinding, Leaving, Left, Done} ==> !s.Live(i)
  }

  /** A value loaded under the lock is no older than any completed cancellation. */
  predicate LoadsFresh(s: State) {
    forall i, j :: 0 <= i < |s.resps| && 0 <= j < |s.sups| && s.resps[i].phase.Loaded? && s.sups[j].HasCancelled()
                   ==> s.sups[j].gen <= s.resps[i].phase.value
  }

  /** A registered response that is alive is no older than any completed cancellation. */
  predicate SurvivorsFresh(s: State) {
    forall i, j :: 0 <= i < |s.resps| && 0 <= j < |s.sups|
                   && s.resps[i].Registered() && s.Live(i) && s.sups[j].HasCancelled()
                   ==> s.sups[j].gen <= s.resps[i].gen
  }

  predicate Inv(s: State, g: nat) {
    && Exclusive(s)
    && Minted(s) && Carried(s, g) && Unshared(s)
    && HandleOwned(s)
    && EndedAreDead(s)
    && OneOwner(s)
    && LoadsFresh(s)
    && SurvivorsFresh(s)
  }

  lemma {:induction false} KeepsResponsesExclude(s: State, step: Step)
    requires Exclusive(s) && Enabled(s, step)
    ensures ResponsesExclude(Next(s, step))
  {}

  lemma {:induction false} KeepsSupersedesExclude(s: State, step: Step)
    requires Exclusive(s) && Enabled(s, step)
    ensures SupersedesExclude(Next(s, step))
  {}

  lemma {:induction false} KeepsMinted(s: State, step: Step)
    requires Minted(s) && Enabled(s, step)
    ensures Minted(Next(s, step))
  {}

  predicate SameGens(s: State, t: State) {
    |s.resps| == |t.resps| && forall i :: 0 <= i < |s.resps| ==> t.resps[i].gen == s.resps[i].gen
  }

  predicate AnswersStand(s: State, t: State) {
    |s.sups| <= |t.sups| && forall j :: 0 <= j < |s.sups| && s.sups[j].phase == Answered ==> t.sups[j].phase == Answered
  }

  lemma {:induction false} StepAnswersStand(s: State, step: Step)
    requires Enabled(s, step)
    ensures AnswersStand(s, Next(s, step)) && (s.greeted ==> Next(s, step).greeted)
  {}

  /** Only a dispatch or the greeting brings in a response, with the generation it was given. */
  lemma {:induction false} StepGens(s: State, step: Step)
    requires Enabled(s, step)
    ensures var t := Next(s, step);
            if step.Dispatch? then t.resps == s.resps + [Response(s.sups[step.j].gen, Dispatched)] && t.sups[step.j].phase == Answered
            else if step.Greet? then t.resps == s.resps + [Response(s.o.gen, Dispatched)] && t.greeted && !s.greeted
            else SameGens(s, t)
  {}

  lemma {:induction false} KeepsCarried(s: State, step: Step, g: nat)
    requires Minted(s) && Carried(s, g) && Enabled(s, step)
    requires step.Greet? ==> s.o.gen == g
    requires step.Dispatch? ==> s.sups[step.j].gen != g
    ensures Carried(Next(s, step), g)
  {
    StepAnswersStand(s, step);
    StepGens(s, step);
    assert step.Dispatch? ==> s.sups[step.j].gen == step.j + 1;
    hide Next, Enabled;
  }

  lemma {:induction false} KeepsUnshared(s: State, step: Step, g: nat)
    requires Minted(s) && Carried(s, g) && Unshared(s) && Enabled(s, step)
    requires step.Greet? ==> s.o.gen == g
    requires step.Dispatch? ==> s.sups[step.j].gen != g
    ensures Unshared(Next(s, step))
  {
    StepGens(s, step);
    if step.Dispatch? {
      assert s.sups[step.j].gen == step.j + 1 && s.sups[step.j].phase == SupersedePhase.Released;
      hide Next, Enabled;
      var h := step.j + 1;
      assert forall i :: 0 <= i < |s.resps| ==> s.resps[i].gen != h;
    } else {
      hide Next, Enabled;
      assert step.Greet? ==> forall i :: 0 <= i < |s.resps| ==> s.resps[i].gen != g;
    }
  }

  lemma {:induction false} KeepsHandleOwned(s: State, step: Step)
    requires HandleOwned(s) && Enabled(s, step)
    ensures HandleOwned(Next(s, step))
  {}

  lemma {:induction false} KeepsEndedAreDead(s: State, step: Step)
    requires EndedAreDead(s) && Enabled(s, step)
    ensures EndedAreDead(Next(s, step))
  {}

  lemma {:induction false} KeepsOneOwner(s: State, step: Step)
    requires Exclusive(s) && Unshared(s) && HandleOwned(s) && EndedAreDead(s) && OneOwner(s) && Enabled(s, step)
    ensures OneOwner(Next(s, step))
  {}

  lemma {:induction false} KeepsLoadsFresh(s: State, step: Step)
    requires Exclusive(s) && Minted(s) && LoadsFresh(s) && Enabled(s, step)
    ensures LoadsFresh(Next(s, step))
  {}

  lemma {:induction false} KeepsSurvivorsFresh(s: State, step: Step)
    requires HandleOwned(s) && OneOwner(s) && LoadsFresh(s) && SurvivorsFresh(s) && Enabled(s, step)
    ensures SurvivorsFresh(Next(s, step))
  {
    if step.Cancel? {
      NoneSurvive(s, step.j);
    } else if step.Register? {
      OneSurvives(s, step.i);
    } else {
      hide HandleOwned, OneOwner, LoadsFresh;
    }
  }

  lemma {:induction false} NoneSurvive(s: State, j: nat)
    requires OneOwner(s) && Enabled(s, Cancel(j))
    ensures SurvivorsFresh(Next(s, Cancel(j)))
  {}

  lemma {:induction false} OneSurvives(s: State, i: nat)
    requires HandleOwned(s) && OneOwner(s) && LoadsFresh(s) && SurvivorsFresh(s) && Enabled(s, Register(i))
    ensures SurvivorsFresh(Next(s, Register(i)))
  {}

  /** Every step of every interleaving keeps the invariant, provided the generation the greeting reads
      is not one that a response is given. */
  lemma {:induction false} StepKeepsInv(s: State, step: Step, g: nat)
    requires Inv(s, g) && Enabled(s, step)
    requires step.Greet? ==> s.o.gen == g
    requires step.Dispatch? ==> s.sups[step.j].gen != g
    ensures Inv(Next(s, step), g)
  {
    hide Next, Enabled, Exclusive, Minted, Carried, Unshared, HandleOwned, EndedAreDead, OneOwner, LoadsFresh, SurvivorsFresh;
    KeepsExclusive(s, step);
    KeepsMinted(s, step);
    KeepsCarried(s, step, g);
    KeepsUnshared(s, step, g);
    KeepsHandleOwned(s, step);
    KeepsEndedAreDead(s, step);
    KeepsOneOwner(s, step);
    KeepsLoadsFresh(s, step);
    KeepsSurvivorsFresh(s, step);
  }

  lemma {:induction false} KeepsExclusive(s: State, step: Step)
    requires Exclusive(s) && Enabled(s, step)
    ensures Exclusive(Next(s, step))
  {
    KeepsResponsesExclude(s, step);
    KeepsSupersedesExclude(s, step);
  }

  lemma {:induction false} InvIsSafe(s: State, g: nat)
    requires Inv(s, g)
    ensures Safe(s)
  {}

  lemma {:induction false} RunKeepsInv(s: State, steps: seq<Step>, g: nat)
    requires Inv(s, g) && Possible(s, steps) && GreetingReads(s, steps, g) && NeverAnswers(s, steps, g)
    ensures Inv(Run(s, steps), g)
    decreases |steps|
  {
    hide Inv, Next, Enabled;
    if steps != [] {
      StepKeepsInv(s, steps[0], g);
      RunKeepsInv(Next(s, steps[0]), steps[1..], g);
    }
  }

  /** A greeting that shares its generation with no answer, be it the initial one or one a barge-in
      minted and nobody answers: then every run is safe. */
  lemma {:induction false} SafeWhenUnshared(steps: seq<Step>, g: nat)
    requires Possible(INIT, steps) && GreetingReads(INIT, steps, g) && NeverAnswers(INIT, steps, g)
    ensures Safe(Run(INIT, steps))
  {
    hide Run, Possible, GreetingReads, NeverAnswers;
    StartInv(g);
    RunKeepsInv(INIT, steps, g);
    InvIsSafe(Run(INIT, steps), g);
  }

  lemma {:induction false} StartInv(g: nat)
    ensures Inv(INIT, g)
  {}

  /** No supersede mints generation 0. */
  lemma {:induction false} ZeroIsNobodys(s: State, steps: seq<Step>)
    requires Possible(s, steps) && Minted(s)
    ensures NeverAnswers(s, steps, 0)
    decreases |steps|
  {
    if steps != [] {
      KeepsMinted(s, steps[0]);
      ZeroIsNobodys(Next(s, steps[0]), steps[1..]);
      hide Next;
    }
  }

  /** Safety of every run from the start in which the greeting, if spoken, read generation 0. */
  lemma {:induction false} SafeInEveryRun(steps: seq<Step>)
    requires Possible(INIT, steps) && GreetingReads(INIT, steps, 0)
    ensures Safe(Run(INIT, steps))
  {
    ZeroIsNobodys(INIT, steps);
    SafeWhenUnshared(steps, 0);
  }

  /** At the cancelling step of supersedeResponse every registered response falls silent. */
  lemma {:induction false} CancelSilencesAll(s: State, g: nat, j: nat, i: nat)
    requires Inv(s, g) && Enabled(s, Cancel(j))
    requires i < |s.resps| && s.resps[i].Registered()
    ensures !Next(s, Cancel(j)).Live(i)
  {}

  /** A response that was cancelled, or that will be refused, stays retired in every continuation. */
  lemma {:induction false} RetiredStaysRetired(s: State, steps: seq<Step>, i: nat)
    requires Possible(s, steps) && i < |s.resps|
    requires !s.Live(i) || (!s.resps[i].Registered() && WillBeRefused(s, i))
    ensures var t := Run(s, steps);
            i < |t.resps| && (!t.Live(i) || (!t.resps[i].Registered() && WillBeRefused(t, i)))
    decreases |steps|
  {
    if steps != [] {
      RetiredStaysRetired(Next(s, steps[0]), steps[1..], i);
    }
  }

  /** The finish block drops the stored handle only if it is that response's own. */
  lemma {:induction false} FinishKeepsOthersHandle(s: State, g: nat, i: nat, k: nat)
    requires Inv(s, g) && Enabled(s, Finish(i))
    requires s.o.handle == Some(k) && k != i
    ensures Next(s, Finish(i)).o.handle == Some(k)
  {}

  // ---------------------------------------------------------------- the greeting's generation

  /** `t` is a run from the start that ends in `s`, with the greeting reading `g`. */
  predicate Reaches(t: seq<Step>, s: State, g: nat) {
    Possible(INIT, t) && GreetingReads(INIT, t, g) && Run(INIT, t) == s
  }

  lemma {:induction false} RunThen(s: State, t: seq<Step>, step: Step, g: nat)
    requires Possible(s, t) && GreetingReads(s, t, g) && Enabled(Run(s, t), step)
    requires step.Greet? ==> Run(s, t).o.gen == g
    ensures Possible(s, t + [step]) && GreetingReads(s, t + [step], g)
    ensures Run(s, t + [step]) == Next(Run(s, t), step)
    decreases |t|
  {
    if t == [] {
      assert [] + [step] == [step];
      assert [step][1..] == [];
    } else {
      RunThen(Next(s, t[0]), t[1..], step, g);
      assert (t + [step])[1..] == t[1..] + [step];
    }
  }

  lemma {:induction false} Then(t: seq<Step>, s: State, step: Step, g: nat) returns (t': seq<Step>, s': State)
    requires Reaches(t, s, g) && Enabled(s, step)
    requires step.Greet? ==> s.o.gen == g
    ensures Reaches(t', s', g) && s' == Next(s, step)
  {
    t', s' := t + [step], Next(s, step);
    RunThen(INIT, t, step, g);
  }

  function Pending(n: nat): (sups: seq<Supersede>)
    ensures |sups| == n
  {
    seq(n, j requires 0 <= j < n => Supersede(j + 1, Bumped))
  }

  lemma {:induction false} Bumps(n: nat, g: nat) returns (t: seq<Step>)
    ensures Reaches(t, State(Shared(n, None, 0, {}), Nobody, [], Pending(n), false, false), g)
  {
    if n == 0 {
      t := [];
      assert Pending(0) == [];
    } else {
      var before := Bumps(n - 1, g);
      var s;
      t, s := Then(before, State(Shared(n - 1, None, 0, {}), Nobody, [], Pending(n - 1), false, false), Bump, g);
      assert Pending(n) == Pending(n - 1) + [Supersede(n, Bumped)];
    }
  }

  lemma {:induction false} AnswerDispatched(g: nat) returns (t: seq<Step>, s: State)
    requires g >= 1
    ensures Reaches(t, s, g)
    ensures s == State(Shared(g, None, 0, {}), Nobody, [Response(g, Dispatched)],
                       Pending(g - 1) + [Supersede(g, Answered)], false, false)
  {
    hide Reaches, Possible, Run, GreetingReads, Pending;
    t := Bumps(g - 1, g);
    s := State(Shared(g - 1, None, 0, {}), Nobody, [], Pending(g - 1), false, false);
    t, s := Then(t, s, Bump, g);
    t, s := Then(t, s, LockCancel(g - 1), g);
    t, s := Then(t, s, Cancel(g - 1), g);
    t, s := Then(t, s, UnlockCancel(g - 1), g);
    t, s := Then(t, s, Dispatch(g - 1), g);
  }

  /** The `g`-th turn is being answered when the greeting starts. */
  lemma {:induction false} AnswerRunning(g: nat) returns (t: seq<Step>, s: State)
    requires g >= 1
    ensures Reaches(t, s, g)
    ensures s == State(Shared(g, Some(0), g, {}), Nobody, [Response(g, Running)],
                       Pending(g - 1) + [Supersede(g, Answered)], false, false)
  {
    hide Reaches, Possible, Run, GreetingReads, Pending;
    t, s := AnswerDispatched(g);
    t, s := Then(t, s, LockRegister(0), g);
    t, s := Then(t, s, LoadRegister(0), g);
    t, s := Then(t, s, Register(0), g);
    t, s := Then(t, s, UnlockRegister(0), g);
  }

  /** The greeting reads that generation and takes over. */
  lemma {:induction false} GreetingRunning(g: nat) returns (t: seq<Step>, s: State)
    requires g >= 1
    ensures Reaches(t, s, g)
    ensures s == State(Shared(g, Some(1), g, {0}), Nobody, [Response(g, Running), Response(g, Running)],
                       Pending(g - 1) + [Supersede(g, Answered)], true, false)
  {
    hide Reaches, Possible, Run, GreetingReads, Pending;
    t, s := AnswerRunning(g);
    t, s := Then(t, s, Greet, g);
    t, s := Then(t, s, LockRegister(1), g);
    t, s := Then(t, s, LoadRegister(1), g);
    t, s := Then(t, s, Register(1), g);
    t, s := Then(t, s, UnlockRegister(1), g);
  }

  /** A greeting that read the generation of a response replaces it; when that response unwinds,
      its finish block drops the greeting's handle and the next turn cannot cancel it. */
  lemma {:induction false} GreetingEscapes(g: nat) returns (t: seq<Step>, s: State)
    requires g >= 1
    ensures Reaches(t, s, g)
    ensures !OneOwner(s) && !OldRetired(s)
  {
    hide Reaches, Possible, Run, GreetingReads, Pending;
    t, s := GreetingRunning(g);
    t, s := Then(t, s, EndContext(0), g);
    t, s := Then(t, s, LockFinish(0), g);
    t, s := Then(t, s, Finish(0), g);
    t, s := Then(t, s, UnlockFinish(0), g);
    t, s := Then(t, s, Bump, g);
    t, s := Then(t, s, LockCancel(g), g);
    t, s := Then(t, s, Cancel(g), g);
    assert s.resps[1] == Response(g, Running) && s.Live(1) && s.o.handle == None;
    assert s.sups[g] == Supersede(g + 1, Cancelled);
  }

  /** With nothing known of who is answered, the protocol is safe in every interleaving exactly when the
      greeting reads generation 0. */
  lemma {:induction false} SafeIffGreetingFirst(g: nat)
    ensures (forall steps {:trigger Run(INIT, steps)} ::
               Possible(INIT, steps) && GreetingReads(INIT, steps, g) ==> Safe(Run(INIT, steps)))
            <==> g == 0
  {
    if g == 0 {
      forall steps | Possible(INIT, steps) && GreetingReads(INIT, steps, g)
        ensures Safe(Run(INIT, steps))
      {
        SafeInEveryRun(steps);
      }
    } else {
      var t, s := GreetingEscapes(g);
      assert !Safe(Run(INIT, t));
    }
  }
}
