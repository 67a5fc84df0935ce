/** The chat client's turn (internal/llm/openai.go): repair the history, add the user's message,
    then loop over requests and tool calls until the model answers in text.

    The provider and the tools are an `Environment`: the outcome of the k-th request and of the
    k-th tool invocation of a turn. Any outcome may be a failure or an abort, so a turn can be cut
    off at every point where the program waits. */
module Chat {
  import opened History
  import opened HistoryRepair

  /** What a request produced: an error (a cancelled context is one) after part of the text, or the
      text and tool calls gathered from the stream. */
  datatype Reply = Failed(text: string) | Finished(text: string, calls: seq<ToolCall>)

  datatype ToolResult =
    | Success(output: string)
    | Failure(error: string)
    | Aborted                      // the handler panics and takes the turn with it

  datatype Environment = Environment(reply: nat -> Reply, tool: nat -> ToolResult)

  const MAX_TOOL_ROUNDS: nat := 4

  const BUDGET_SPENT := "You've used your tool-call budget for this turn. Reply to the user in plain text now without calling any more tools."
  const STUCK := "Stop calling tools. Reply to the user in plain text explaining what you can and cannot help with based on the tools available in this session."

  function DuplicateNote(name: string): string {
    "The tool " + name + " was already called with these arguments in this turn and returned the same result. Do not call it again; answer the user directly."
  }

  function Signature(name: string, args: string): string {
    name + "|" + args
  }

  /** A request as the provider receives it; `budgetSpent` marks the nudge sent in place of the
      fifth round of tools. */
  datatype Request = Request(messages: seq<Message>, budgetSpent: bool)

  /** A tool invocation: the tool, the arguments it ran with, and whether it succeeded. */
  datatype Invocation = Invocation(name: string, args: string, ok: bool) {
    function Sig(): string {
      Signature(name, args)
    }
  }

  /** The tool calls of a turn: how their sanitized names map back, and whether anything runs them. */
  datatype Tools = Tools(names: map<string, string>, handler: bool)

  // ---------------------------------------------------------------- what a turn does with tools

  /** The message a reply becomes: its calls without the text, or the text. */
  function AssistantOf(reply: Reply): Message
    requires reply.Finished?
  {
    Assistant(if reply.calls == [] then reply.text else "", reply.calls)
  }

  /** Tool messages for the first of `calls`, in their order. */
  predicate AnswersInOrder(outs: seq<Message>, calls: seq<ToolCall>) {
    |outs| <= |calls| && forall k :: 0 <= k < |outs| ==> outs[k].Tool? && outs[k].callId == calls[k].id
  }

  function Restored(names: map<string, string>, c: ToolCall): ToolCall {
    if c.name in names then c.(name := names[c.name]) else c
  }

  /** The calls as the tools know them. */
  function RestoredAll(names: map<string, string>, calls: seq<ToolCall>): seq<ToolCall> {
    seq(|calls|, k requires 0 <= k < |calls| => Restored(names, calls[k]))
  }

  /** What answering the calls of a round comes to: the tool messages, the tools run so far, and
      whether the turn was cut off. */
  datatype Answers = Answers(outs: seq<Message>, n: nat, ran: seq<Invocation>, aborted: bool)

  function AnswerOne(env: Environment, c: ToolCall, a: Answers): Answers {
    if Signature(c.name, c.args) in Succeeded(a.ran) then a.(outs := a.outs + [Tool(DuplicateNote(c.name), c.id)])
    else
      var r := env.tool(a.n);
      Answers(match r
              case Success(output) => a.outs + [Tool(output, c.id)]
              case Failure(error) => a.outs + [Tool("Error: " + error, c.id)]
              case Aborted => a.outs,
              a.n + 1, a.ran + [Invocation(c.name, c.args, r.Success?)], r.Aborted?)
  }

  function AnswerAll(env: Environment, calls: seq<ToolCall>, n: nat, ran: seq<Invocation>): Answers {
    if calls == [] then Answers([], n, ran, false)
    else
      var a := AnswerAll(env, calls[..|calls| - 1], n, ran);
      if a.aborted then a else AnswerOne(env, calls[|calls| - 1], a)
  }

  /** Whatever the tools do, the answers are for a prefix of the calls in order, all of them unless the
      turn was cut off; what succeeded before is not run again. */
  lemma {:induction false} AnswerAllInOrder(env: Environment, calls: seq<ToolCall>, n: nat, ran: seq<Invocation>)
    requires NoneRepeated(ran)
    ensures var a := AnswerAll(env, calls, n, ran);
            && AnswersInOrder(a.outs, calls) && (!a.aborted ==> |a.outs| == |calls|)
            && ran <= a.ran && NoneRepeated(a.ran)
  {
    hide Signature, DuplicateNote, NoneRepeated, Succeeded;
    if calls != [] {
      var most, c := calls[..|calls| - 1], calls[|calls| - 1];
      AnswerAllInOrder(env, most, n, ran);
      var a := AnswerAll(env, most, n, ran);
      if !a.aborted && Signature(c.name, c.args) !in Succeeded(a.ran) {
        RanOne(a.ran, Invocation(c.name, c.args, env.tool(a.n).Success?));
      }
    }
  }

  // ---------------------------------------------------------------- what is run

  /** A call of that tool with those arguments has succeeded. */
  predicate Did(ran: seq<Invocation>, name: string, args: string) {
    exists i :: 0 <= i < |ran| && ran[i].ok && ran[i].name == name && ran[i].args == args
  }

  /** Call `c` after `before` came to `after`: it was run, with its own arguments and as the next
      invocation, and answered by what came of it; or not, and answered by the note. */
  ghost predicate RunsOnce(env: Environment, c: ToolCall, before: Answers, after: Answers) {
    if Did(before.ran, c.name, c.args) then
      after == before.(outs := before.outs + [Tool(DuplicateNote(c.name), c.id)])
    else
      && after.ran == before.ran + [Invocation(c.name, c.args, env.tool(|before.ran|).Success?)]
      && (match env.tool(|before.ran|)
          case Success(output) => !after.aborted && after.outs == before.outs + [Tool(output, c.id)]
          case Failure(error) => !after.aborted && after.outs == before.outs + [Tool("Error: " + error, c.id)]
          case Aborted => after.aborted && after.outs == before.outs)
  }

  predicate PlainNames(ran: seq<Invocation>, calls: seq<ToolCall>) {
    && (forall i :: 0 <= i < |ran| ==> '|' !in ran[i].name)
    && (forall i :: 0 <= i < |calls| ==> '|' !in calls[i].name)
  }

  /** In a round not cut off before call `k`: it is run exactly if no call of that tool with those
      arguments has succeeded, in this round or an earlier one. */
  lemma {:induction false} CallIsRunIff(env: Environment, calls: seq<ToolCall>, ran: seq<Invocation>, k: nat)
    requires k < |calls| && PlainNames(ran, calls) && !AnswerAll(env, calls[..k], |ran|, ran).aborted
    ensures RunsOnce(env, calls[k], AnswerAll(env, calls[..k], |ran|, ran), AnswerAll(env, calls[..k + 1], |ran|, ran))
  {
    hide AnswerOne, AnswerAll, Did;
    AnswerOneIs(env, calls, k, |ran|, ran);
    AnswersPlain(env, calls[..k], |ran|, ran);
    OneRunsOnce(env, calls[k], AnswerAll(env, calls[..k], |ran|, ran));
  }

  lemma {:induction false} OneRunsOnce(env: Environment, c: ToolCall, a: Answers)
    requires PlainNames(a.ran, [c]) && a.n == |a.ran| && !a.aborted
    ensures RunsOnce(env, c, a, AnswerOne(env, c, a))
  {
    hide Signature, DuplicateNote, Did, Succeeded;
    assert [c][0] == c;
    DidIsSucceeded(a.ran, c.name, c.args);
  }

  /** For plain names a signature stands for its tool and arguments. */
  lemma {:induction false} DidIsSucceeded(ran: seq<Invocation>, name: string, args: string)
    requires '|' !in name && forall i :: 0 <= i < |ran| ==> '|' !in ran[i].name
    ensures Did(ran, name, args) <==> Signature(name, args) in Succeeded(ran)
  {
    hide Signature, Succeeded;
    if Did(ran, name, args) {
      var i :| 0 <= i < |ran| && ran[i].ok && ran[i].name == name && ran[i].args == args;
      SucceededAt(ran, i);
    }
    if Signature(name, args) in Succeeded(ran) {
      var i := SucceededFrom(ran, Signature(name, args));
      SignatureTells(name, args, ran[i].name, ran[i].args);
    }
  }

  lemma {:induction false} SignatureTells(n1: string, a1: string, n2: string, a2: string)
    requires '|' !in n1 && '|' !in n2 && Signature(n1, a1) == Signature(n2, a2)
    ensures n1 == n2 && a1 == a2
  {
    var s := Signature(n1, a1);
    assert s[|n1|] == '|' && s[|n2|] == '|';
    assert s[..|n1|] == n1 && s[..|n2|] == n2;
    assert s[|n1| + 1..] == a1 && s[|n2| + 1..] == a2;
  }

  lemma {:induction false} AnswersPlain(env: Environment, calls: seq<ToolCall>, n: nat, ran: seq<Invocation>)
    requires PlainNames(ran, calls) && n == |ran|
    ensures var a := AnswerAll(env, calls, n, ran); PlainNames(a.ran, []) && a.n == |a.ran| && ran <= a.ran
  {
    hide Signature, DuplicateNote, Succeeded;
    if calls != [] { AnswersPlain(env, calls[..|calls| - 1], n, ran); }
  }

  /** When two tools can be taken for one: their names are equal, or one begins with the other and a
      bar. */
  lemma {:induction false} NamesClashIff(n1: string, n2: string)
    ensures (exists a1, a2 :: Signature(n1, a1) == Signature(n2, a2)) <==> n1 == n2 || n1 + "|" <= n2 || n2 + "|" <= n1
  {
    if exists a1, a2 :: Signature(n1, a1) == Signature(n2, a2) {
      var a1, a2 :| Signature(n1, a1) == Signature(n2, a2);
      if |n1| <= |n2| { BeginsWith(n1, a1, n2, a2); } else { BeginsWith(n2, a2, n1, a1); }
    }
    if n1 == n2 { assert Signature(n1, "") == Signature(n2, ""); }
    if n1 + "|" <= n2 { assert Signature(n1, n2[|n1| + 1..] + "|") == Signature(n2, ""); }
    if n2 + "|" <= n1 { assert Signature(n1, "") == Signature(n2, n1[|n2| + 1..] + "|"); }
  }

  lemma {:induction false} BeginsWith(n1: string, a1: string, n2: string, a2: string)
    requires Signature(n1, a1) == Signature(n2, a2) && |n1| <= |n2|
    ensures n1 == n2 || n1 + "|" <= n2
  {
    var s := Signature(n1, a1);
    assert s[..|n1|] == n1 && s[|n1|] == '|';
    assert s[..|n2|] == n2;
    if |n1| < |n2| { assert n2[..|n1| + 1] == s[..|n1| + 1] == n1 + "|"; }
  }

  /** Two calls that only look alike: the second, of another tool, is not run. */
  lemma {:induction false} LookAlikeIsSkipped(env: Environment)
    requires env.tool(0).Success?
    ensures var calls := [ToolCall("1", "a", "b|c"), ToolCall("2", "a|b", "c")];
            AnswerAll(env, calls, 0, []).ran == [Invocation("a", "b|c", true)]
  {
    hide DuplicateNote;
    var calls := [ToolCall("1", "a", "b|c"), ToolCall("2", "a|b", "c")];
    assert calls[..1] == [calls[0]] && calls[..0] == [];
    assert Signature("a", "b|c") == "a|b|c" == Signature("a|b", "c");
    var a0, a1 := Answers([], 0, [], false), AnswerAll(env, calls[..1], 0, []);
    AnswerOneIs(env, calls, 0, 0, []);
    AnswerOneIs(env, calls, 1, 0, []);
    assert calls[..2] == calls;
    assert a1 == AnswerOne(env, calls[0], a0);
    assert a1.ran == [Invocation("a", "b|c", true)];
    assert a1.ran[..0] == [];
  }

  // ---------------------------------------------------------------- tool names

  /** A name as the provider accepts it: every character it refuses becomes an underscore. */
  function Sanitized(name: string): string {
    seq(|name|, i requires 0 <= i < |name| => if Accepted(name[i]) then name[i] else '_')
  }

  predicate Accepted(c: char) {
    'a' <= c <= 'z' || 'A' <= c <= 'Z' || '0' <= c <= '9' || c == '_' || c == '-'
  }

  /** The name map of a list of tools; of two that read alike sanitized, the later one counts. */
  function NameMap(tools: seq<string>): map<string, string> {
    if tools == [] then map[]
    else
      var last := tools[|tools| - 1];
      NameMap(tools[..|tools| - 1])[Sanitized(last) := last]
  }

  /** A call of tool `i` reaches tool `i` if and only if the last tool that reads like it sanitized has
      its very name. */
  lemma {:induction false} NameComesBackIff(tools: seq<string>, i: nat, last: nat, id: string, args: string)
    requires i <= last < |tools| && Sanitized(tools[i]) == Sanitized(tools[last])
    requires forall j :: last < j < |tools| ==> Sanitized(tools[j]) != Sanitized(tools[i])
    ensures Restored(NameMap(tools), ToolCall(id, Sanitized(tools[i]), args)) == ToolCall(id, tools[i], args)
            <==> tools[last] == tools[i]
  {
    NameMapAt(tools, last);
  }

  /** Two names that read alike: the first tool's calls go to the second. */
  lemma {:induction false} NamesCollide(id: string, args: string)
    ensures Restored(NameMap(["a.b", "a_b"]), ToolCall(id, Sanitized("a.b"), args)) == ToolCall(id, "a_b", args)
  {
    assert Sanitized("a.b") == "a_b" == Sanitized("a_b");
    NameMapAt(["a.b", "a_b"], 1);
  }

  lemma {:induction false} NameMapAt(tools: seq<string>, k: nat)
    requires k < |tools| && forall j :: k < j < |tools| ==> Sanitized(tools[j]) != Sanitized(tools[k])
    ensures Sanitized(tools[k]) in NameMap(tools) && NameMap(tools)[Sanitized(tools[k])] == tools[k]
  {
    hide Sanitized;
    if k < |tools| - 1 { NameMapAt(tools[..|tools| - 1], k); }
  }

  // ---------------------------------------------------------------- a turn, round by round

  /** The calls the tools are given in round `k`. */
  function Given(env: Environment, tools: Tools, k: nat): seq<ToolCall> {
    if env.reply(k).Finished? && tools.handler && k < MAX_TOOL_ROUNDS then RestoredAll(tools.names, env.reply(k).calls)
    else []
  }

  /** What the tools have come to in the first `k` rounds; `outs` is of the last one alone. */
  function Worked(env: Environment, tools: Tools, k: nat): Answers {
    if k == 0 then Answers([], 0, [], false)
    else
      var w := Worked(env, tools, k - 1);
      AnswerAll(env, Given(env, tools, k - 1), w.n, w.ran)
  }

  /** Round `k` ran no tool: its calls were all repeats, or the tool budget was spent. */
  predicate Idle(env: Environment, tools: Tools, k: nat) {
    Worked(env, tools, k + 1).ran == Worked(env, tools, k).ran
  }

  /** Request `k` of a turn asks for text instead of tools. */
  predicate IsNudge(env: Environment, tools: Tools, k: nat) {
    k > 0 && Idle(env, tools, k - 1)
  }

  /** The reply of round `k` asks for tools, they can be run or the budget is spent, and none of them
      takes the turn with it. */
  predicate GoesOn(env: Environment, tools: Tools, k: nat) {
    && env.reply(k).Finished? && env.reply(k).calls != []
    && (k >= MAX_TOOL_ROUNDS || tools.handler)
    && !Worked(env, tools, k + 1).aborted
  }

  /** What follows a request for `sent`: the same list with the reply appended and pruned, the answers
      to its calls, and a nudge if no tool was run for them. */
  function NextRequest(sent: seq<Message>, env: Environment, tools: Tools, k: nat): Request
    requires env.reply(k).Finished?
  {
    var nudge := if k == MAX_TOOL_ROUNDS then BUDGET_SPENT else STUCK;
    Request(Pruned(sent + [AssistantOf(env.reply(k))]) + Worked(env, tools, k + 1).outs
            + (if Idle(env, tools, k) then [System(nudge)] else []),
            k == MAX_TOOL_ROUNDS)
  }

  /** `next` is sent after `sent`, of which those from `o` on are the turn's. */
  predicate Due(sent: seq<Request>, o: nat, first: seq<Message>, env: Environment, tools: Tools, next: Request)
    requires o <= |sent|
  {
    if |sent| == o then next == Request(first, false)
    else
      var k := |sent| - 1 - o;
      GoesOn(env, tools, k) && !IsNudge(env, tools, k)
      && next == NextRequest(sent[|sent| - 1].messages, env, tools, k)
  }

  /** The turn's requests start with `first`, and each is what is due after the one before. */
  ghost predicate Chained(sent: seq<Request>, o: nat, first: seq<Message>, env: Environment, tools: Tools) {
    o <= |sent| && forall k :: o <= k < |sent| ==> Due(sent[..k], o, first, env, tools, sent[k])
  }

  /** What is left when request `k`, for `sent`, was the last: the list as sent if it failed, else with
      the reply appended and pruned, and the answers given before a tool cut the turn off. */
  function Left(sent: seq<Message>, env: Environment, tools: Tools, k: nat): seq<Message> {
    if env.reply(k).Failed? then sent
    else
      Pruned(sent + [AssistantOf(env.reply(k))]) + if IsNudge(env, tools, k) then [] else Worked(env, tools, k + 1).outs
  }

  /** What a turn comes to whose last request was request `k`. */
  datatype Outcome = Outcome(ran: seq<Invocation>, ok: bool, text: string)

  function OutcomeAt(env: Environment, tools: Tools, k: nat): Outcome {
    var worked := Worked(env, tools, if IsNudge(env, tools, k) then k else k + 1);
    var aborted := !IsNudge(env, tools, k) && worked.aborted;
    Outcome(worked.ran, env.reply(k).Finished? && !aborted, if aborted then "" else env.reply(k).text)
  }

  /** A whole turn: nothing is due after its last request, which left `h` and came to `out`. */
  ghost predicate WholeTurn(sent: seq<Request>, o: nat, first: seq<Message>, env: Environment, tools: Tools,
                            h: seq<Message>, out: Outcome)
  {
    && Chained(sent, o, first, env, tools) && o < |sent|
    && var k := |sent| - 1 - o;
       && (IsNudge(env, tools, k) || !GoesOn(env, tools, k))
       && h == Left(sent[|sent| - 1].messages, env, tools, k)
       && out == OutcomeAt(env, tools, k)
  }

  lemma {:induction false} ChainedNext(sent: seq<Request>, o: nat, first: seq<Message>, env: Environment, tools: Tools, next: Request)
    requires Chained(sent, o, first, env, tools) && Due(sent, o, first, env, tools, next)
    ensures Chained(sent + [next], o, first, env, tools)
  {
    hide Due;
    var all := sent + [next];
    assert all[..|sent|] == sent;
    forall k | o <= k < |sent| ensures Due(all[..k], o, first, env, tools, all[k]) {
      assert all[..k] == sent[..k];
    }
  }

  /** A round in which the tools are given nothing changes nothing. */
  lemma {:induction false} NothingGiven(env: Environment, tools: Tools, k: nat)
    requires Given(env, tools, k) == []
    ensures var w := Worked(env, tools, k); Worked(env, tools, k + 1) == Answers([], w.n, w.ran, false)
    ensures Idle(env, tools, k)
  {
    hide Given;
  }

  lemma {:induction false} NoCallsRestored(names: map<string, string>)
    ensures RestoredAll(names, []) == []
  {}

  /** The first request that asks for nothing, fails, cannot be answered or is a nudge is the last, and
      there are at most six. */
  lemma {:induction false} AtMostSix(sent: seq<Request>, o: nat, first: seq<Message>, env: Environment, tools: Tools)
    requires Chained(sent, o, first, env, tools)
    ensures |sent| <= o + 6
  {
    hide NextRequest, GoesOn, Worked, Idle;
    var last := o + MAX_TOOL_ROUNDS + 2;
    if |sent| > last {
      assert Due(sent[..last], o, first, env, tools, sent[last]);
      NothingGiven(env, tools, MAX_TOOL_ROUNDS);
    }
  }

  /** The replies and the tools determine the turn: its requests, the history it leaves, what it ran
      and what it returned. */
  lemma {:induction false} TurnIsDetermined(a: seq<Request>, b: seq<Request>, o: nat, first: seq<Message>, env: Environment, tools: Tools,
                                            ha: seq<Message>, hb: seq<Message>, outa: Outcome, outb: Outcome)
    requires WholeTurn(a, o, first, env, tools, ha, outa) && WholeTurn(b, o, first, env, tools, hb, outb)
    requires a[..o] == b[..o]
    ensures a == b && ha == hb && outa == outb
  {
    hide Chained, IsNudge, GoesOn, Left, OutcomeAt;
    if |a| <= |b| {
      SameSoFar(a, b, o, first, env, tools, |a|);
      NoneAfterLast(a, b, o, first, env, tools);
    } else {
      SameSoFar(b, a, o, first, env, tools, |b|);
      NoneAfterLast(b, a, o, first, env, tools);
    }
  }

  lemma {:induction false} SameSoFar(a: seq<Request>, b: seq<Request>, o: nat, first: seq<Message>, env: Environment, tools: Tools, k: nat)
    requires Chained(a, o, first, env, tools) && Chained(b, o, first, env, tools)
    requires a[..o] == b[..o] && o <= k <= |a| <= |b|
    ensures a[..k] == b[..k]
    decreases k
  {
    hide NextRequest, GoesOn, IsNudge;
    if k > o {
      SameSoFar(a, b, o, first, env, tools, k - 1);
      assert Due(a[..k - 1], o, first, env, tools, a[k - 1]) && Due(b[..k - 1], o, first, env, tools, b[k - 1]);
      assert a[..k] == a[..k - 1] + [a[k - 1]] && b[..k] == b[..k - 1] + [b[k - 1]];
    }
  }

  lemma {:induction false} NoneAfterLast(a: seq<Request>, b: seq<Request>, o: nat, first: seq<Message>, env: Environment, tools: Tools)
    requires Chained(b, o, first, env, tools) && o < |a| <= |b| && a == b[..|a|]
    requires IsNudge(env, tools, |a| - 1 - o) || !GoesOn(env, tools, |a| - 1 - o)
    ensures a == b
  {
    hide NextRequest, GoesOn, IsNudge;
    if |a| < |b| {
      assert false;
    }
  }

  /** In no round is a call that succeeded before run again with the same arguments. */
  lemma {:induction false} WorkedNeverRepeats(env: Environment, tools: Tools, k: nat)
    ensures NoneRepeated(Worked(env, tools, k).ran)
    ensures k > 0 ==> AnswersInOrder(Worked(env, tools, k).outs, Given(env, tools, k - 1))
  {
    hide NoneRepeated, AnswerAll, AnswersInOrder, Given;
    if k == 0 {
      NothingRan();
    } else {
      WorkedNeverRepeats(env, tools, k - 1);
      var w := Worked(env, tools, k - 1);
      AnswerAllInOrder(env, Given(env, tools, k - 1), w.n, w.ran);
    }
  }

  // ---------------------------------------------------------------- a turn, case by case

  /** The tools of the replies up to number `k` have plain names. */
  predicate PlainReplies(env: Environment, tools: Tools, k: nat) {
    forall r, j :: 0 <= r <= k && 0 <= j < |Given(env, tools, r)| ==> '|' !in Given(env, tools, r)[j].name
  }

  lemma {:induction false} WorkedPlain(env: Environment, tools: Tools, k: nat)
    requires k > 0 ==> PlainReplies(env, tools, k - 1)
    ensures var w := Worked(env, tools, k); w.n == |w.ran| && PlainNames(w.ran, [])
  {
    hide Given, AnswerAll;
    if k > 0 {
      var calls := Given(env, tools, k - 1);
      WorkedPlain(env, tools, k - 1);
      var w := Worked(env, tools, k - 1);
      AnswersPlain(env, calls, w.n, w.ran);
    }
  }

  /** In a turn: call `j` of round `k`, if nothing cut the turn off before it, is run exactly if no call
      of that tool with those arguments has succeeded in this turn. */
  lemma {:induction false} TurnRunsIff(env: Environment, tools: Tools, k: nat, j: nat)
    requires tools.handler && k < 4 && env.reply(k).Finished? && j < |env.reply(k).calls|
    requires PlainReplies(env, tools, k)
    requires var w := Worked(env, tools, k); !AnswerAll(env, RestoredAll(tools.names, env.reply(k).calls)[..j], |w.ran|, w.ran).aborted
    ensures var calls := RestoredAll(tools.names, env.reply(k).calls);
            var w := Worked(env, tools, k);
            && RunsOnce(env, calls[j], AnswerAll(env, calls[..j], |w.ran|, w.ran), AnswerAll(env, calls[..j + 1], |w.ran|, w.ran))
            && Worked(env, tools, k + 1) == AnswerAll(env, calls, |w.ran|, w.ran)
  {
    hide AnswerAll, RunsOnce, RestoredAll, PlainReplies;
    var calls, w := RestoredAll(tools.names, env.reply(k).calls), Worked(env, tools, k);
    assert Given(env, tools, k) == calls && |calls| == |env.reply(k).calls| by { RestoredLength(tools.names, env.reply(k).calls); }
    FewerPlain(env, tools, k);
    WorkedPlain(env, tools, k);
    GivenPlain(env, tools, k);
    assert PlainNames(w.ran, calls);
    CallIsRunIff(env, calls, w.ran, j);
  }

  lemma {:induction false} RestoredLength(names: map<string, string>, calls: seq<ToolCall>)
    ensures |RestoredAll(names, calls)| == |calls|
  {}

  lemma {:induction false} FewerPlain(env: Environment, tools: Tools, k: nat)
    requires PlainReplies(env, tools, k)
    ensures k > 0 ==> PlainReplies(env, tools, k - 1)
  {
    hide Given;
  }

  lemma {:induction false} GivenPlain(env: Environment, tools: Tools, k: nat)
    requires PlainReplies(env, tools, k)
    ensures forall j :: 0 <= j < |Given(env, tools, k)| ==> '|' !in Given(env, tools, k)[j].name
  {
    hide Given;
  }

  /** A round ran nothing exactly if each of its calls had succeeded before the round. */
  lemma {:induction false} IdleIff(env: Environment, tools: Tools, k: nat)
    requires PlainReplies(env, tools, k)
    ensures Idle(env, tools, k) <==>
            forall j :: 0 <= j < |Given(env, tools, k)| ==>
              Did(Worked(env, tools, k).ran, Given(env, tools, k)[j].name, Given(env, tools, k)[j].args)
  {
    hide Given, AnswerAll, Did, PlainReplies;
    var calls, w := Given(env, tools, k), Worked(env, tools, k);
    FewerPlain(env, tools, k);
    WorkedPlain(env, tools, k);
    GivenPlain(env, tools, k);
    NoneRunIff(env, calls, w.ran);
  }

  lemma {:induction false} NoneRunIff(env: Environment, calls: seq<ToolCall>, ran: seq<Invocation>)
    requires PlainNames(ran, calls)
    ensures AnswerAll(env, calls, |ran|, ran).ran == ran <==> forall j :: 0 <= j < |calls| ==> Did(ran, calls[j].name, calls[j].args)
    ensures AnswerAll(env, calls, |ran|, ran).ran == ran ==> !AnswerAll(env, calls, |ran|, ran).aborted
    decreases |calls|
  {
    hide AnswerOne, Did, Signature, RunsOnce;
    if calls != [] {
      var k := |calls| - 1;
      var most := calls[..k];
      NoneRunIff(env, most, ran);
      AnswersPlain(env, most, |ran|, ran);
      assert calls[..k + 1] == calls && calls[k] in calls;
      assert forall j :: 0 <= j < k ==> most[j] == calls[j];
      var a := AnswerAll(env, most, |ran|, ran);
      if !a.aborted {
        CallIsRunIff(env, calls, ran, k);
        RanOrNot(env, calls[k], a, AnswerAll(env, calls, |ran|, ran));
      }
    }
  }

  lemma {:induction false} RanOrNot(env: Environment, c: ToolCall, before: Answers, after: Answers)
    requires RunsOnce(env, c, before, after) && !before.aborted
    ensures if Did(before.ran, c.name, c.args) then after.ran == before.ran && !after.aborted else |after.ran| == |before.ran| + 1
  {
    hide Did;
  }

  /** A reply that asks for nothing, or that failed, ends the turn, and the history holds it. */
  lemma {:induction false} TextEndsTurn(sent: seq<Request>, o: nat, first: seq<Message>, env: Environment, tools: Tools,
                                        h: seq<Message>, out: Outcome, k: nat)
    requires WholeTurn(sent, o, first, env, tools, h, out) && o + k < |sent|
    requires env.reply(k).Failed? || env.reply(k).calls == []
    ensures |sent| == o + k + 1 && out.text == env.reply(k).text && out.ok == env.reply(k).Finished?
    ensures h == if env.reply(k).Failed? then sent[o + k].messages else Pruned(sent[o + k].messages + [Assistant(env.reply(k).text, [])])
  {
    hide Pruned, NextRequest, Worked, Idle, RestoredAll;
    NextIsDue(sent, o, first, env, tools, k);
    NoCallsRestored(tools.names);
    NothingGiven(env, tools, k);
  }

  lemma {:induction false} NextIsDue(sent: seq<Request>, o: nat, first: seq<Message>, env: Environment, tools: Tools, k: nat)
    requires Chained(sent, o, first, env, tools)
    ensures o + k + 1 < |sent| ==> Due(sent[..o + k + 1], o, first, env, tools, sent[o + k + 1])
  {
    hide Due;
  }

  /** A reply that asks for tools with budget left goes on to the next request, which has it without its
      text, and the tools' answers; unless nobody runs tools or one of them takes the turn with it. If
      none was run, the next request asks for text, and is the last. */
  lemma {:induction false} ToolsGoOn(sent: seq<Request>, o: nat, first: seq<Message>, env: Environment, tools: Tools,
                                     h: seq<Message>, out: Outcome, k: nat)
    requires WholeTurn(sent, o, first, env, tools, h, out) && o + k < |sent| && k < 4
    requires env.reply(k).Finished? && env.reply(k).calls != [] && !IsNudge(env, tools, k)
    ensures var w := Worked(env, tools, k + 1);
            var asked := Pruned(sent[o + k].messages + [Assistant("", env.reply(k).calls)]);
            if !tools.handler then |sent| == o + k + 1 && h == asked && out.ok && out.text == env.reply(k).text
            else if w.aborted then |sent| == o + k + 1 && h == asked + w.outs && !out.ok
            else
              && o + k + 1 < |sent| && !sent[o + k + 1].budgetSpent
              && if Idle(env, tools, k) then |sent| == o + k + 2 && sent[o + k + 1].messages == asked + w.outs + [System(STUCK)]
                 else sent[o + k + 1].messages == asked + w.outs
  {
    hide Pruned, Worked, Idle, RestoredAll;
    NextIsDue(sent, o, first, env, tools, k);
    NextIsDue(sent, o, first, env, tools, k + 1);
    if !tools.handler { NothingGiven(env, tools, k); }
  }

  /** The fifth reply that asks for tools gets none: a sixth request asks for text, and is the last. */
  lemma {:induction false} BudgetEndsTurn(sent: seq<Request>, o: nat, first: seq<Message>, env: Environment, tools: Tools,
                                          h: seq<Message>, out: Outcome)
    requires WholeTurn(sent, o, first, env, tools, h, out) && o + 4 < |sent|
    requires env.reply(4).Finished? && env.reply(4).calls != [] && !IsNudge(env, tools, 4)
    ensures |sent| == o + 6 && sent[o + 5].budgetSpent
    ensures sent[o + 5].messages == Pruned(sent[o + 4].messages + [Assistant("", env.reply(4).calls)]) + [System(BUDGET_SPENT)]
    ensures out.ok == env.reply(5).Finished? && out.text == env.reply(5).text
  {
    hide Pruned, Worked, Idle, RestoredAll;
    NextIsDue(sent, o, first, env, tools, 4);
    NothingGiven(env, tools, 4);
    AtMostSix(sent, o, first, env, tools);
  }

  // ---------------------------------------------------------------- assumptions on the provider

  function CallIds(env: Environment, k: nat): seq<string> {
    if env.reply(k).Finished? then Ids(env.reply(k).calls) else []
  }

  /** Call ids are distinct: within a reply, between replies, and from those in the history. */
  ghost predicate FreshIds(env: Environment, h: seq<Message>, from: nat) {
    && (forall k: nat :: k >= from ==> NoDuplicates(CallIds(env, k)) && SetOf(CallIds(env, k)) !! SetOf(Asked(h)))
    && (forall k: nat, l: nat :: from <= k < l ==> SetOf(CallIds(env, k)) !! SetOf(CallIds(env, l)))
  }

  // ---------------------------------------------------------------- the client

  /** What a history keeps between turns. */
  predicate WellFormed(h: seq<Message>) {
    h != [] && h[0].System? && Anchored(h) && NoDuplicates(Asked(h))
  }

  lemma {:induction false} PromptWellFormed(prompt: string)
    ensures WellFormed([System(prompt)])
  {
    var h := [System(prompt)];
    assert h[1..] == [];
    assert Anchored(h) && Asked(h) == [];
  }

  lemma {:induction false} ScanStep(h: seq<Message>, i: nat)
    requires i < |h|
    ensures AllCalls(h[i..], i) == (if h[i].Assistant? then CallsAt(i, Ids(h[i].calls)) else []) + AllCalls(h[i + 1..], i + 1)
    ensures Answered(h[i..]) == (if h[i].Tool? then {h[i].callId} else {}) + Answered(h[i + 1..])
  {
    assert h[i..][1..] == h[i + 1..];
  }

  lemma {:induction false} ScanEnd(h: seq<Message>)
    ensures AllCalls(h[|h|..], |h|) == [] && Answered(h[|h|..]) == {}
  {}

  class ChatClient {
    var systemPrompt: string
    var history: seq<Message>
    var toolNameMap: map<string, string>
    var hasHandler: bool

    // Every request sent since the client was created.
    ghost var requests: seq<Request>

    ghost predicate Valid()
      reads this
    {
      && WellFormed(history)
      && (forall k :: 0 <= k < |requests| && !requests[k].budgetSpent ==> Complete(requests[k].messages))
    }

    constructor (systemPrompt: string)
      ensures Valid() && requests == [] && history == [System(systemPrompt)]
    {
      this.systemPrompt := systemPrompt;
      history := [System(systemPrompt)];
      toolNameMap := map[];
      hasHandler := false;
      requests := [];
      PromptWellFormed(systemPrompt);
    }

    method SetTools(tools: seq<string>)
      modifies `toolNameMap
      ensures toolNameMap == NameMap(tools)
    {
      toolNameMap := map[];
      for k := 0 to |tools|
        invariant toolNameMap == NameMap(tools[..k])
      {
        toolNameMap := toolNameMap[Sanitized(tools[k]) := tools[k]];
        assert tools[..k + 1][..k] == tools[..k];
      }
      assert tools[..|tools|] == tools;
    }

    /** From now on somebody runs the tools, or nobody does. */
    method SetToolHandler(present: bool)
      modifies `hasHandler
      ensures hasHandler == present
    {
      hasHandler := present;
    }

    method Reset()
      requires Valid()
      modifies `history
      ensures Valid() && history == [System(systemPrompt)]
    {
      history := [System(systemPrompt)];
      PromptWellFormed(systemPrompt);
    }

    method AppendSystemPrompt(text: string)
      requires Valid()
      modifies `history
      ensures Valid()
      ensures |history| == |old(history)| && history[1..] == old(history)[1..]
      ensures history[0] == if text == "" then old(history)[0] else System(systemPrompt + text)
    {
      if text == "" {
        return;
      }
      if |history| > 0 && history[0].System? {
        assert history[0 := System(systemPrompt + text)][1..] == history[1..];
        history := history[0 := System(systemPrompt + text)];
      }
    }

    /** Passes 1 and 2: the calls of the history with no tool message. */
    method FindDangling() returns (patches: seq<Pending>)
      ensures patches == Dangling(AllCalls(history, 0), Answered(history))
    {
      hide AllCalls, Answered, Valid;
      var pending, answered := ListCalls();
      patches := [];
      ghost var answered0 := answered;
      for k := 0 to |pending|
        invariant patches + Dangling(pending[k..], answered) == Dangling(pending, answered0)
      {
        var p := pending[k];
        assert pending[k..][1..] == pending[k + 1..];
        if p.id !in answered {
          patches := patches + [p];
          answered := answered + {p.id};
        }
      }
    }

    method CallsOf(i: nat, calls: seq<ToolCall>) returns (pending: seq<Pending>)
      ensures pending == CallsAt(i, Ids(calls))
    {
      pending := [];
      for k := 0 to |calls|
        invariant pending == CallsAt(i, Ids(calls[..k]))
      {
        pending := pending + [Pending(i, calls[k].id)];
        assert calls[..k + 1] == calls[..k] + [calls[k]];
        IdsSnoc(calls[..k], calls[k]);
        CallsAtSnoc(i, Ids(calls[..k]), calls[k].id);
      }
      assert calls[..|calls|] == calls;
    }

    method ListCalls() returns (pending: seq<Pending>, answered: set<string>)
      ensures pending == AllCalls(history, 0) && answered == Answered(history)
    {
      hide AllCalls, Answered, CallsAt, Ids, Valid;
      pending, answered := [], {};
      assert history[0..] == history;
      for i := 0 to |history|
        invariant pending + AllCalls(history[i..], i) == AllCalls(history, 0)
        invariant answered + Answered(history[i..]) == Answered(history)
      {
        var msg := history[i];
        ScanStep(history, i);
        if msg.Assistant? {
          var calls := CallsOf(i, msg.calls);
          pending := pending + calls;
        }
        if msg.Tool? {
          answered := answered + {msg.callId};
        }
      }
      ScanEnd(history);
    }

    /** Splices a placeholder behind every assistant message whose calls were cut off. */
    method ReconcileHistory()
      modifies `history
      ensures history == Repaired(old(history))
      ensures old(history) != [] ==> history != [] && history[0] == old(history)[0]
    {
      RepairKeepsFirst(history, Answered(history));
      var patches := FindDangling();
      SpliceIsRepair(history, Answered(history));
      var fromBack := Reverse(patches);
      Splice(fromBack, patches);
    }

    method Reverse(ps: seq<Pending>) returns (patches: seq<Pending>)
      ensures |patches| == |ps|
      ensures forall k :: 0 <= k < |ps| ==> patches[k] == ps[|ps| - 1 - k]
    {
      patches := ps;
      var i, j := 0, |patches| - 1;
      while i < j
        invariant 0 <= i && -1 <= j && i <= |ps| && j < |patches| == |ps| && i + j == |ps| - 1
        invariant forall k :: i <= k <= j ==> patches[k] == ps[k]
        invariant forall k :: 0 <= k < i ==> patches[k] == ps[|ps| - 1 - k]
        invariant forall k :: j < k < |ps| ==> patches[k] == ps[|ps| - 1 - k]
      {
        var front, back := patches[i], patches[j];
        patches := patches[i := back];
        patches := patches[j := front];
        i, j := i + 1, j - 1;
      }
    }

    method Splice(patches: seq<Pending>, ghost ordered: seq<Pending>)
      requires Within(ordered, 0, |history|) && |patches| == |ordered|
      requires forall k :: 0 <= k < |patches| ==> patches[k] == ordered[|ordered| - 1 - k]
      modifies `history
      ensures history == SpliceFromBack(old(history), ordered)
    {
      ghost var n := |ordered|;
      assert ordered[..n] == ordered;
      for k := 0 to |patches|
        invariant Within(ordered[..n - k], 0, |history|)
        invariant SpliceFromBack(history, ordered[..n - k]) == SpliceFromBack(old(history), ordered)
      {
        var p := patches[k];
        assert p == ordered[..n - k][n - k - 1];
        var insertAt := p.at + 1;
        history := history[..insertAt] + [Placeholder(p.id)] + history[insertAt..];
        assert ordered[..n - k][..n - k - 1] == ordered[..n - (k + 1)];
      }
    }

    method PruneHistory(h: seq<Message>) returns (kept: seq<Message>)
      ensures kept == Pruned(h)
    {
      if |h| <= WINDOW + 1 {
        return h;
      }
      hide DropTools;
      var tail := SkipTools(h[|h| - WINDOW..]);
      kept := [];
      if |h| > 0 && h[0].System? {
        kept := kept + [h[0]];
      }
      kept := kept + tail;
    }

    method SkipTools(h: seq<Message>) returns (tail: seq<Message>)
      ensures tail == DropTools(h)
    {
      tail := h;
      while |tail| > 0 && tail[0].Tool?
        invariant DropTools(tail) == DropTools(h)
      {
        tail := tail[1..];
      }
    }

    /** The tools of a turn. */
    function Kit(): Tools
      reads `toolNameMap, `hasHandler
    {
      Tools(toolNameMap, hasHandler)
    }

    method RestoreNames(asked: seq<ToolCall>) returns (calls: seq<ToolCall>)
      ensures calls == RestoredAll(toolNameMap, asked) && Ids(calls) == Ids(asked)
    {
      calls := [];
      for k := 0 to |asked|
        invariant |calls| == k
        invariant forall l :: 0 <= l < k ==> calls[l] == Restored(toolNameMap, asked[l])
      {
        var c := asked[k];
        if c.name in toolNameMap {
          c := c.(name := toolNameMap[c.name]);
        }
        calls := calls + [c];
      }
      SameIds(calls, asked);
    }

    /** One request: sends the history and appends what came back. */
    method StreamCompletion(reply: Reply, ghost budgetSpent: bool)
      returns (text: string, calls: seq<ToolCall>, ok: bool, ghost before: seq<Message>)
      requires Valid() && (budgetSpent || Complete(history))
      requires reply.Finished? ==> NoDuplicates(Asked(history) + Ids(reply.calls))
      modifies `history, `requests
      ensures Valid() && requests == old(requests) + [Request(old(history), budgetSpent)]
      ensures ok == reply.Finished?
      ensures text == reply.text
      ensures !ok ==> history == old(history) && calls == []
      ensures ok ==> calls == RestoredAll(toolNameMap, reply.calls) && Ids(calls) == Ids(reply.calls)
      ensures ok ==> history == Pruned(old(history) + [AssistantOf(reply)]) && |history| <= WINDOW + 1
      ensures ok ==> history == before + [AssistantOf(reply)] && before != [] && (Complete(old(history)) ==> Complete(before))
      ensures history[0] == old(history)[0] && (ok ==> before[0] == history[0])
      ensures SetOf(Asked(history)) <= SetOf(Asked(old(history))) + (if ok then SetOf(Ids(reply.calls)) else {})
    {
      hide Pruned, Asked, Ids, AnchoredIn, NoDuplicates, RestoredAll;
      requests := requests + [Request(history, budgetSpent)];
      if reply.Failed? {
        return reply.text, [], false, [];
      }
      text, ok := reply.text, true;
      var message := Assistant(if |reply.calls| > 0 then "" else text, reply.calls);
      before := AppendThenPrune(history, message);
      history := PruneHistory(history + [message]);
      calls := RestoreNames(reply.calls);
    }

    /** Appends an instruction and asks once more; the calls of that reply stay unanswered. */
    method ForceTextResponse(reply: Reply, instruction: string, ghost budgetSpent: bool)
      returns (text: string, ok: bool)
      requires Valid() && (budgetSpent || Complete(history))
      requires reply.Finished? ==> NoDuplicates(Asked(history) + Ids(reply.calls))
      modifies `history, `requests
      ensures Valid() && requests == old(requests) + [Request(old(history) + [System(instruction)], budgetSpent)]
      ensures ok == reply.Finished? && text == reply.text
      ensures history == if ok then Pruned(old(history) + [System(instruction)] + [AssistantOf(reply)])
                         else old(history) + [System(instruction)]
      ensures history[0] == old(history)[0]
    {
      hide Pruned, Asked, Ids, AnchoredIn, NoDuplicates, Complete;
      AppendPlain(history, System(instruction));
      history := history + [System(instruction)];
      ghost var before;
      var calls;
      text, calls, ok, before := StreamCompletion(reply, budgetSpent);
    }

    /** Runs one tool call, unless it already succeeded with the same arguments this turn. */
    method RunTool(c: ToolCall, env: Environment, n: nat, seen: map<string, nat>, ghost ran: seq<Invocation>)
      returns (output: string, aborted: bool, repeated: bool, n': nat, seen': map<string, nat>, ghost ran': seq<Invocation>)
      requires SeenMatches(seen, ran) && NoneRepeated(ran)
      ensures SeenMatches(seen', ran') && NoneRepeated(ran')
      ensures repeated <==> Signature(c.name, c.args) in Succeeded(ran)
      ensures |ran'| == |ran| + if repeated then 0 else 1
      ensures repeated ==> ran' == ran
      ensures AnswerOne(env, c, Answers([], n, ran, false))
           == Answers(if aborted then [] else [Tool(output, c.id)], n', ran', aborted)
    {
      hide Signature, Succeeded, NoneRepeated, DuplicateNote;
      var sig := Signature(c.name, c.args);
      var prev := if sig in seen then seen[sig] else 0;
      output, aborted, repeated, n', seen', ran' := "", false, false, n, seen, ran;
      if prev >= 1 {
        output := DuplicateNote(c.name);
        repeated := true;
        return;
      }
      n' := n + 1;
      RanOne(ran, Invocation(c.name, c.args, env.tool(n).Success?));
      ran' := ran + [Invocation(c.name, c.args, env.tool(n).Success?)];
      match env.tool(n)
      case Aborted =>
        aborted := true;
      case Failure(e) =>
        output := "Error: " + e;
      case Success(o) =>
        output := o;
        seen' := seen[sig := prev + 1];
    }

    /** Answers the calls of the assistant message at the end of the history, in order. */
    method AnswerCalls(calls: seq<ToolCall>, env: Environment, n: nat, seen: map<string, nat>,
                       ghost ran: seq<Invocation>, ghost before: seq<Message>, ghost asker: Message)
      returns (aborted: bool, repeatedAll: bool, n': nat, seen': map<string, nat>, ghost ran': seq<Invocation>)
      requires Valid() && history == before + [asker] && before != [] && before[0].System? && Complete(before)
      requires asker.Assistant? && Ids(asker.calls) == Ids(calls)
      requires SeenMatches(seen, ran) && NoneRepeated(ran)
      modifies `history
      ensures Valid() && Asked(history) == Asked(old(history))
      ensures !aborted ==> Complete(history)
      ensures var a := AnswerAll(env, calls, n, ran);
              history == old(history) + a.outs && aborted == a.aborted && n' == a.n && ran' == a.ran
      ensures SeenMatches(seen', ran') && NoneRepeated(ran')
      ensures !aborted ==> (repeatedAll <==> ran' == ran)
    {
      hide Asked, AnchoredIn, Complete, NoDuplicates, AnswerOne, SeenMatches, NoneRepeated, Ids;
      ghost var a := AnswerAll(env, [], n, ran);
      repeatedAll, aborted, n', seen', ran' := true, false, n, seen, ran;
      assert calls[..0] == [] && history == old(history) + a.outs;
      for k := 0 to |calls|
        invariant a == AnswerAll(env, calls[..k], n, ran) && !a.aborted && n' == a.n && ran' == a.ran
        invariant history == old(history) + a.outs
        invariant SeenMatches(seen', ran') && NoneRepeated(ran')
        invariant if repeatedAll then ran' == ran else |ran| < |ran'|
      {
        var output, repeated;
        output, aborted, repeated, n', seen', ran' := RunTool(calls[k], env, n', seen', ran');
        AnswerOneIs(env, calls, k, n, ran);
        AnswerOneAfter(env, calls[k], a);
        assert a.outs + [] == a.outs;
        repeatedAll := repeatedAll && repeated;
        a := AnswerAll(env, calls[..k + 1], n, ran);
        if aborted {
          AbortedIsAll(env, calls, k + 1, n, ran);
          AnswersKeepForm(env, calls, n, ran, before, asker);
          return;
        }
        history := history + [Tool(output, calls[k].id)];
      }
      assert calls[..|calls|] == calls;
      AnswersKeepForm(env, calls, n, ran, before, asker);
    }

    /** The turn's requests so far are chained from `o`, and `history` is due to be sent, as no nudge. */
    ghost predicate Underway(o: nat, first: seq<Message>, env: Environment, round: nat)
      reads `history, `requests, `toolNameMap, `hasHandler
    {
      && Chained(requests, o, first, env, Kit()) && |requests| == o + round
      && Due(requests, o, first, env, Kit(), Request(history, false))
      && !IsNudge(env, Kit(), round)
    }

    /** The tools have come to what the first `k` rounds make of them. */
    ghost predicate Kept(env: Environment, k: nat, n: nat, ran: seq<Invocation>)
      reads `toolNameMap, `hasHandler
    {
      n == Worked(env, Kit(), k).n && ran == Worked(env, Kit(), k).ran
    }

    /** The turn has sent its last request, `history` is what that left, and `out` what it came to. */
    ghost predicate Over(o: nat, first: seq<Message>, env: Environment, out: Outcome)
      reads `history, `requests, `toolNameMap, `hasHandler
    {
      WholeTurn(requests, o, first, env, Kit(), history, out)
    }

    /** Nudges for text, and ends the turn. */
    method Nudge(env: Environment, round: nat, instruction: string, ghost budgetSpent: bool, ghost o: nat, ghost first: seq<Message>,
                 ghost ran: seq<Invocation>)
      returns (result: string, ok: bool)
      requires Valid() && (budgetSpent || Complete(history)) && FreshIds(env, history, round + 1)
      requires Chained(requests, o, first, env, Kit()) && |requests| == o + round + 1
      requires Due(requests, o, first, env, Kit(), Request(history + [System(instruction)], budgetSpent))
      requires Idle(env, Kit(), round) && ran == Worked(env, Kit(), round + 1).ran
      modifies `history, `requests
      ensures Valid() && history[0] == old(history)[0]
      ensures old(requests) <= requests && Over(o, first, env, Outcome(ran, ok, result))
    {
      hide Asked, AnchoredIn, Complete, NoDuplicates, FreshIds, Chained, Due, Pruned, Idle, Worked, WholeTurn;
      FreshHere(env, history, round + 1);
      ghost var sent := history + [System(instruction)];
      ChainedNext(requests, o, first, env, Kit(), Request(sent, budgetSpent));
      result, ok := ForceTextResponse(env.reply(round + 1), instruction, budgetSpent);
      NudgeIsLast(requests, o, first, env, Kit(), sent, round + 1);
    }

    /** One request and, if it asks for tools, their answers. */
    method Round(env: Environment, round: nat, n: nat, seen: map<string, nat>, ghost ran: seq<Invocation>,
                 ghost o: nat, ghost first: seq<Message>)
      returns (done: bool, result: string, ok: bool, n': nat, seen': map<string, nat>, ghost ran': seq<Invocation>)
      requires Valid() && Complete(history) && FreshIds(env, history, round) && Underway(o, first, env, round)
      requires round <= MAX_TOOL_ROUNDS && SeenMatches(seen, ran) && NoneRepeated(ran) && Kept(env, round, n, ran)
      modifies `history, `requests
      ensures Valid() && history[0] == old(history)[0] && old(requests) <= requests
      ensures if done then Over(o, first, env, Outcome(ran', ok, result))
              else
                && Complete(history) && FreshIds(env, history, round + 1) && Underway(o, first, env, round + 1)
                && round < MAX_TOOL_ROUNDS && SeenMatches(seen', ran') && NoneRepeated(ran') && Kept(env, round + 1, n', ran')
    {
      hide Asked, AnchoredIn, Complete, NoDuplicates, FreshIds, SeenMatches, NoneRepeated, Chained, Due, Pruned, WholeTurn,
           AnswerAll, Ids, SetOf, RestoredAll, Worked, Idle, GoesOn, IsNudge;
      ghost var tools := Kit();
      done, n', seen', ran' := true, n, seen, ran;
      FreshHere(env, history, round);
      ChainedNext(requests, o, first, env, tools, Request(history, false));
      ghost var sent := history;
      var toolCalls;
      ghost var before;
      result, toolCalls, ok, before := StreamCompletion(env.reply(round), false);
      if !ok || |toolCalls| == 0 {
        AskedForNothing(requests, o, first, env, tools, sent, round);
        return;
      }
      FreshNext(env, sent, history, env.reply(round).calls, round);
      if round >= MAX_TOOL_ROUNDS {
        BudgetIsSpent(requests, o, first, env, tools, sent, round);
        result, ok := Nudge(env, round, BUDGET_SPENT, true, o, first, ran);
        return;
      }
      if !hasHandler {
        NobodyToRun(requests, o, first, env, tools, sent, round);
        return;
      }
      var aborted, repeatedAll;
      ghost var asked := history;
      aborted, repeatedAll, n', seen', ran' := AnswerCalls(toolCalls, env, n, seen, ran, before, history[|history| - 1]);
      RoundWorked(env, tools, round);
      if aborted {
        CutOff(requests, o, first, env, tools, sent, round);
        return true, "", false, n', seen', ran';
      }
      SameIdsFresh(env, asked, history, round + 1);
      RoundGoesOn(requests, o, first, env, tools, sent, round);
      if repeatedAll {
        result, ok := Nudge(env, round, STUCK, false, o, first, ran');
        return;
      }
      done := false;
    }

    /** A turn. Its requests, the history it leaves, the tools it runs and what it returns are those of
        the whole turn that the replies and the tools determine, from the repaired history with the
        user's message on. However they behave, and wherever the turn is cut off, the history stays
        well-formed under the same prompt, and every request is complete but the one sent when the tool
        budget is spent. A call that succeeded is not run again with the same arguments. */
    method Chat(userText: string, env: Environment)
      returns (result: string, ok: bool, ghost ran: seq<Invocation>)
      requires Valid() && FreshIds(env, history, 0)
      modifies `history, `requests
      ensures Valid() && history[0] == old(history)[0]
      ensures old(requests) <= requests
      ensures WholeTurn(requests, |old(requests)|, Repaired(old(history)) + [User(userText)], env, Kit(), history,
                        Outcome(ran, ok, result))
      ensures NoneRepeated(ran)
    {
      hide Asked, AnchoredIn, Complete, NoDuplicates, Repair, Answered, Ids, SetOf, SeenMatches, NoneRepeated, Succeeded, FreshIds,
           WholeTurn, Worked, Idle;
      NothingRan();
      RepairedWellFormed(history);
      ReconcileHistory();
      AppendPlain(history, User(userText));
      history := history + [User(userText)];
      SameIdsFresh(env, old(history), history, 0);
      ghost var o, first := |requests|, history;

      var seenCalls: map<string, nat> := map[];
      var n, round := 0, 0;
      ran := [];
      NothingWorked(env, Kit());
      result, ok := "", false;
      var done := false;
      while !done
        invariant 0 <= round <= MAX_TOOL_ROUNDS
        invariant Valid() && history[0] == old(history)[0] && old(requests) <= requests
        invariant !done ==> Complete(history) && FreshIds(env, history, round) && Underway(o, first, env, round)
        invariant !done ==> SeenMatches(seenCalls, ran) && NoneRepeated(ran) && Kept(env, round, n, ran)
        invariant done ==> Over(o, first, env, Outcome(ran, ok, result))
        decreases if done then 0 else MAX_TOOL_ROUNDS + 1 - round
      {
        done, result, ok, n, seenCalls, ran := Round(env, round, n, seenCalls, ran, o, first);
        if !done {
          round := round + 1;
        }
      }
      TurnNeverRepeats(requests, o, first, env, Kit(), history, Outcome(ran, ok, result));
    }
  }

  // ---------------------------------------------------------------- how requests follow each other

  /** Every request of a turn starts with the prompt the turn began with. */
  lemma {:induction false} PromptInEveryRequest(sent: seq<Request>, o: nat, first: seq<Message>, env: Environment, tools: Tools, k: nat)
    requires Chained(sent, o, first, env, tools) && o <= k < |sent|
    requires first != [] && first[0].System?
    ensures sent[k].messages != [] && sent[k].messages[0] == first[0]
  {
    hide Due, Chained;
    DueAt(sent, o, first, env, tools, k);
    if k > o {
      PromptInEveryRequest(sent, o, first, env, tools, k - 1);
      DueKeepsFirst(sent[..k], o, first, env, tools, sent[k]);
    } else {
      FirstDue(sent[..k], o, first, env, tools, sent[k]);
    }
  }

  lemma {:induction false} DueAt(sent: seq<Request>, o: nat, first: seq<Message>, env: Environment, tools: Tools, k: nat)
    requires Chained(sent, o, first, env, tools) && o <= k < |sent|
    ensures Due(sent[..k], o, first, env, tools, sent[k])
  {}

  lemma {:induction false} FirstDue(sent: seq<Request>, o: nat, first: seq<Message>, env: Environment, tools: Tools, next: Request)
    requires |sent| == o && Due(sent, o, first, env, tools, next)
    ensures next.messages == first
  {}

  lemma {:induction false} DueKeepsFirst(sent: seq<Request>, o: nat, first: seq<Message>, env: Environment, tools: Tools, next: Request)
    requires |sent| > o && Due(sent, o, first, env, tools, next)
    requires var before := sent[|sent| - 1].messages; before != [] && before[0].System?
    ensures next.messages != [] && next.messages[0] == sent[|sent| - 1].messages[0]
  {
    hide Pruned, Worked, Idle, IsNudge;
    PrunedKeepsFirst(sent[|sent| - 1].messages, AssistantOf(env.reply(|sent| - 1 - o)));
  }

  lemma {:induction false} PrunedKeepsFirst(h: seq<Message>, m: Message)
    requires h != [] && h[0].System?
    ensures Pruned(h + [m]) != [] && Pruned(h + [m])[0] == h[0]
  {
    hide DropTools;
  }

  lemma {:induction false} NothingWorked(env: Environment, tools: Tools)
    ensures Worked(env, tools, 0) == Answers([], 0, [], false)
  {}

  lemma {:induction false} TurnNeverRepeats(sent: seq<Request>, o: nat, first: seq<Message>, env: Environment, tools: Tools,
                                            h: seq<Message>, out: Outcome)
    requires WholeTurn(sent, o, first, env, tools, h, out)
    ensures NoneRepeated(out.ran)
  {
    var k := |sent| - 1 - o;
    hide NoneRepeated, Worked, IsNudge, Left, Chained;
    WorkedNeverRepeats(env, tools, k);
    WorkedNeverRepeats(env, tools, k + 1);
  }

  // The ways a round can end. `sent` is the list its request was for.

  ghost predicate Asks(requests: seq<Request>, o: nat, first: seq<Message>, env: Environment, tools: Tools, sent: seq<Message>, k: nat) {
    Chained(requests, o, first, env, tools) && |requests| == o + k + 1 && requests[|requests| - 1].messages == sent
  }

  lemma {:induction false} NudgeIsLast(requests: seq<Request>, o: nat, first: seq<Message>, env: Environment, tools: Tools,
                                       sent: seq<Message>, k: nat)
    requires Asks(requests, o, first, env, tools, sent, k) && k > 0 && Idle(env, tools, k - 1)
    ensures var reply := env.reply(k);
            var h := if reply.Failed? then sent else Pruned(sent + [AssistantOf(reply)]);
            var out := Outcome(Worked(env, tools, k).ran, reply.Finished?, reply.text);
            WholeTurn(requests, o, first, env, tools, h, out)
  {
    hide Pruned, Chained, Worked, Idle, GoesOn;
  }

  lemma {:induction false} AskedForNothing(requests: seq<Request>, o: nat, first: seq<Message>, env: Environment, tools: Tools,
                                           sent: seq<Message>, k: nat)
    requires Asks(requests, o, first, env, tools, sent, k) && !IsNudge(env, tools, k)
    requires env.reply(k).Failed? || env.reply(k).calls == []
    ensures var reply := env.reply(k);
            var h := if reply.Failed? then sent else Pruned(sent + [AssistantOf(reply)]);
            var out := Outcome(Worked(env, tools, k).ran, reply.Finished?, reply.text);
            WholeTurn(requests, o, first, env, tools, h, out)
  {
    hide Pruned, Chained, Worked, Idle, IsNudge, RestoredAll;
    NoCallsRestored(tools.names);
    NothingGiven(env, tools, k);
  }

  lemma {:induction false} NobodyToRun(requests: seq<Request>, o: nat, first: seq<Message>, env: Environment, tools: Tools,
                                       sent: seq<Message>, k: nat)
    requires Asks(requests, o, first, env, tools, sent, k) && !IsNudge(env, tools, k)
    requires env.reply(k).Finished? && !tools.handler && k < MAX_TOOL_ROUNDS
    ensures WholeTurn(requests, o, first, env, tools, Pruned(sent + [AssistantOf(env.reply(k))]),
                      Outcome(Worked(env, tools, k).ran, true, env.reply(k).text))
  {
    hide Pruned, Chained, Worked, Idle, IsNudge, RestoredAll;
    NothingGiven(env, tools, k);
  }

  lemma {:induction false} BudgetIsSpent(requests: seq<Request>, o: nat, first: seq<Message>, env: Environment, tools: Tools,
                                         sent: seq<Message>, k: nat)
    requires Asks(requests, o, first, env, tools, sent, k) && !IsNudge(env, tools, k)
    requires env.reply(k).Finished? && env.reply(k).calls != [] && k == MAX_TOOL_ROUNDS
    ensures Due(requests, o, first, env, tools, Request(Pruned(sent + [AssistantOf(env.reply(k))]) + [System(BUDGET_SPENT)], true))
    ensures Idle(env, tools, k) && Worked(env, tools, k + 1).ran == Worked(env, tools, k).ran
  {
    hide Pruned, Chained, Worked, Idle, IsNudge, RestoredAll;
    NothingGiven(env, tools, k);
  }

  /** A round with a handler and budget left works on its reply's calls. */
  lemma {:induction false} RoundWorked(env: Environment, tools: Tools, k: nat)
    requires env.reply(k).Finished? && tools.handler && k < MAX_TOOL_ROUNDS
    ensures var w := Worked(env, tools, k);
            Worked(env, tools, k + 1) == AnswerAll(env, RestoredAll(tools.names, env.reply(k).calls), w.n, w.ran)
    ensures Idle(env, tools, k) <==> Worked(env, tools, k + 1).ran == Worked(env, tools, k).ran
  {
    hide AnswerAll, RestoredAll;
  }

  lemma {:induction false} CutOff(requests: seq<Request>, o: nat, first: seq<Message>, env: Environment, tools: Tools,
                                  sent: seq<Message>, k: nat)
    requires Asks(requests, o, first, env, tools, sent, k) && !IsNudge(env, tools, k)
    requires env.reply(k).Finished? && Worked(env, tools, k + 1).aborted
    ensures var w := Worked(env, tools, k + 1);
            WholeTurn(requests, o, first, env, tools, Pruned(sent + [AssistantOf(env.reply(k))]) + w.outs, Outcome(w.ran, false, ""))
  {
    hide Pruned, Chained, Worked, Idle, IsNudge, RestoredAll;
  }

  lemma {:induction false} RoundGoesOn(requests: seq<Request>, o: nat, first: seq<Message>, env: Environment, tools: Tools,
                                       sent: seq<Message>, k: nat)
    requires Asks(requests, o, first, env, tools, sent, k) && !IsNudge(env, tools, k) && k < MAX_TOOL_ROUNDS && tools.handler
    requires env.reply(k).Finished? && env.reply(k).calls != [] && !Worked(env, tools, k + 1).aborted
    ensures var h := Pruned(sent + [AssistantOf(env.reply(k))]) + Worked(env, tools, k + 1).outs;
            if Idle(env, tools, k) then Due(requests, o, first, env, tools, Request(h + [System(STUCK)], false))
            else Due(requests, o, first, env, tools, Request(h, false)) && !IsNudge(env, tools, k + 1)
  {
    hide Pruned, Chained, Worked, Idle, RestoredAll;
    var h := Pruned(sent + [AssistantOf(env.reply(k))]) + Worked(env, tools, k + 1).outs;
    assert h + [] == h;
  }

  // ---------------------------------------------------------------- answering, step by step

  lemma {:induction false} AnswerOneIs(env: Environment, calls: seq<ToolCall>, k: nat, n: nat, ran: seq<Invocation>)
    requires k < |calls| && !AnswerAll(env, calls[..k], n, ran).aborted
    ensures AnswerAll(env, calls[..k + 1], n, ran) == AnswerOne(env, calls[k], AnswerAll(env, calls[..k], n, ran))
  {
    hide AnswerOne;
    assert calls[..k + 1][..k] == calls[..k];
  }

  lemma {:induction false} AnswerOneAfter(env: Environment, c: ToolCall, a: Answers)
    requires !a.aborted
    ensures var one := AnswerOne(env, c, Answers([], a.n, a.ran, false));
            AnswerOne(env, c, a) == Answers(a.outs + one.outs, one.n, one.ran, one.aborted)
  {
    hide Signature, DuplicateNote, Succeeded;
  }

  /** Nothing is answered after an abort. */
  lemma {:induction false} AbortedIsAll(env: Environment, calls: seq<ToolCall>, k: nat, n: nat, ran: seq<Invocation>)
    requires k <= |calls| && AnswerAll(env, calls[..k], n, ran).aborted
    ensures AnswerAll(env, calls, n, ran) == AnswerAll(env, calls[..k], n, ran)
    decreases |calls|
  {
    hide AnswerOne;
    if k == |calls| {
      assert calls[..k] == calls;
    } else {
      var most := calls[..|calls| - 1];
      assert most[..k] == calls[..k];
      AbortedIsAll(env, most, k, n, ran);
    }
  }

  lemma {:induction false} AnswersKeepForm(env: Environment, calls: seq<ToolCall>, n: nat, ran: seq<Invocation>,
                                           before: seq<Message>, asker: Message)
    requires before != [] && before[0].System? && WellFormed(before + [asker]) && Complete(before) && NoneRepeated(ran)
    requires asker.Assistant? && Ids(asker.calls) == Ids(calls)
    ensures var a := AnswerAll(env, calls, n, ran); var h := before + [asker] + a.outs;
            WellFormed(h) && Asked(h) == Asked(before + [asker]) && (!a.aborted ==> Complete(h))
  {
    hide Asked, AnchoredIn, Complete, NoDuplicates, Ids, AnswerAll, NoneRepeated;
    AnswerAllInOrder(env, calls, n, ran);
    AnswersWellFormed(before, asker, calls, AnswerAll(env, calls, n, ran).outs);
  }

  // ---------------------------------------------------------------- tool bookkeeping

  /** The signatures that succeeded. */
  function Succeeded(ran: seq<Invocation>): set<string> {
    if ran == [] then {}
    else
      var last := ran[|ran| - 1];
      Succeeded(ran[..|ran| - 1]) + if last.ok then {last.Sig()} else {}
  }

  /** The signatures counted are exactly those that succeeded. */
  ghost predicate SeenMatches(seen: map<string, nat>, ran: seq<Invocation>) {
    forall sig :: (sig in seen && seen[sig] >= 1) <==> sig in Succeeded(ran)
  }

  /** After a success the same arguments are not run again. */
  predicate NoneRepeated(ran: seq<Invocation>) {
    ran == [] ||
    (NoneRepeated(ran[..|ran| - 1]) && ran[|ran| - 1].Sig() !in Succeeded(ran[..|ran| - 1]))
  }

  lemma {:induction false} SucceededAt(ran: seq<Invocation>, i: nat)
    requires i < |ran| && ran[i].ok
    ensures ran[i].Sig() in Succeeded(ran)
  {
    if i < |ran| - 1 { SucceededAt(ran[..|ran| - 1], i); }
  }

  lemma {:induction false} SucceededFrom(ran: seq<Invocation>, sig: string) returns (i: nat)
    requires sig in Succeeded(ran)
    ensures i < |ran| && ran[i].ok && ran[i].Sig() == sig
  {
    i := |ran| - 1;
    if !ran[i].ok || ran[i].Sig() != sig { i := SucceededFrom(ran[..i], sig); }
  }

  lemma {:induction false} NoneRepeatedAt(ran: seq<Invocation>, i: nat, j: nat)
    requires NoneRepeated(ran) && i < j < |ran| && ran[i].name == ran[j].name && ran[i].args == ran[j].args
    ensures !ran[i].ok
  {
    var most := ran[..|ran| - 1];
    if j < |ran| - 1 { NoneRepeatedAt(most, i, j); }
    else if ran[i].ok { SucceededAt(most, i); }
  }

  lemma {:induction false} NothingRan()
    ensures SeenMatches(map[], []) && NoneRepeated([])
  {}

  lemma {:induction false} RanOne(ran: seq<Invocation>, call: Invocation)
    requires NoneRepeated(ran) && call.Sig() !in Succeeded(ran)
    ensures NoneRepeated(ran + [call])
    ensures Succeeded(ran + [call]) == Succeeded(ran) + if call.ok then {call.Sig()} else {}
  {
    assert (ran + [call])[..|ran|] == ran;
  }

  // ---------------------------------------------------------------- fresh ids

  lemma {:induction false} SameIds(a: seq<ToolCall>, b: seq<ToolCall>)
    requires |a| == |b| && forall k :: 0 <= k < |a| ==> a[k].id == b[k].id
    ensures Ids(a) == Ids(b)
  {
    if a != [] { SameIds(a[1..], b[1..]); }
  }

  lemma {:induction false} FreshHere(env: Environment, h: seq<Message>, k: nat)
    requires FreshIds(env, h, k) && NoDuplicates(Asked(h))
    ensures env.reply(k).Finished? ==> NoDuplicates(Asked(h) + Ids(env.reply(k).calls))
  {
    var a, b := Asked(h), CallIds(env, k);
    forall i, j | 0 <= i < j < |a + b| ensures (a + b)[i] != (a + b)[j] {
      if i < |a| && j >= |a| {
        assert a[i] in SetOf(a) && b[j - |a|] in SetOf(b);
      }
    }
  }

  lemma {:induction false} FreshNext(env: Environment, h: seq<Message>, h': seq<Message>, calls: seq<ToolCall>, k: nat)
    requires FreshIds(env, h, k) && env.reply(k).Finished? && calls == env.reply(k).calls
    requires SetOf(Asked(h')) <= SetOf(Asked(h)) + SetOf(Ids(calls))
    ensures FreshIds(env, h', k + 1)
  {
    hide SetOf, Asked;
    assert CallIds(env, k) == Ids(calls);
    forall l: nat | l >= k + 1 ensures NoDuplicates(CallIds(env, l)) && SetOf(CallIds(env, l)) !! SetOf(Asked(h')) {
      assert SetOf(CallIds(env, k)) !! SetOf(CallIds(env, l));
    }
  }

  lemma {:induction false} SameIdsFresh(env: Environment, h: seq<Message>, h': seq<Message>, k: nat)
    requires FreshIds(env, h, k) && Asked(h') == Asked(h)
    ensures FreshIds(env, h', k)
  {}

  lemma {:induction false} RepairKeepsFirst(h: seq<Message>, answered: set<string>)
    ensures h != [] ==> Repair(h, answered) != [] && Repair(h, answered)[0] == h[0]
  {
    hide Missing, Placeholders;
  }

  lemma {:induction false} RepairedWellFormed(h: seq<Message>)
    requires WellFormed(h)
    ensures WellFormed(Repaired(h)) && Complete(Repaired(h)) && Asked(Repaired(h)) == Asked(h)
  {
    RepairedIsComplete(h);
    RepairedAnswersAll(h);
  }

  // ---------------------------------------------------------------- answering

  lemma {:induction false} AnsweredBehind(a: seq<Message>, open: set<string>, m: Message, outs: seq<Message>)
    requires AnchoredIn(a + [m], open) && m.Assistant? && AnchoredIn(outs, SetOf(Ids(m.calls)))
    ensures AnchoredIn(a + [m] + outs, open)
  {
    if a == [] {
      assert a + [m] == [m] && a + [m] + outs == [m] + outs;
      assert ([m] + outs)[1..] == outs;
    } else {
      assert (a + [m])[1..] == a[1..] + [m];
      assert (a + [m] + outs)[1..] == a[1..] + [m] + outs;
      match a[0]
      case Tool(_, _) => AnsweredBehind(a[1..], open, m, outs);
      case Assistant(_, calls) => AnsweredBehind(a[1..], SetOf(Ids(calls)), m, outs);
      case _ => AnsweredBehind(a[1..], {}, m, outs);
    }
  }

  lemma {:induction false} OutsFacts(outs: seq<Message>, open: set<string>)
    requires forall k :: 0 <= k < |outs| ==> outs[k].Tool? && outs[k].callId in open
    ensures AnchoredIn(outs, open) && Complete(outs) && Asked(outs) == []
    ensures forall k :: 0 <= k < |outs| ==> outs[k].callId in Block(outs)
  {
    if outs != [] {
      OutsFacts(outs[1..], open);
      forall k | 0 <= k < |outs| ensures outs[k].callId in Block(outs) {
        if k > 0 { assert outs[k] == outs[1..][k - 1]; }
      }
    }
  }

  lemma {:induction false} AnswersWellFormed(before: seq<Message>, m: Message, calls: seq<ToolCall>, outs: seq<Message>)
    requires before != [] && before[0].System? && WellFormed(before + [m])
    requires m.Assistant? && Ids(m.calls) == Ids(calls) && |outs| <= |calls|
    requires forall k :: 0 <= k < |outs| ==> outs[k].Tool? && outs[k].callId == calls[k].id
    ensures WellFormed(before + [m] + outs) && Asked(before + [m] + outs) == Asked(before + [m])
    ensures Complete(before) && |outs| == |calls| ==> Complete(before + [m] + outs)
  {
    var ids := Ids(calls);
    forall k | 0 <= k < |outs| ensures outs[k].callId in SetOf(ids) { assert ids[k] in ids; }
    OutsFacts(outs, SetOf(ids));
    AnsweredBehind(before, {}, m, outs);
    AskedConcat(before + [m], outs);
    if Complete(before) && |outs| == |calls| {
      AnswersComplete(before, m, ids, outs);
    }
  }

  lemma {:induction false} CompleteBlock(m: Message, ids: seq<string>, outs: seq<Message>)
    requires m.Assistant? && ids == Ids(m.calls) && Complete(outs)
    requires |outs| == |ids| && forall k :: 0 <= k < |ids| ==> ids[k] in Block(outs)
    ensures Complete([m] + outs)
  {
    hide Block, Ids;
    assert ([m] + outs)[1..] == outs;
  }

  lemma {:induction false} AnswersComplete(before: seq<Message>, m: Message, ids: seq<string>, outs: seq<Message>)
    requires m.Assistant? && ids == Ids(m.calls) && Complete(before) && Complete(outs)
    requires |outs| == |ids|
    requires forall k :: 0 <= k < |outs| ==> outs[k].Tool? && outs[k].callId == ids[k] && ids[k] in Block(outs)
    ensures Complete(before + [m] + outs)
  {
    CompleteBlock(m, ids, outs);
    hide Complete, Block, Ids;
    CompleteConcat(before, [m] + outs);
    assert before + [m] + outs == before + ([m] + outs);
  }

  // ---------------------------------------------------------------- appending and pruning

  lemma {:induction false} AnchoredBefore(h: seq<Message>, open: set<string>, m: Message)
    requires AnchoredIn(h, open) && !m.Tool?
    ensures AnchoredIn(h + [m], open)
  {
    assert [m][1..] == [];
    AnchoredConcat(h, open, [m]);
  }

  /** A message that is neither a call nor an answer keeps the history well-formed and complete. */
  lemma {:induction false} AppendPlain(h: seq<Message>, m: Message)
    requires WellFormed(h) && (m.User? || m.System?)
    ensures WellFormed(h + [m]) && Asked(h + [m]) == Asked(h)
    ensures Complete(h) ==> Complete(h + [m])
  {
    AnchoredBefore(h, {}, m);
    AskedConcat(h, [m]);
    assert [m][1..] == [];
    assert Asked([m]) == [] && Complete([m]);
    if Complete(h) { CompleteConcat(h, [m]); }
  }

  lemma {:induction false} AppendAssistant(h: seq<Message>, m: Message)
    requires WellFormed(h) && m.Assistant? && NoDuplicates(Asked(h) + Ids(m.calls))
    ensures WellFormed(h + [m]) && Asked(h + [m]) == Asked(h) + Ids(m.calls)
  {
    AnchoredBefore(h, {}, m);
    AskedConcat(h, [m]);
    assert [m][1..] == [];
    assert Asked([m]) == Ids(m.calls);
  }

  lemma {:induction false} PromptAsksNothing(m: Message)
    requires m.System?
    ensures Asked([m]) == [] && Complete([m])
  {
    assert [m][1..] == [];
  }

  lemma {:induction false} PrunedAsked(h: seq<Message>)
    requires WellFormed(h)
    ensures WellFormed(Pruned(h)) && SetOf(Asked(Pruned(h))) <= SetOf(Asked(h))
  {
    hide Pruned, Asked, AnchoredIn, Complete, NoDuplicates;
    PrunedIsWellFormed(h);
    var k := PrunedShape(h);
    var head, tail := h[..k], h[k..];
    assert h == head + tail;
    AskedConcat(head, tail);
    AskedConcat([h[0]], tail);
    PromptAsksNothing(h[0]);
    AskedApart(Asked(head), Asked(tail));
    SetOfConcat(Asked(head), Asked(tail));
    assert Pruned(h) == [h[0]] + tail;
    assert Asked(Pruned(h)) == Asked(tail);
  }

  /** The assistant message just appended survives the pruning. */
  lemma {:induction false} AppendThenPrune(h: seq<Message>, m: Message) returns (before: seq<Message>)
    requires WellFormed(h) && m.Assistant? && NoDuplicates(Asked(h) + Ids(m.calls))
    ensures Pruned(h + [m]) == before + [m] && |Pruned(h + [m])| <= WINDOW + 1
    ensures before != [] && before[0] == h[0] && WellFormed(Pruned(h + [m]))
    ensures Complete(h) ==> Complete(before)
    ensures SetOf(Asked(Pruned(h + [m]))) <= SetOf(Asked(h)) + SetOf(Ids(m.calls))
  {
    hide Pruned, Asked, AnchoredIn, Complete, NoDuplicates;
    AppendAssistant(h, m);
    PrunedAsked(h + [m]);
    SetOfConcat(Asked(h), Ids(m.calls));
    var k := PrunedShape(h + [m]);
    before := [h[0]] + h[k..];
    assert (h + [m])[k..] == h[k..] + [m];
    if Complete(h) {
      CompleteSuffix(h, k);
      PromptAsksNothing(h[0]);
      CompleteConcat([h[0]], h[k..]);
    }
  }

  lemma {:induction false} IdsSnoc(calls: seq<ToolCall>, c: ToolCall)
    ensures Ids(calls + [c]) == Ids(calls) + [c.id]
  {
    if calls == [] { assert [] + [c] == [c]; }
    else { assert (calls + [c])[1..] == calls[1..] + [c]; IdsSnoc(calls[1..], c); }
  }
}
