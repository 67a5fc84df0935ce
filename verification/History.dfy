/** The message list sent to the chat provider (internal/llm/openai.go).

    A provider rejects a history in which a tool call has no result, or a tool result no call. This
    module says what a well-formed history is, and what repairing and pruning one mean. */
module History {

  /** `args` is the raw JSON text of the arguments. */
  datatype ToolCall = ToolCall(id: string, name: string, args: string)

  datatype Message =
    | System(content: string)
    | User(content: string)
    | Assistant(content: string, calls: seq<ToolCall>)
    | Tool(content: string, callId: string)

  const CANCELLED := "Tool execution was cancelled."

  const WINDOW: nat := 30

  function Placeholder(id: string): Message {
    Tool(CANCELLED, id)
  }

  // ---------------------------------------------------------------- ids

  function Ids(calls: seq<ToolCall>): (ids: seq<string>)
    ensures |ids| == |calls|
    ensures forall k :: 0 <= k < |calls| ==> ids[k] == calls[k].id
  {
    if calls == [] then [] else [calls[0].id] + Ids(calls[1..])
  }

  /** Every call id asked for in `h`, in order. */
  function Asked(h: seq<Message>): seq<string> {
    if h == [] then []
    else (if h[0].Assistant? then Ids(h[0].calls) else []) + Asked(h[1..])
  }

  /** The ids that have a tool message anywhere in `h`. */
  function Answered(h: seq<Message>): set<string> {
    if h == [] then {}
    else (if h[0].Tool? then {h[0].callId} else {}) + Answered(h[1..])
  }

  /** The ids answered by the run of tool messages at the front of `h`. */
  function Block(h: seq<Message>): set<string> {
    if h == [] || !h[0].Tool? then {} else {h[0].callId} + Block(h[1..])
  }

  function SetOf(ids: seq<string>): set<string> {
    set id | id in ids
  }

  predicate NoDuplicates(ids: seq<string>) {
    forall i, j :: 0 <= i < j < |ids| ==> ids[i] != ids[j]
  }

  // ---------------------------------------------------------------- well-formed histories

  /** Every tool message sits in the run directly after an assistant message that asked for it;
      `open` holds the ids a run at the very front may answer. */
  predicate AnchoredIn(h: seq<Message>, open: set<string>) {
    h == [] ||
    match h[0]
    case Tool(_, id) => id in open && AnchoredIn(h[1..], open)
    case Assistant(_, calls) => AnchoredIn(h[1..], SetOf(Ids(calls)))
    case _ => AnchoredIn(h[1..], {})
  }

  predicate Anchored(h: seq<Message>) {
    AnchoredIn(h, {})
  }

  /** Every call is answered in the run of tool messages directly after it. */
  predicate Complete(h: seq<Message>) {
    h == [] ||
    (Complete(h[1..]) && (h[0].Assistant? ==> forall id :: id in Ids(h[0].calls) ==> id in Block(h[1..])))
  }

  /** The two recursive definitions, read at an index. */
  lemma {:induction false} AnchoredAt(h: seq<Message>, open: set<string>, i: nat)
    requires AnchoredIn(h, open) && i < |h| && h[i].Tool?
    ensures ((forall k :: 0 <= k <= i ==> h[k].Tool?) && h[i].callId in open)
            || (exists j :: 0 <= j < i && h[j].Assistant? && h[i].callId in Ids(h[j].calls)
                            && (forall k :: j < k <= i ==> h[k].Tool?))
  {
    if i > 0 {
      var tail := h[1..];
      var inner := match h[0] case Tool(_, _) => open case Assistant(_, calls) => SetOf(Ids(calls)) case _ => {};
      AnchoredAt(tail, inner, i - 1);
      if forall k :: 0 <= k <= i - 1 ==> tail[k].Tool? {
        assert forall k :: 1 <= k <= i ==> h[k] == tail[k - 1];
        if h[0].Assistant? { assert h[i].callId in Ids(h[0].calls); }
      } else {
        var j :| 0 <= j < i - 1 && tail[j].Assistant? && tail[i - 1].callId in Ids(tail[j].calls)
                 && (forall k :: j < k <= i - 1 ==> tail[k].Tool?);
        assert forall k :: j + 1 < k <= i ==> h[k] == tail[k - 1];
        assert h[j + 1] == tail[j];
      }
    }
  }

  lemma {:induction false} CompleteAt(h: seq<Message>, j: nat, id: string)
    requires Complete(h) && j < |h| && h[j].Assistant? && id in Ids(h[j].calls)
    ensures exists i :: j < i < |h| && h[i].Tool? && h[i].callId == id && (forall k :: j < k <= i ==> h[k].Tool?)
  {
    if j == 0 {
      var i := BlockIndex(h[1..], id);
      assert forall k :: 1 <= k < |h| ==> h[k] == h[1..][k - 1];
      assert h[i + 1].Tool?;
    } else {
      CompleteAt(h[1..], j - 1, id);
      var i :| j - 1 < i < |h| - 1 && h[1..][i].Tool? && h[1..][i].callId == id
               && (forall k :: j - 1 < k <= i ==> h[1..][k].Tool?);
      assert forall k :: 1 <= k < |h| ==> h[k] == h[1..][k - 1];
      assert h[i + 1].Tool?;
    }
  }

  lemma {:induction false} BlockIndex(h: seq<Message>, id: string) returns (i: nat)
    requires id in Block(h)
    ensures i < |h| && h[i].Tool? && h[i].callId == id && forall k :: 0 <= k <= i ==> h[k].Tool?
  {
    if h[0].callId == id {
      i := 0;
    } else {
      var tail := BlockIndex(h[1..], id);
      i := tail + 1;
      assert forall k :: 1 <= k < |h| ==> h[k] == h[1..][k - 1];
    }
  }

  // ---------------------------------------------------------------- concatenation

  lemma {:induction false} AskedConcat(a: seq<Message>, b: seq<Message>)
    ensures Asked(a + b) == Asked(a) + Asked(b)
  {
    if a == [] { assert a + b == b; }
    else { assert (a + b)[1..] == a[1..] + b; AskedConcat(a[1..], b); }
  }

  lemma {:induction false} BlockConcat(a: seq<Message>, b: seq<Message>)
    ensures Block(a) <= Block(a + b)
    ensures (forall k :: 0 <= k < |a| ==> a[k].Tool?) ==> Block(a + b) == Block(a) + Block(b)
  {
    if a == [] { assert a + b == b; }
    else { assert (a + b)[1..] == a[1..] + b; BlockConcat(a[1..], b); }
  }

  lemma {:induction false} CompleteConcat(a: seq<Message>, b: seq<Message>)
    requires Complete(a) && Complete(b)
    ensures Complete(a + b)
  {
    if a == [] { assert a + b == b; }
    else {
      assert (a + b)[1..] == a[1..] + b;
      CompleteConcat(a[1..], b);
      BlockConcat(a[1..], b);
    }
  }

  /** A piece that does not start with a tool result can follow anything. */
  lemma {:induction false} AnchoredConcat(a: seq<Message>, open: set<string>, b: seq<Message>)
    requires AnchoredIn(a, open) && Anchored(b) && b != [] && !b[0].Tool?
    ensures AnchoredIn(a + b, open)
  {
    if a == [] {
      assert a + b == b;
      Reopen(b, {}, open);
    } else {
      assert (a + b)[1..] == a[1..] + b;
      match a[0]
      case Tool(_, _) => AnchoredConcat(a[1..], open, b);
      case Assistant(_, calls) => AnchoredConcat(a[1..], SetOf(Ids(calls)), b);
      case _ => AnchoredConcat(a[1..], {}, b);
    }
  }

  lemma {:induction false} Reopen(h: seq<Message>, a: set<string>, b: set<string>)
    requires AnchoredIn(h, a) && h != [] && !h[0].Tool?
    ensures AnchoredIn(h, b)
  {}

  // ---------------------------------------------------------------- what repair means

  /** The ids of `ids` not yet in `answered`, each once. */
  function Missing(ids: seq<string>, answered: set<string>): seq<string> {
    if ids == [] then []
    else if ids[0] in answered then Missing(ids[1..], answered)
    else [ids[0]] + Missing(ids[1..], answered + {ids[0]})
  }

  function Placeholders(ids: seq<string>): (ms: seq<Message>)
    ensures |ms| == |ids|
    ensures forall k :: 0 <= k < |ids| ==> ms[k] == Placeholder(ids[k])
  {
    if ids == [] then [] else [Placeholder(ids[0])] + Placeholders(ids[1..])
  }

  /** After each assistant message, placeholders for its unanswered calls in call order. */
  function Repair(h: seq<Message>, answered: set<string>): seq<Message> {
    if h == [] then []
    else if h[0].Assistant? then
      var missing := Missing(Ids(h[0].calls), answered);
      [h[0]] + Placeholders(missing) + Repair(h[1..], answered + SetOf(missing))
    else [h[0]] + Repair(h[1..], answered)
  }

  function Repaired(h: seq<Message>): seq<Message> {
    Repair(h, Answered(h))
  }

  /** The calls that get a placeholder: those that are not answered, each once. */
  lemma {:induction false} MissingMeans(ids: seq<string>, answered: set<string>)
    ensures forall id :: id in Missing(ids, answered) <==> id in ids && id !in answered
    ensures NoDuplicates(Missing(ids, answered))
  {
    if ids != [] {
      if ids[0] in answered { MissingMeans(ids[1..], answered); } else { MissingMeans(ids[1..], answered + {ids[0]}); }
    }
  }

  /** Where repair puts them: right behind the message that asked, as tool messages that say the call was
      cancelled. */
  lemma {:induction false} RepairPlaces(h: seq<Message>, answered: set<string>, i: nat)
    requires i < |h| && h[i].Assistant?
    ensures var known := answered + SetOf(Missing(Asked(h[..i]), answered));
            var missing := Missing(Ids(h[i].calls), known);
            Repair(h, answered) == Repair(h[..i], answered)
                                   + ([h[i]] + seq(|missing|, k requires 0 <= k < |missing| => Tool("Tool execution was cancelled.", missing[k]))
                                      + Repair(h[i + 1..], known + SetOf(missing)))
  {
    var known := answered + SetOf(Missing(Asked(h[..i]), answered));
    var missing := Missing(Ids(h[i].calls), known);
    assert Placeholders(missing) == seq(|missing|, k requires 0 <= k < |missing| => Tool("Tool execution was cancelled.", missing[k]));
    hide Missing, Ids, Repair, Placeholders, Asked, SetOf;
    assert h == h[..i] + h[i..] && h[i..][1..] == h[i + 1..] && h[i..][0] == h[i];
    RepairConcat(h[..i], h[i..], answered);
    RepairFirst(h[i..], known);
  }

  lemma {:induction false} RepairConcat(a: seq<Message>, b: seq<Message>, answered: set<string>)
    ensures Repair(a + b, answered) == Repair(a, answered) + Repair(b, answered + SetOf(Missing(Asked(a), answered)))
  {
    if a == [] {
      NoneMissing(answered);
      assert a + b == b && answered + SetOf([]) == answered;
    } else {
      var ids := if a[0].Assistant? then Ids(a[0].calls) else [];
      assert (a + b)[1..] == a[1..] + b && (a + b)[0] == a[0];
      assert Asked(a) == ids + Asked(a[1..]);
      NoneMissing(answered);
      hide Missing, Ids, Repair, Placeholders, Asked, SetOf;
      RepairFirst(a, answered);
      RepairFirst(a + b, answered);
      var first := Missing(ids, answered);
      RepairConcat(a[1..], b, answered + SetOf(first));
      MissingConcat(ids, Asked(a[1..]), answered);
      SetsAdd(answered, SetOf(first), SetOf(Missing(Asked(a[1..]), answered + SetOf(first))));
      Associate([a[0]] + Placeholders(first), Repair(a[1..], answered + SetOf(first)),
                Repair(b, answered + SetOf(Missing(Asked(a), answered))));
    }
  }

  lemma {:induction false} SetsAdd(a: set<string>, b: set<string>, c: set<string>)
    ensures a + b + c == a + (b + c)
  {}

  lemma {:induction false} Associate(a: seq<Message>, b: seq<Message>, c: seq<Message>)
    ensures (a + b) + c == a + (b + c)
  {}

  lemma {:induction false} RepairFirst(h: seq<Message>, answered: set<string>)
    requires h != []
    ensures var before := if h[0].Assistant? then Missing(Ids(h[0].calls), answered) else [];
            Repair(h, answered) == [h[0]] + Placeholders(before) + Repair(h[1..], answered + SetOf(before))
  {
    hide Missing, Ids;
    assert answered + SetOf([]) == answered;
    assert [h[0]] + Placeholders([]) == [h[0]];
  }

  lemma {:induction false} NoneMissing(answered: set<string>)
    ensures Missing([], answered) == [] && Asked([]) == []
  {}

  lemma {:induction false} MissingConcat(a: seq<string>, b: seq<string>, answered: set<string>)
    ensures var first := Missing(a, answered); Missing(a + b, answered) == first + Missing(b, answered + SetOf(first))
    ensures SetOf(Missing(a + b, answered)) == SetOf(Missing(a, answered)) + SetOf(Missing(b, answered + SetOf(Missing(a, answered))))
  {
    if a == [] {
      assert a + b == b && answered + SetOf([]) == answered;
    } else {
      assert (a + b)[1..] == a[1..] + b;
      if a[0] in answered {
        MissingConcat(a[1..], b, answered);
      } else {
        MissingConcat(a[1..], b, answered + {a[0]});
        var rest := Missing(a[1..], answered + {a[0]});
        assert answered + {a[0]} + SetOf(rest) == answered + SetOf([a[0]] + rest);
        var more := Missing(b, answered + SetOf([a[0]] + rest));
        assert [a[0]] + (rest + more) == ([a[0]] + rest) + more;
      }
    }
  }

  /** `w` is `h` with nothing but placeholders added. */
  predicate OnlyPlaceholdersAdded(h: seq<Message>, w: seq<Message>)
    decreases |w|
  {
    if w == [] then h == []
    else
      || (h != [] && w[0] == h[0] && OnlyPlaceholdersAdded(h[1..], w[1..]))
      || (w[0].Tool? && w[0] == Placeholder(w[0].callId) && OnlyPlaceholdersAdded(h, w[1..]))
  }

  lemma {:induction false} SetOfConcat(a: seq<string>, b: seq<string>)
    ensures SetOf(a + b) == SetOf(a) + SetOf(b)
  {}

  lemma {:induction false} MissingCovers(ids: seq<string>, answered: set<string>)
    ensures SetOf(Missing(ids, answered)) == SetOf(ids) - answered
  {
    if ids != [] {
      assert ids == [ids[0]] + ids[1..];
      SetOfConcat([ids[0]], ids[1..]);
      if ids[0] in answered {
        MissingCovers(ids[1..], answered);
      } else {
        MissingCovers(ids[1..], answered + {ids[0]});
        SetOfConcat([ids[0]], Missing(ids[1..], answered + {ids[0]}));
      }
    }
  }

  lemma {:induction false} MissingNone(ids: seq<string>, answered: set<string>)
    requires SetOf(ids) <= answered
    ensures Missing(ids, answered) == []
  {
    if ids != [] {
      assert ids[0] in SetOf(ids);
      assert SetOf(ids[1..]) <= SetOf(ids);
      MissingNone(ids[1..], answered);
    }
  }

  lemma {:induction false} AnsweredConcat(a: seq<Message>, b: seq<Message>)
    ensures Answered(a + b) == Answered(a) + Answered(b)
  {
    if a == [] { assert a + b == b; }
    else { assert (a + b)[1..] == a[1..] + b; AnsweredConcat(a[1..], b); }
  }

  lemma {:induction false} PlaceholderFacts(ids: seq<string>)
    ensures Answered(Placeholders(ids)) == SetOf(ids)
    ensures Block(Placeholders(ids)) == SetOf(ids)
    ensures Asked(Placeholders(ids)) == []
    ensures Complete(Placeholders(ids))
  {
    if ids != [] {
      PlaceholderFacts(ids[1..]);
      assert ids == [ids[0]] + ids[1..];
      assert Placeholders(ids)[1..] == Placeholders(ids[1..]);
    }
  }

  /** What repair adds: answers, exactly for the calls that had none; it asks for nothing new. */
  lemma {:induction false} RepairAnswers(h: seq<Message>, answered: set<string>)
    ensures Answered(Repair(h, answered)) == Answered(h) + (SetOf(Asked(h)) - answered)
    ensures Asked(Repair(h, answered)) == Asked(h)
  {
    hide Missing, Placeholders;
    if h != [] {
      if h[0].Assistant? {
        var ids := Ids(h[0].calls);
        var missing := Missing(ids, answered);
        MissingCovers(ids, answered);
        PlaceholderFacts(missing);
        var rest := Repair(h[1..], answered + SetOf(missing));
        RepairAnswers(h[1..], answered + SetOf(missing));
        AnsweredConcat([h[0]] + Placeholders(missing), rest);
        AnsweredConcat([h[0]], Placeholders(missing));
        AskedConcat([h[0]] + Placeholders(missing), rest);
        AskedConcat([h[0]], Placeholders(missing));
        assert Asked([h[0]]) == ids + [] == ids;
        assert SetOf(Asked(h)) == SetOf(ids) + SetOf(Asked(h[1..]));
      } else {
        RepairAnswers(h[1..], answered);
        AnsweredConcat([h[0]], Repair(h[1..], answered));
        AskedConcat([h[0]], Repair(h[1..], answered));
      }
    }
  }

  /** After repair no call is unanswered. */
  lemma {:induction false} RepairedAnswersAll(h: seq<Message>)
    ensures SetOf(Asked(Repaired(h))) <= Answered(Repaired(h))
    ensures Asked(Repaired(h)) == Asked(h)
  {
    RepairAnswers(h, Answered(h));
  }

  lemma {:induction false} RepairNothing(h: seq<Message>, answered: set<string>)
    requires SetOf(Asked(h)) <= answered
    ensures Repair(h, answered) == h
  {
    if h != [] {
      assert h == [h[0]] + h[1..];
      if h[0].Assistant? {
        assert SetOf(Asked(h)) == SetOf(Ids(h[0].calls)) + SetOf(Asked(h[1..]));
        MissingNone(Ids(h[0].calls), answered);
        assert answered + SetOf([]) == answered;
      } else {
        assert Asked(h) == Asked(h[1..]);
      }
      RepairNothing(h[1..], answered);
    }
  }

  /** A second repair changes nothing. */
  lemma {:induction false} RepairedTwice(h: seq<Message>)
    ensures Repaired(Repaired(h)) == Repaired(h)
  {
    RepairedAnswersAll(h);
    RepairNothing(Repaired(h), Answered(Repaired(h)));
  }

  lemma {:induction false} RepairKeepsOrder(h: seq<Message>, answered: set<string>)
    ensures OnlyPlaceholdersAdded(h, Repair(h, answered))
  {
    if h != [] {
      if h[0].Assistant? {
        var missing := Missing(Ids(h[0].calls), answered);
        var rest := Repair(h[1..], answered + SetOf(missing));
        RepairKeepsOrder(h[1..], answered + SetOf(missing));
        SkipPlaceholders(h[1..], missing, rest);
        assert Repair(h, answered) == [h[0]] + (Placeholders(missing) + rest);
      } else {
        RepairKeepsOrder(h[1..], answered);
      }
    }
  }

  lemma {:induction false} SkipPlaceholders(h: seq<Message>, ids: seq<string>, w: seq<Message>)
    requires OnlyPlaceholdersAdded(h, w)
    ensures OnlyPlaceholdersAdded(h, Placeholders(ids) + w)
  {
    if ids == [] {
      assert Placeholders(ids) + w == w;
    } else {
      SkipPlaceholders(h, ids[1..], w);
      assert (Placeholders(ids) + w)[1..] == Placeholders(ids[1..]) + w;
    }
  }

  // ---------------------------------------------------------------- repair makes histories complete

  lemma {:induction false} AnsweredWhere(h: seq<Message>, open: set<string>)
    requires AnchoredIn(h, open)
    ensures Answered(h) <= Block(h) + SetOf(Asked(h))
    ensures Block(h) <= open
  {
    if h != [] {
      match h[0]
      case Tool(_, _) =>
        AnsweredWhere(h[1..], open);
        assert Asked(h) == Asked(h[1..]);
      case Assistant(_, calls) =>
        AnsweredWhere(h[1..], SetOf(Ids(calls)));
        assert SetOf(Asked(h)) == SetOf(Ids(calls)) + SetOf(Asked(h[1..]));
      case _ =>
        AnsweredWhere(h[1..], {});
        assert Asked(h) == Asked(h[1..]);
    }
  }

  lemma {:induction false} RepairBlock(h: seq<Message>, answered: set<string>)
    ensures Block(Repair(h, answered)) == Block(h)
  {
    if h != [] && h[0].Tool? {
      RepairBlock(h[1..], answered);
      assert Repair(h, answered)[1..] == Repair(h[1..], answered);
    }
  }

  lemma {:induction false} PlaceholdersAnchored(ids: seq<string>, open: set<string>, w: seq<Message>)
    requires SetOf(ids) <= open && AnchoredIn(w, open)
    ensures AnchoredIn(Placeholders(ids) + w, open)
  {
    if ids == [] {
      assert Placeholders(ids) + w == w;
    } else {
      assert ids[0] in SetOf(ids) && SetOf(ids[1..]) <= SetOf(ids);
      PlaceholdersAnchored(ids[1..], open, w);
      assert (Placeholders(ids) + w)[1..] == Placeholders(ids[1..]) + w;
    }
  }

  lemma {:induction false} AnchoredHead(m: Message, missing: seq<string>, rest: seq<Message>, open: set<string>)
    requires m.Assistant? && SetOf(missing) <= SetOf(Ids(m.calls))
    requires AnchoredIn(rest, SetOf(Ids(m.calls)))
    ensures AnchoredIn([m] + Placeholders(missing) + rest, open)
  {
    hide SetOf, Placeholders, Ids;
    PlaceholdersAnchored(missing, SetOf(Ids(m.calls)), rest);
    assert [m] + Placeholders(missing) + rest == [m] + (Placeholders(missing) + rest);
    assert ([m] + (Placeholders(missing) + rest))[1..] == Placeholders(missing) + rest;
  }

  /** Repair keeps every tool message in place. */
  lemma {:induction false} RepairAnchored(h: seq<Message>, open: set<string>, answered: set<string>)
    requires AnchoredIn(h, open)
    ensures AnchoredIn(Repair(h, answered), open)
  {
    if h != [] {
      match h[0]
      case Tool(_, _) => RepairAnchored(h[1..], open, answered);
      case Assistant(_, calls) =>
        var missing := Missing(Ids(calls), answered);
        MissingCovers(Ids(calls), answered);
        RepairAnchored(h[1..], SetOf(Ids(calls)), answered + SetOf(missing));
        AnchoredHead(h[0], missing, Repair(h[1..], answered + SetOf(missing)), open);
      case _ => RepairAnchored(h[1..], {}, answered);
    }
  }

  /** Every call with an answer elsewhere, or asked for before, also has one directly behind it. */
  predicate AnsweredInPlace(h: seq<Message>, answered: set<string>) {
    h == [] ||
    if h[0].Assistant? then
      && (forall id :: id in Ids(h[0].calls) && id in answered ==> id in Block(h[1..]))
      && AnsweredInPlace(h[1..], answered + SetOf(Ids(h[0].calls)))
    else AnsweredInPlace(h[1..], answered)
  }

  lemma {:induction false} CompleteBehindPlaceholders(ids: seq<string>, w: seq<Message>)
    ensures Complete(Placeholders(ids) + w) <==> Complete(w)
  {
    if ids == [] {
      assert Placeholders(ids) + w == w;
    } else {
      CompleteBehindPlaceholders(ids[1..], w);
      assert (Placeholders(ids) + w)[1..] == Placeholders(ids[1..]) + w;
    }
  }

  /** One assistant message: placeholders answer exactly the calls not counted as answered. */
  lemma {:induction false} CompleteHeadIff(m: Message, missing: seq<string>, tail: seq<Message>, answered: set<string>)
    requires m.Assistant? && missing == Missing(Ids(m.calls), answered)
    ensures var rest := Repair(tail, answered + SetOf(missing));
            Complete([m] + Placeholders(missing) + rest)
            <==> Complete(rest) && forall id :: id in Ids(m.calls) && id in answered ==> id in Block(tail)
  {
    hide Missing, Placeholders, Repair, Ids;
    var rest := Repair(tail, answered + SetOf(missing));
    var after := Placeholders(missing) + rest;
    PlaceholderFacts(missing);
    CompleteBehindPlaceholders(missing, rest);
    BlockConcat(Placeholders(missing), rest);
    RepairBlock(tail, answered + SetOf(missing));
    MissingCovers(Ids(m.calls), answered);
    assert Block(after) == SetOf(missing) + Block(tail);
    assert forall id :: id in Ids(m.calls) ==> id in SetOf(Ids(m.calls));
    assert forall id :: id in Ids(m.calls) ==> (id in SetOf(missing) <==> id !in answered);
    assert [m] + Placeholders(missing) + rest == [m] + after;
    assert ([m] + after)[1..] == after;
  }

  /** Repair yields a history the provider accepts exactly when no call's id was answered for, or
      asked by, another message without being answered in place as well. */
  lemma {:induction false} RepairCompletesIff(h: seq<Message>, answered: set<string>)
    ensures Complete(Repair(h, answered)) <==> AnsweredInPlace(h, answered)
  {
    if h != [] {
      if h[0].Assistant? {
        var missing := Missing(Ids(h[0].calls), answered);
        MissingCovers(Ids(h[0].calls), answered);
        assert answered + SetOf(missing) == answered + SetOf(Ids(h[0].calls));
        RepairCompletesIff(h[1..], answered + SetOf(missing));
        CompleteHeadIff(h[0], missing, h[1..], answered);
      } else {
        RepairCompletesIff(h[1..], answered);
        assert Repair(h, answered)[1..] == Repair(h[1..], answered);
      }
    }
  }

  /** The condition fails when a provider reuses an id: the second call below is never answered. */
  lemma {:induction false} ReusedIdStaysUnanswered(prompt: string, output: string, c: ToolCall)
    ensures var h := [System(prompt), Assistant("", [c]), Tool(output, c.id), Assistant("", [c])];
            Anchored(h) && !Complete(Repaired(h))
  {
    var h := [System(prompt), Assistant("", [c]), Tool(output, c.id), Assistant("", [c])];
    var t1, t2, t3 := h[1..], h[2..], h[3..];
    assert t1[1..] == t2 && t2[1..] == t3 && t3[1..] == [];
    assert [c][1..] == [] && Ids([c]) == [c.id];
    assert AnchoredIn(t3, {c.id}) && AnchoredIn(t2, {c.id});
    assert SetOf(Ids([c])) == {c.id};
    assert Answered(t2) == {c.id} + Answered(t3);
    assert Answered(h) == Answered(t1) == Answered(t2);
    assert AnchoredIn(t1, {}) && Anchored(h);
    RepairCompletesIff(h, Answered(h));
    var counted := Answered(h) + SetOf(Ids([c]));
    assert c.id in Ids(t3[0].calls) && c.id in counted && Block([]) == {};
    assert !AnsweredInPlace(t3, counted);
    assert !AnsweredInPlace(t2, counted);
    assert !AnsweredInPlace(t1, Answered(h));
    assert !AnsweredInPlace(h, Answered(h));
  }

  lemma {:induction false} DistinctAnsweredInPlace(h: seq<Message>, open: set<string>, answered: set<string>)
    requires AnchoredIn(h, open) && NoDuplicates(Asked(h)) && open !! SetOf(Asked(h))
    requires forall id :: id in Asked(h) && id in answered ==> id in Answered(h)
    ensures AnsweredInPlace(h, answered)
  {
    if h != [] {
      var tail := h[1..];
      match h[0]
      case Tool(_, _) =>
        assert Asked(h) == Asked(tail);
        AnsweredWhere(tail, open);
        DistinctAnsweredInPlace(tail, open, answered);
      case Assistant(_, calls) =>
        var ids := Ids(calls);
        assert Asked(h) == ids + Asked(tail);
        AskedApart(ids, Asked(tail));
        AnsweredWhere(tail, SetOf(ids));
        assert forall id :: id in ids ==> id in SetOf(ids);
        assert forall id :: id in Asked(tail) ==> id in SetOf(Asked(tail));
        DistinctAnsweredInPlace(tail, SetOf(ids), answered + SetOf(ids));
      case _ =>
        assert Asked(h) == Asked(tail);
        DistinctAnsweredInPlace(tail, {}, answered);
    }
  }

  lemma {:induction false} AskedApart(a: seq<string>, b: seq<string>)
    requires NoDuplicates(a + b)
    ensures NoDuplicates(b) && SetOf(a) !! SetOf(b)
  {
    forall i, j | 0 <= i < j < |b| ensures b[i] != b[j] {
      assert (a + b)[|a| + i] == b[i] && (a + b)[|a| + j] == b[j];
    }
    forall i, j | 0 <= i < |a| && 0 <= j < |b| ensures a[i] != b[j] {
      assert (a + b)[i] == a[i] && (a + b)[|a| + j] == b[j];
    }
  }

  /** With distinct call ids, repair leaves a history the provider accepts. */
  lemma {:induction false} RepairedIsComplete(h: seq<Message>)
    requires Anchored(h) && NoDuplicates(Asked(h))
    ensures Complete(Repaired(h)) && Anchored(Repaired(h))
  {
    DistinctAnsweredInPlace(h, {}, Answered(h));
    RepairCompletesIff(h, Answered(h));
    RepairAnchored(h, {}, Answered(h));
  }

  // ---------------------------------------------------------------- pruning

  function DropTools(h: seq<Message>): (t: seq<Message>)
    ensures |t| <= |h| && (t != [] ==> !t[0].Tool?)
  {
    if h != [] && h[0].Tool? then DropTools(h[1..]) else h
  }

  function Pruned(h: seq<Message>): seq<Message> {
    if |h| <= WINDOW + 1 then h
    else (if h[0].System? then [h[0]] else []) + DropTools(h[|h| - WINDOW..])
  }

  lemma {:induction false} DropToolsIsSuffix(h: seq<Message>)
    ensures DropTools(h) == h[|h| - |DropTools(h)|..]
  {
    if h != [] && h[0].Tool? { DropToolsIsSuffix(h[1..]); }
  }

  lemma {:induction false} AnchoredSuffix(h: seq<Message>, open: set<string>, k: nat)
    requires AnchoredIn(h, open) && k < |h| && !h[k].Tool?
    ensures Anchored(h[k..])
  {
    if k == 0 {
      assert h[0..] == h;
      Reopen(h, open, {});
    } else {
      assert h[1..][k - 1..] == h[k..];
      match h[0]
      case Tool(_, _) => AnchoredSuffix(h[1..], open, k - 1);
      case Assistant(_, calls) => AnchoredSuffix(h[1..], SetOf(Ids(calls)), k - 1);
      case _ => AnchoredSuffix(h[1..], {}, k - 1);
    }
  }

  lemma {:induction false} CompleteSuffix(h: seq<Message>, k: nat)
    requires Complete(h) && k <= |h|
    ensures Complete(h[k..])
  {
    if k == 0 {
      assert h[0..] == h;
    } else {
      assert h[1..][k - 1..] == h[k..];
      CompleteSuffix(h[1..], k - 1);
    }
  }

  /** What a history starting with the system prompt prunes to: the prompt and a suffix. */
  lemma {:induction false} PrunedShape(h: seq<Message>) returns (k: nat)
    requires h != [] && h[0].System?
    ensures 1 <= k <= |h| && Pruned(h) == [h[0]] + h[k..]
    ensures k < |h| ==> k == 1 || !h[k].Tool?
    ensures |Pruned(h)| <= WINDOW + 1
    ensures !h[|h| - 1].Tool? && |h| > 1 ==> k < |h|
  {
    if |h| <= WINDOW + 1 {
      k := 1;
    } else {
      var tail := h[|h| - WINDOW..];
      DropToolsIsSuffix(tail);
      if !h[|h| - 1].Tool? { KeepsLast(tail); }
      hide DropTools;
      k := |h| - |DropTools(tail)|;
      assert DropTools(tail) == h[k..];
    }
  }

  lemma {:induction false} KeepsLast(h: seq<Message>)
    requires h != [] && !h[|h| - 1].Tool?
    ensures DropTools(h) != []
  {
    if h[0].Tool? { KeepsLast(h[1..]); }
  }

  /** Pruning leaves at most 31 messages, no orphan tool result, and no call whose answer it cut. */
  lemma {:induction false} PrunedIsWellFormed(h: seq<Message>)
    requires h != [] && h[0].System? && Anchored(h)
    ensures |Pruned(h)| <= WINDOW + 1 && Pruned(h)[0] == h[0]
    ensures Anchored(Pruned(h))
    ensures Complete(h) ==> Complete(Pruned(h))
  {
    var k := PrunedShape(h);
    if k < |h| {
      if k > 1 {
        AnchoredSuffix(h, {}, k);
        AnchoredConcat([h[0]], {}, h[k..]);
      } else {
        assert [h[0]] + h[1..] == h;
      }
    }
    if Complete(h) {
      CompleteSuffix(h, k);
      CompleteConcat([h[0]], h[k..]);
    }
  }

  /** Up to 31 messages nothing is pruned. Of a longer history the system prompt stays, and of the last
      30 messages all but the tool messages that window opens with, in their order. */
  lemma {:induction false} PrunedKeepsWindow(h: seq<Message>)
    ensures |h| <= 31 ==> Pruned(h) == h
    ensures |h| > 31 ==>
              exists k :: |h| - 30 <= k <= |h| && OpensWithTools(h, k)
                          && Pruned(h) == (if h[0].System? then [h[0]] else []) + h[k..]
  {
    if |h| > 31 {
      var tail := h[|h| - 30..];
      ToolsDropped(tail);
      DropToolsIsSuffix(tail);
      hide DropTools;
      var k := |h| - |DropTools(tail)|;
      assert DropTools(tail) == h[k..];
      assert OpensWithTools(h, k) by {
        forall j | |h| - 30 <= j < k ensures h[j].Tool? { assert h[j] == tail[j - (|h| - 30)]; }
      }
    }
  }

  /** Before `k` there are only tool messages in the window of the last 30, and at `k` none. */
  predicate OpensWithTools(h: seq<Message>, k: nat)
    requires |h| >= 30 && |h| - 30 <= k <= |h|
  {
    (forall j :: |h| - 30 <= j < k ==> h[j].Tool?) && (k < |h| ==> !h[k].Tool?)
  }

  lemma {:induction false} ToolsDropped(h: seq<Message>)
    ensures forall j :: 0 <= j < |h| - |DropTools(h)| ==> h[j].Tool?
  {
    if h != [] && h[0].Tool? { ToolsDropped(h[1..]); }
  }
}
