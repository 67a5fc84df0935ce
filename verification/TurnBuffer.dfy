/** Holding finals briefly and merging them into whole turns (internal/pipeline/turnbuffer.go).

    Times are nanoseconds. One final reads the clock up to three times: when it opens a turn, when it
    works out how long the turn has run, and when it arms the timer. */
module TurnBuffer {
  import opened Whitespace
  import opened Sequences
  import opened Wrappers

  const MILLISECOND: int := 1_000_000
  const TURN_MERGE_MAX: int := 2500 * MILLISECOND
  const TURN_MERGE_INCOMPLETE: int := 900 * MILLISECOND
  const DEFAULT_MERGE: int := 350 * MILLISECOND

  // ---------------------------------------------------------------- how long to hold

  predicate IsCloser(c: char) {
    c == '\'' || c == '"' || c == ')' || c == ']' || c == '}'
  }

  function DropClosers(s: string): string {
    if s != "" && IsCloser(s[|s| - 1]) then DropClosers(s[..|s| - 1]) else s
  }

  predicate EndsTerminal(s: string) {
    var t := DropClosers(TrimSpace(s));
    t != "" && (t[|t| - 1] == '.' || t[|t| - 1] == '!' || t[|t| - 1] == '?')
  }

  /** The configured window, and the text that reads as unfinished: a dangling or a dictated tail. */
  datatype Config = Config(base: int, unfinished: string -> bool)

  function Base(mergeMs: int): (b: int)
    ensures b > 0
  {
    if mergeMs * MILLISECOND <= 0 then DEFAULT_MERGE else mergeMs * MILLISECOND
  }

  function MergeWait(cfg: Config, text: string): int {
    if EndsTerminal(text) then cfg.base
    else if cfg.unfinished(text) then TURN_MERGE_INCOMPLETE
    else cfg.base
  }

  predicate AllClosers(s: string) {
    forall i :: 0 <= i < |s| ==> IsCloser(s[i])
  }

  lemma {:induction false} DropClosersOf(s: string, closers: string)
    requires s != "" && !IsCloser(s[|s| - 1]) && AllClosers(closers)
    ensures DropClosers(s + closers) == s
  {
    if closers == "" {
      assert s + closers == s;
    } else {
      assert (s + closers)[..|s + closers| - 1] == s + closers[..|closers| - 1];
      DropClosersOf(s, closers[..|closers| - 1]);
    }
  }

  lemma {:induction false} TrimLeftBefore(s: string, rest: string) returns (left: string)
    requires rest != "" && !IsSpace(rest[0])
    ensures TrimLeft(s + rest) == left + rest
  {
    hide IsSpace;
    if s != "" && IsSpace(s[0]) {
      assert (s + rest)[1..] == s[1..] + rest;
      left := TrimLeftBefore(s[1..], rest);
    } else {
      left := s;
      assert s == "" ==> s + rest == rest;
    }
  }

  /** A stop ends the thought, whatever comes before it and whatever quotes and brackets it is in. */
  lemma {:induction false} StopIsTerminal(s: string, stop: char, closers: string)
    requires stop in {'.', '!', '?'} && AllClosers(closers)
    ensures EndsTerminal(s + [stop] + closers)
  {
    var rest := [stop] + closers;
    assert s + [stop] + closers == s + rest;
    var left := TrimLeftBefore(s, rest);
    assert rest[|rest| - 1] == if closers == "" then stop else closers[|closers| - 1];
    assert !IsSpace(rest[|rest| - 1]);
    hide IsSpace;
    assert left + rest == (left + [stop]) + closers;
    DropClosersOf(left + [stop], closers);
  }

  lemma {:induction false} DropClosersLeaves(s: string) returns (closers: string)
    ensures s == DropClosers(s) + closers && AllClosers(closers)
    ensures DropClosers(s) != "" ==> !IsCloser(DropClosers(s)[|DropClosers(s)| - 1])
  {
    if s != "" && IsCloser(s[|s| - 1]) {
      closers := DropClosersLeaves(s[..|s| - 1]);
      closers := closers + [s[|s| - 1]];
    } else {
      closers := "";
    }
  }

  /** A text ends in a stop, and then nothing but quotes, brackets and space. */
  ghost predicate EndsInStop(text: string) {
    exists s: string, stop: char, closers: string ::
      TrimSpace(text) == s + [stop] + closers && stop in {'.', '!', '?'}
      && forall i :: 0 <= i < |closers| ==> closers[i] in {'\'', '"', ')', ']', '}'}
  }

  /** And that is all that counts as one. */
  lemma {:induction false} TerminalIff(text: string)
    ensures EndsTerminal(text) <==> EndsInStop(text)
  {
    var t := TrimSpace(text);
    if EndsTerminal(text) {
      var closers := DropClosersLeaves(t);
      var d := DropClosers(t);
      assert t == d[..|d| - 1] + [d[|d| - 1]] + closers;
    }
    if EndsInStop(text) {
      var s: string, stop: char, closers: string :| t == s + [stop] + closers && stop in {'.', '!', '?'}
        && forall i :: 0 <= i < |closers| ==> closers[i] in {'\'', '"', ')', ']', '}'};
      hide TrimSpace;
      DropClosersOf(s + [stop], closers);
    }
  }

  /** The window configured in milliseconds, and 350 where none is. */
  lemma {:induction false} BaseMeans(mergeMs: int)
    ensures Base(mergeMs) == if mergeMs > 0 then mergeMs * 1_000_000 else 350_000_000
  {}

  // ---------------------------------------------------------------- turns as groups of finals

  /** A final with its text trimmed, and whether it was spoken over the agent. */
  datatype Final = Final(text: string, over: bool)

  datatype Turn = Turn(text: string, over: bool)

  predicate AllTrimmed(parts: seq<Final>) {
    forall i :: 0 <= i < |parts| ==> Trimmed(parts[i].text)
  }

  function Joined(parts: seq<Final>): string {
    if parts == [] then ""
    else if |parts| == 1 then parts[0].text
    else Joined(parts[..|parts| - 1]) + " " + parts[|parts| - 1].text
  }

  predicate AnyOver(parts: seq<Final>) {
    exists i :: 0 <= i < |parts| && parts[i].over
  }

  function TurnOf(parts: seq<Final>): Turn {
    Turn(Joined(parts), AnyOver(parts))
  }

  lemma {:induction false} JoinedIsTrimmed(parts: seq<Final>)
    requires AllTrimmed(parts) && parts != []
    ensures Trimmed(Joined(parts))
  {
    hide IsSpace;
    assert Trimmed(parts[|parts| - 1].text);
    if |parts| > 1 { JoinedIsTrimmed(parts[..|parts| - 1]); }
  }

  function Texts(parts: seq<Final>): seq<string> {
    if parts == [] then [] else Texts(parts[..|parts| - 1]) + [parts[|parts| - 1].text]
  }

  /** The text of a turn is the texts of its finals with single spaces between them. */
  lemma {:induction false} JoinedBySpaces(parts: seq<Final>)
    ensures Joined(parts) == JoinSpaces(Texts(parts)) && (Texts(parts) == [] <==> parts == [])
  {
    if |parts| > 1 {
      var most := parts[..|parts| - 1];
      JoinedBySpaces(most);
      JoinSpacesSnoc(Texts(most), parts[|parts| - 1].text);
    } else if |parts| == 1 {
      assert Texts(parts[..0]) == [];
    }
  }

  lemma {:induction false} JoinSpacesSnoc(ws: seq<string>, w: string)
    requires ws != []
    ensures JoinSpaces(ws + [w]) == JoinSpaces(ws) + " " + w
  {
    if |ws| == 1 {
      assert (ws + [w])[1..] == [w];
    } else {
      assert (ws + [w])[1..] == ws[1..] + [w];
      JoinSpacesSnoc(ws[1..], w);
    }
  }

  /** Merging text and flag the way the loop does is joining the parts. */
  lemma {:induction false} MergeIsJoin(parts: seq<Final>, f: Final)
    requires AllTrimmed(parts + [f]) && parts != []
    ensures TrimSpace(Joined(parts) + " " + f.text) == Joined(parts + [f])
    ensures (AnyOver(parts) || f.over) == AnyOver(parts + [f])
  {
    hide IsSpace, TrimSpace;
    var all := parts + [f];
    assert all[..|parts|] == parts && all[|parts|] == f;
    JoinedIsTrimmed(all);
    TrimmedStays(Joined(all));
    if AnyOver(parts) {
      var i :| 0 <= i < |parts| && parts[i].over;
      assert all[i].over;
    }
    if AnyOver(all) && !f.over {
      var i :| 0 <= i < |all| && all[i].over;
      assert parts[i].over;
    }
  }

  // ---------------------------------------------------------------- one event

  /** The clock as one final reads it. */
  datatype Readings = Readings(began: int, checked: int, armed: int)

  datatype Event = Heard(text: string, over: bool, clock: Readings) | Tick(now: int)

  /** The turn being held: no parts when there is none, and then no timer either. */
  datatype State = State(parts: seq<Final>, began: int, deadline: int)

  const IDLE: State := State([], 0, 0)

  /** A final that says something joins the turn, and puts the deadline off or closes the turn. */
  function Take(cfg: Config, s: State, f: Final, clock: Readings): (State, seq<seq<Final>>) {
    var parts := s.parts + [f];
    var began := if s.parts == [] then clock.began else s.began;
    var elapsed := clock.checked - began;
    var wait := MergeWait(cfg, Joined(parts));
    if elapsed + wait <= TURN_MERGE_MAX then (State(parts, began, clock.armed + wait), [])
    else if TURN_MERGE_MAX - elapsed > 0 then (State(parts, began, clock.armed + (TURN_MERGE_MAX - elapsed)), [])
    else (IDLE, [parts])
  }

  function Step(cfg: Config, s: State, e: Event): (State, seq<seq<Final>>) {
    match e
    case Heard(text, over, clock) =>
      var t := TrimSpace(text);
      if t == "" then (s, []) else Take(cfg, s, Final(t, over), clock)
    case Tick(now) =>
      if s.parts != [] && now >= s.deadline then (IDLE, [s.parts]) else (s, [])
  }

  function Run(cfg: Config, events: seq<Event>): (State, seq<seq<Final>>) {
    if events == [] then (IDLE, [])
    else
      var (before, turns) := Run(cfg, events[..|events| - 1]);
      var (after, more) := Step(cfg, before, events[|events| - 1]);
      (after, turns + more)
  }

  // ---------------------------------------------------------------- the deadline

  /** The final took at most `lag` between working out the elapsed time and arming the timer. */
  predicate Prompt(e: Event, lag: int) {
    e.Heard? ==> e.clock.armed - e.clock.checked <= lag
  }

  predicate InTime(s: State, lag: int) {
    s.parts != [] ==> s.deadline <= s.began + TURN_MERGE_MAX + lag
  }

  lemma {:induction false} StepKeepsTime(cfg: Config, s: State, e: Event, lag: int)
    requires InTime(s, lag) && Prompt(e, lag)
    ensures InTime(Step(cfg, s, e).0, lag)
  {
    hide MergeWait, TrimSpace;
  }

  lemma {:induction false} RunInTime(cfg: Config, events: seq<Event>, lag: int)
    requires forall i :: 0 <= i < |events| ==> Prompt(events[i], lag)
    ensures InTime(Run(cfg, events).0, lag)
  {
    hide Step, InTime, Prompt;
    if events == [] {
      IdleInTime(lag);
    } else {
      RunInTime(cfg, events[..|events| - 1], lag);
      StepKeepsTime(cfg, Run(cfg, events[..|events| - 1]).0, events[|events| - 1], lag);
    }
  }

  /** However often a caller goes on, the turn is due 2500 ms after it began, plus whatever passes
      between two clock readings of one final. */
  lemma {:induction false} DeadlineIsHard(cfg: Config, events: seq<Event>, lag: int)
    requires forall i :: 0 <= i < |events| ==> Prompt(events[i], lag)
    ensures var s := Run(cfg, events).0; s.parts != [] ==> s.deadline <= s.began + 2_500_000_000 + lag
  {
    hide Run, Prompt;
    RunInTime(cfg, events, lag);
  }

  lemma {:induction false} IdleInTime(lag: int)
    ensures InTime(IDLE, lag)
  {}

  /** When the turn began that a final joins or opens. */
  function BeganWith(s: State, clock: Readings): int {
    if s.parts == [] then clock.began else s.began
  }

  /** A final that finds 2500 ms used up closes the turn at once; one that does not never does. */
  lemma {:induction false} LateFinalCloses(cfg: Config, s: State, f: Final, clock: Readings)
    requires cfg.base > 0
    ensures var (after, turns) := Take(cfg, s, f, clock);
            if clock.checked >= BeganWith(s, clock) + 2_500_000_000 then after.parts == [] && turns == [s.parts + [f]]
            else turns == [] && after.parts == s.parts + [f] && after.began == BeganWith(s, clock)
                 && clock.armed < after.deadline <= clock.armed + MergeWait(cfg, Joined(after.parts))
  {
    hide EndsTerminal, Joined;
  }

  function Least(a: int, b: int): (m: int)
    ensures m <= a && m <= b && (m == a || m == b)
  {
    if a < b then a else b
  }

  /** While there is time, a turn is held for as long as it reads: the configured window after a stop
      or a plain ending, 900 ms after a dangling one, and never past the time it has left. */
  lemma {:induction false} HeldAsItReads(cfg: Config, s: State, f: Final, clock: Readings)
    requires clock.checked < BeganWith(s, clock) + 2_500_000_000
    ensures var after := Take(cfg, s, f, clock).0; var text := Joined(s.parts + [f]);
            var held := after.deadline - clock.armed; var left := BeganWith(s, clock) + 2_500_000_000 - clock.checked;
            held == Least(if cfg.unfinished(text) && !EndsInStop(text) then 900_000_000 else cfg.base, left)
  {
    TerminalIff(Joined(s.parts + [f]));
    hide EndsTerminal, EndsInStop, Joined;
  }

  /** The timer closes the turn it was armed for once it is due, and nothing before that. */
  lemma {:induction false} TimerCloses(cfg: Config, s: State, now: int)
    ensures Step(cfg, s, Tick(now)) == if s.parts != [] && s.deadline <= now then (IDLE, [s.parts]) else (s, [])
  {}

  // ---------------------------------------------------------------- nothing lost, nothing twice

  function Finals(events: seq<Event>): seq<Final> {
    if events == [] then []
    else
      var e := events[|events| - 1];
      Finals(events[..|events| - 1])
      + if e.Heard? && TrimSpace(e.text) != "" then [Final(TrimSpace(e.text), e.over)] else []
  }

  lemma {:induction false} StepConserves(cfg: Config, s: State, e: Event)
    ensures var (after, more) := Step(cfg, s, e);
            Flat(more) + after.parts == s.parts + if e.Heard? && TrimSpace(e.text) != "" then [Final(TrimSpace(e.text), e.over)] else []
  {
    hide MergeWait, TrimSpace, Flat;
    var (after, more) := Step(cfg, s, e);
    if more == [] {
      FlatNothing<Final>();
    } else {
      FlatOne(more[0]);
      assert more == [more[0]];
    }
  }

  /** The turns emitted, followed by the one being held, are all the finals that said anything: each
      exactly once, in order. */
  lemma {:induction false} TurnsHoldAllFinals(cfg: Config, events: seq<Event>)
    ensures var (s, turns) := Run(cfg, events); Flat(turns) + s.parts == Finals(events)
  {
    hide Step, Flat;
    if events == [] {
      FlatNothing<Final>();
    } else {
      var most, e := events[..|events| - 1], events[|events| - 1];
      TurnsHoldAllFinals(cfg, most);
      var (before, turns) := Run(cfg, most);
      var (after, more) := Step(cfg, before, e);
      StepConserves(cfg, before, e);
      FlatConcat(turns, more);
      assert Flat(turns) + Flat(more) + after.parts == Flat(turns) + (Flat(more) + after.parts);
    }
  }

  predicate AllSaySomething(turns: seq<seq<Final>>) {
    forall i :: 0 <= i < |turns| ==> turns[i] != [] && AllTrimmed(turns[i])
  }

  lemma {:induction false} StepSaysSomething(cfg: Config, s: State, e: Event)
    requires AllTrimmed(s.parts)
    ensures var (after, more) := Step(cfg, s, e); AllTrimmed(after.parts) && AllSaySomething(more)
  {
    hide MergeWait, TrimSpace, Trimmed;
    if e.Heard? { TrimSpaceTrims(e.text); }
  }

  /** No turn is empty, and every final in one says something and has no space around it. */
  lemma {:induction false} TurnsSaySomething(cfg: Config, events: seq<Event>)
    ensures var (s, turns) := Run(cfg, events); AllTrimmed(s.parts) && AllSaySomething(turns)
  {
    hide Step, Trimmed;
    if events != [] {
      var most, e := events[..|events| - 1], events[|events| - 1];
      TurnsSaySomething(cfg, most);
      StepSaysSomething(cfg, Run(cfg, most).0, e);
    }
  }

  // ---------------------------------------------------------------- the loop's variables

  class Buffer {
    const cfg: Config
    var pending: Option<Turn>
    var turnBegan: int
    var timer: Option<int>
    var out: seq<Turn>

    // The finals in the pending turn.
    ghost var parts: seq<Final>

    ghost predicate Holding()
      reads this
    {
      && cfg.base > 0 && AllTrimmed(parts)
      && (pending.Some? <==> parts != []) && (timer.Some? ==> parts != [])
      && (pending.Some? ==> pending.value == TurnOf(parts))
    }

    /** Between events the timer runs exactly while a turn is held. */
    ghost predicate Valid()
      reads this
    {
      Holding() && (timer.Some? <==> parts != [])
    }

    ghost function View(): State
      reads this
    {
      if parts == [] then IDLE else State(parts, turnBegan, if timer.Some? then timer.value else 0)
    }

    constructor (mergeMs: int, unfinished: string -> bool)
      ensures Valid() && View() == IDLE && out == []
      ensures cfg == Config(Base(mergeMs), unfinished)
    {
      cfg := Config(Base(mergeMs), unfinished);
      pending, timer, turnBegan, out, parts := None, None, 0, [], [];
    }

    /** Hands the held turn on, unless the pipeline shuts down first: `taken` says which. */
    method Flush(taken: bool)
      requires Holding()
      modifies this
      ensures Valid() && View() == IDLE
      ensures out == old(out) + if old(parts) == [] || !taken then [] else [TurnOf(old(parts))]
    {
      if pending == None {
        return;
      }
      if taken {
        out := out + [pending.value];
      }
      pending, timer := None, None;
      parts := [];
    }

    method Merge(text: string, over: bool, began: int)
      requires Valid() && Trimmed(text)
      modifies `pending, `turnBegan, `parts
      ensures parts == old(parts) + [Final(text, over)] && AllTrimmed(parts)
      ensures pending == Some(TurnOf(parts))
      ensures turnBegan == if old(parts) == [] then began else old(turnBegan)
    {
      hide Trimmed, TrimSpace, Joined, AnyOver;
      if pending == None {
        OnePart(Final(text, over));
        assert parts + [Final(text, over)] == [Final(text, over)];
        pending := Some(Turn(text, over));
        turnBegan := began;
      } else {
        MergeIsJoin(parts, Final(text, over));
        pending := Some(Turn(TrimSpace(pending.value.text + " " + text), pending.value.over || over));
      }
      parts := parts + [Final(text, over)];
    }

    method OnFinal(text: string, over: bool, clock: Readings, taken: bool)
      requires Valid()
      modifies this
      ensures Valid()
      ensures var (after, turns) := Step(cfg, old(View()), Heard(text, over, clock));
              View() == after && out == old(out) + if taken then Turns(turns) else []
    {
      hide Trimmed, TrimSpace, TurnOf, MergeWait, Joined;
      TrimSpaceTrims(text);
      var t := TrimSpace(text);
      TurnsOfNone();
      if t == "" {
        return;
      }
      Merge(t, over, clock.began);
      TextOfTurn(parts);
      var wait := MergeWait(cfg, pending.value.text);
      var elapsed := clock.checked - turnBegan;
      if elapsed + wait > TURN_MERGE_MAX {
        var remaining := TURN_MERGE_MAX - elapsed;
        if remaining > 0 {
          wait := remaining;
        } else {
          TurnsOfOne(parts);
          Flush(taken);
          return;
        }
      }
      timer := Some(clock.armed + wait);
    }

    method OnTimer(now: int, taken: bool)
      requires Valid()
      modifies this
      ensures Valid()
      ensures var (after, turns) := Step(cfg, old(View()), Tick(now));
              View() == after && out == old(out) + if taken then Turns(turns) else []
    {
      hide TurnOf, AllTrimmed;
      TurnsOfNone();
      TurnsOfOne(parts);
      if timer.Some? && now >= timer.value {
        Flush(taken);
      }
    }
  }

  function Turns(groups: seq<seq<Final>>): seq<Turn> {
    if groups == [] then [] else Turns(groups[..|groups| - 1]) + [TurnOf(groups[|groups| - 1])]
  }

  lemma {:induction false} TurnsOfNone()
    ensures Turns([]) == []
  {}

  lemma {:induction false} TurnsOfOne(parts: seq<Final>)
    ensures Turns([parts]) == [TurnOf(parts)]
  {
    assert [parts][..0] == [];
  }

  lemma {:induction false} OnePart(f: Final)
    ensures TurnOf([f]) == Turn(f.text, f.over)
  {
    assert AnyOver([f]) == f.over by { assert [f][0] == f; }
  }

  lemma {:induction false} TextOfTurn(parts: seq<Final>)
    ensures TurnOf(parts).text == Joined(parts)
  {}
}
