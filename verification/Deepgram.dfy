/** Accumulating the final chunks of an utterance and emitting it once (internal/stt/deepgram.go).

    Times are nanoseconds. A message reads the clock when it looks for a recent duplicate, and again
    when it records what it closed. */
module Deepgram {
  import opened Whitespace
  import opened Transcript
  import opened Sequences
  import opened Wrappers

  const SUPPRESS_WINDOW: int := 5_000_000_000

  /** Case rules for merging, and what transcripts are compared by. */
  datatype Config = Config(lang: Lang, lowerText: string -> string)

  function Normalized(cfg: Config, s: string): string {
    JoinSpaces(Fields(cfg.lowerText(TrimSpace(s))))
  }

  predicate Same(cfg: Config, a: string, b: string) {
    Normalized(cfg, a) == Normalized(cfg, b)
  }

  /** Two transcripts are the same if they have the same words in the same case. */
  lemma {:induction false} SameMeans(cfg: Config, a: string, b: string)
    ensures Same(cfg, a, b) <==> Fields(cfg.lowerText(TrimSpace(a))) == Fields(cfg.lowerText(TrimSpace(b)))
  {
    var x, y := cfg.lowerText(TrimSpace(a)), cfg.lowerText(TrimSpace(b));
    FieldsAreWords(x);
    FieldsAreWords(y);
    hide Fields, TrimSpace, JoinSpaces;
    FieldsOfJoin(Fields(x));
    FieldsOfJoin(Fields(y));
  }

  datatype Output = Output(text: string, isFinal: bool, confidence: real)

  datatype Alternative = Alternative(transcript: string, confidence: real)

  datatype Readings = Readings(checked: int, recorded: int)

  datatype Event =
    | Message(alternatives: seq<Alternative>, isFinal: bool, speechFinal: bool, clock: Readings)
    | UtteranceEnd(clock: Readings)
    | SpeechStarted

  // ---------------------------------------------------------------- one utterance

  /** What the chunks of an utterance amount to. */
  function Merged(cfg: Config, chunks: seq<string>): string {
    if chunks == [] then "" else MergedText(cfg.lang, Merged(cfg, chunks[..|chunks| - 1]), chunks[|chunks| - 1])
  }

  predicate AllTrimmed(chunks: seq<string>) {
    forall i :: 0 <= i < |chunks| ==> Trimmed(chunks[i])
  }

  lemma {:induction false} MergedIsTrimmed(cfg: Config, chunks: seq<string>)
    requires AllTrimmed(chunks)
    ensures chunks == [] ==> Merged(cfg, chunks) == ""
    ensures chunks != [] ==> Trimmed(Merged(cfg, chunks)) && TrimSpace(Merged(cfg, chunks)) == Merged(cfg, chunks)
  {
    hide MergedText, IsSpace, TrimSpace;
    if chunks != [] {
      var last := chunks[|chunks| - 1];
      assert Trimmed(last);
      TrimmedStays(last);
      MergedTextIsTrimmed(cfg.lang, Merged(cfg, chunks[..|chunks| - 1]), last);
      TrimmedStays(Merged(cfg, chunks));
    }
  }

  lemma {:induction false} MergedNext(cfg: Config, chunks: seq<string>, c: string)
    ensures Merged(cfg, chunks + [c]) == MergedText(cfg.lang, Merged(cfg, chunks), c)
  {
    hide MergedText;
    assert (chunks + [c])[..|chunks|] == chunks;
  }

  // ---------------------------------------------------------------- one event

  datatype State = State(chunks: seq<string>, lastPartial: string, lastFinal: string, lastFinalAt: Option<int>,
                         speechActive: bool, confidence: real)

  const INITIAL: State := State([], "", "", None, false, 0.0)

  predicate Suppressed(cfg: Config, s: State, text: string, now: int) {
    Same(cfg, text, s.lastFinal) && s.lastFinalAt.Some? && now - s.lastFinalAt.value < SUPPRESS_WINDOW
  }

  function Closed(cfg: Config, s: State, text: string, now: int): State {
    if TrimSpace(text) == "" then State([], "", s.lastFinal, s.lastFinalAt, false, 0.0)
    else State([], "", text, Some(now), false, 0.0)
  }

  function Partial(cfg: Config, s: State, text: string, confidence: real, now: int): (State, seq<Output>) {
    var t := TrimSpace(text);
    if t == "" || Same(cfg, t, s.lastPartial) || Suppressed(cfg, s, t, now) then (s, [])
    else (s.(lastPartial := t), [Output(t, false, confidence)])
  }

  /** What is said and what utterance closes: at most one of each. */
  datatype Effect = Effect(out: seq<Output>, closed: seq<seq<string>>)

  function Hear(cfg: Config, s: State, text: string, m: Event): (State, Effect)
    requires m.Message? && m.alternatives != []
  {
    var confidence := m.alternatives[0].confidence;
    var heard := s.(confidence := confidence, chunks := if m.isFinal then s.chunks + [text] else s.chunks);
    var combined := Merged(cfg, heard.chunks);
    if m.isFinal && m.speechFinal then
      (Closed(cfg, heard, combined, m.clock.recorded),
       Effect(if Suppressed(cfg, heard, combined, m.clock.checked) then [] else [Output(combined, true, confidence)], [heard.chunks]))
    else
      var progress := if m.isFinal then combined
                      else if s.chunks != [] then TrimSpace(combined + " " + text)
                      else text;
      var (after, out) := Partial(cfg, heard, progress, confidence, m.clock.checked);
      (after, Effect(out, []))
  }

  function Step(cfg: Config, s: State, e: Event): (State, Effect) {
    match e
    case Message(alternatives, _, _, _) =>
      if alternatives == [] || TrimSpace(alternatives[0].transcript) == "" then (s, Effect([], []))
      else Hear(cfg, s, TrimSpace(alternatives[0].transcript), e)
    case UtteranceEnd(clock) =>
      var combined := Merged(cfg, s.chunks);
      (Closed(cfg, s, combined, clock.recorded),
       if s.chunks == [] then Effect([], [])
       else Effect(if Suppressed(cfg, s, combined, clock.checked) then [] else [Output(combined, true, s.confidence)], [s.chunks]))
    case SpeechStarted => (s.(speechActive := true), Effect([], []))
  }

  function Run(cfg: Config, events: seq<Event>): (State, Effect) {
    if events == [] then (INITIAL, Effect([], []))
    else
      var (before, done) := Run(cfg, events[..|events| - 1]);
      var (after, more) := Step(cfg, before, events[|events| - 1]);
      (after, Effect(done.out + more.out, done.closed + more.closed))
  }

  // ---------------------------------------------------------------- every chunk in one utterance

  predicate IsChunk(e: Event) {
    e.Message? && e.isFinal && e.alternatives != [] && TrimSpace(e.alternatives[0].transcript) != ""
  }

  function Chunks(events: seq<Event>): seq<string> {
    if events == [] then []
    else
      var e := events[|events| - 1];
      Chunks(events[..|events| - 1]) + if IsChunk(e) then [TrimSpace(e.alternatives[0].transcript)] else []
  }

  lemma {:induction false} StepConserves(cfg: Config, s: State, e: Event)
    ensures var (after, done) := Step(cfg, s, e);
            Flat(done.closed) + after.chunks == s.chunks + if IsChunk(e) then [TrimSpace(e.alternatives[0].transcript)] else []
  {
    hide Merged, TrimSpace, Suppressed, Same, Flat;
    var (after, done) := Step(cfg, s, e);
    FlatNothing<string>();
    if done.closed != [] {
      FlatOne(done.closed[0]);
      assert done.closed == [done.closed[0]];
    }
  }

  /** Each final chunk is folded into exactly one closed utterance, or the one still open, in order,
      whether a final message or the utterance-end event closes it. */
  lemma {:induction false} ChunksFoldOnce(cfg: Config, events: seq<Event>)
    ensures var (s, done) := Run(cfg, events); Flat(done.closed) + s.chunks == Chunks(events)
  {
    hide Step, Flat, IsChunk;
    if events == [] {
      FlatNothing<string>();
    } else {
      var most, e := events[..|events| - 1], events[|events| - 1];
      ChunksFoldOnce(cfg, most);
      var (before, done) := Run(cfg, most);
      var (after, more) := Step(cfg, before, e);
      StepConserves(cfg, before, e);
      FlatConcat(done.closed, more.closed);
      assert Flat(done.closed) + Flat(more.closed) + after.chunks == Flat(done.closed) + (Flat(more.closed) + after.chunks);
    }
  }

  // ---------------------------------------------------------------- no sentence twice

  /** A final that was emitted, and when it was looked up. */
  datatype Said = Said(text: string, at: int)

  function FinalSaid(e: Event, out: seq<Output>): seq<Said> {
    if |out| == 1 && out[0].isFinal && !e.SpeechStarted? then [Said(out[0].text, e.clock.checked)] else []
  }

  /** The finals emitted over a run. */
  function Finals(cfg: Config, events: seq<Event>): seq<Said> {
    if events == [] then []
    else
      var most, e := events[..|events| - 1], events[|events| - 1];
      Finals(cfg, most) + FinalSaid(e, Step(cfg, Run(cfg, most).0, e).1.out)
  }

  /** The clock does not go back, within an event or from one to the next. */
  predicate ClockFrom(events: seq<Event>, start: int, end: int)
  {
    if events == [] then start <= end
    else
      var e := events[|events| - 1];
      if e.SpeechStarted? then ClockFrom(events[..|events| - 1], start, end)
      else e.clock.checked <= e.clock.recorded <= end && ClockFrom(events[..|events| - 1], start, e.clock.checked)
  }

  /** Two finals in a row are different, or five seconds apart. */
  predicate Apart(cfg: Config, a: Said, b: Said) {
    Same(cfg, a.text, b.text) ==> b.at - a.at >= 5_000_000_000
  }

  predicate AllApart(cfg: Config, said: seq<Said>) {
    forall i :: 0 < i < |said| ==> Apart(cfg, said[i - 1], said[i])
  }

  /** What has been closed last is what was said last, up to case and spacing, and no older. */
  ghost predicate Remembers(cfg: Config, s: State, said: seq<Said>, now: int) {
    && AllTrimmed(s.chunks)
    && AllApart(cfg, said)
    && (s.lastFinalAt.Some? ==> s.lastFinalAt.value <= now)
    && (said == [] ==> s.lastFinalAt.None?)
    && (said != [] ==>
          var last := said[|said| - 1];
          s.lastFinalAt.Some? && Same(cfg, last.text, s.lastFinal) && last.at <= s.lastFinalAt.value)
  }

  lemma {:induction false} SaidNext(cfg: Config, said: seq<Said>, next: Said)
    requires AllApart(cfg, said) && (said != [] ==> Apart(cfg, said[|said| - 1], next))
    ensures AllApart(cfg, said + [next])
  {
    hide Apart;
  }

  /** Closing an utterance remembers it, and says it unless it was said within the window. */
  lemma {:induction false} CloseRemembers(cfg: Config, s: State, said: seq<Said>, text: string, clock: Readings, now: int)
    requires Remembers(cfg, s, said, now) && now <= clock.checked <= clock.recorded && TrimSpace(text) != ""
    ensures var after := Closed(cfg, s, text, clock.recorded);
            var more := if Suppressed(cfg, s, text, clock.checked) then [] else [Said(text, clock.checked)];
            Remembers(cfg, after, said + more, clock.recorded)
  {
    hide Normalized, TrimSpace, AllApart;
    if !Suppressed(cfg, s, text, clock.checked) { SaidNext(cfg, said, Said(text, clock.checked)); }
    assert said + [] == said;
  }

  lemma {:induction false} RemembersLater(cfg: Config, s: State, said: seq<Said>, a: int, b: int)
    requires Remembers(cfg, s, said, a) && a <= b
    ensures Remembers(cfg, s, said, b)
  {
    hide Same, AllApart, AllTrimmed;
  }

  /** Nothing but a close touches what is remembered. */
  lemma {:induction false} PartialRemembers(cfg: Config, s: State, text: string, confidence: real, at: int,
                                            said: seq<Said>, now: int)
    requires Remembers(cfg, s, said, now)
    ensures var (after, out) := Partial(cfg, s, text, confidence, at);
            Remembers(cfg, after, said, now) && (out == [] || (|out| == 1 && !out[0].isFinal))
  {
    hide Same, AllApart, AllTrimmed, TrimSpace;
  }

  lemma {:induction false} ChunkAdded(chunks: seq<string>, text: string)
    requires AllTrimmed(chunks) && Trimmed(text)
    ensures AllTrimmed(chunks + [text])
  {
    hide Trimmed;
  }

  lemma {:induction false} HearRemembers(cfg: Config, s: State, text: string, e: Event, said: seq<Said>, now: int)
    requires e.Message? && e.alternatives != [] && Trimmed(text)
    requires Remembers(cfg, s, said, now) && now <= e.clock.checked <= e.clock.recorded
    ensures var (after, done) := Hear(cfg, s, text, e);
            Remembers(cfg, after, said + FinalSaid(e, done.out), e.clock.recorded)
  {
    hide Trimmed, TrimSpace, Same, AllApart, Merged, Closed, Suppressed, Partial;
    var heard := s.(confidence := e.alternatives[0].confidence, chunks := if e.isFinal then s.chunks + [text] else s.chunks);
    var combined := Merged(cfg, heard.chunks);
    assert said + [] == said;
    ChunkAdded(s.chunks, text);
    if e.isFinal && e.speechFinal {
      MergedIsTrimmed(cfg, heard.chunks);
      TrimmedIsSomething(combined);
      CloseRemembers(cfg, heard, said, combined, e.clock, now);
    } else {
      var progress := if e.isFinal then combined else if s.chunks != [] then TrimSpace(combined + " " + text) else text;
      PartialRemembers(cfg, heard, progress, heard.confidence, e.clock.checked, said, now);
      RemembersLater(cfg, Hear(cfg, s, text, e).0, said, now, e.clock.recorded);
    }
  }

  lemma {:induction false} TrimmedIsSomething(s: string)
    requires Trimmed(s) && TrimSpace(s) == s
    ensures TrimSpace(s) != ""
  {}

  lemma {:induction false} StepRemembers(cfg: Config, s: State, e: Event, said: seq<Said>, now: int)
    requires Remembers(cfg, s, said, now)
    requires e.SpeechStarted? || now <= e.clock.checked <= e.clock.recorded
    ensures var (after, done) := Step(cfg, s, e);
            Remembers(cfg, after, said + FinalSaid(e, done.out), if e.SpeechStarted? then now else e.clock.recorded)
  {
    hide Trimmed, TrimSpace, Same, AllApart, Merged, Suppressed, Hear;
    assert said + [] == said;
    match e
    case SpeechStarted =>
    case Message(alternatives, _, _, _) =>
      if alternatives != [] && TrimSpace(alternatives[0].transcript) != "" {
        TrimSpaceTrims(alternatives[0].transcript);
        HearRemembers(cfg, s, TrimSpace(alternatives[0].transcript), e, said, now);
      } else {
        RemembersLater(cfg, s, said, now, e.clock.recorded);
      }
    case UtteranceEnd(clock) =>
      MergedIsTrimmed(cfg, s.chunks);
      if s.chunks != [] {
        TrimmedIsSomething(Merged(cfg, s.chunks));
        CloseRemembers(cfg, s, said, Merged(cfg, s.chunks), clock, now);
      } else {
        NothingToTrim();
        RemembersLater(cfg, s, said, now, clock.recorded);
      }
  }

  lemma {:induction false} NothingToTrim()
    ensures TrimSpace("") == ""
  {}

  lemma {:induction false} RunRemembers(cfg: Config, events: seq<Event>, start: int, end: int)
    requires ClockFrom(events, start, end)
    ensures Remembers(cfg, Run(cfg, events).0, Finals(cfg, events), end)
  {
    hide Remembers, Step;
    if events == [] {
      RemembersNothing(cfg, end);
    } else {
      var most, e := events[..|events| - 1], events[|events| - 1];
      var now := if e.SpeechStarted? then end else e.clock.checked;
      RunRemembers(cfg, most, start, now);
      StepRemembers(cfg, Run(cfg, most).0, e, Finals(cfg, most), now);
      RemembersLater(cfg, Run(cfg, events).0, Finals(cfg, events), if e.SpeechStarted? then now else e.clock.recorded, end);
    }
  }

  lemma {:induction false} RemembersNothing(cfg: Config, now: int)
    ensures Remembers(cfg, INITIAL, [], now)
  {}

  /** Two finals emitted in a row that are the same transcript are at least five seconds apart, over
      any sequence of events. */
  lemma {:induction false} NoSentenceTwice(cfg: Config, events: seq<Event>, start: int, end: int)
    requires ClockFrom(events, start, end)
    ensures AllApart(cfg, Finals(cfg, events))
  {
    hide Finals, Run, AllApart, ClockFrom;
    RunRemembers(cfg, events, start, end);
  }

  /** The texts emitted as final. */
  function FinalTexts(out: seq<Output>): seq<string> {
    if out == [] then []
    else FinalTexts(out[..|out| - 1]) + if out[|out| - 1].isFinal then [out[|out| - 1].text] else []
  }

  function SaidTexts(said: seq<Said>): seq<string> {
    if said == [] then [] else SaidTexts(said[..|said| - 1]) + [said[|said| - 1].text]
  }

  lemma {:induction false} StepSays(cfg: Config, s: State, e: Event)
    ensures var out := Step(cfg, s, e).1.out;
            |out| <= 1 && FinalTexts(out) == SaidTexts(FinalSaid(e, out))
  {
    hide Merged, TrimSpace, Suppressed, Same;
    var out := Step(cfg, s, e).1.out;
    if out != [] {
      assert out == [out[0]] && out[..0] == [];
      assert [Said(out[0].text, if e.SpeechStarted? then 0 else e.clock.checked)][..0] == [];
    }
  }

  lemma {:induction false} FinalTextsNext(out: seq<Output>, more: seq<Output>)
    requires |more| <= 1
    ensures FinalTexts(out + more) == FinalTexts(out) + FinalTexts(more)
  {
    if more == [] {
      assert out + more == out;
    } else {
      assert (out + more)[..|out|] == out && more[..0] == [];
    }
  }

  lemma {:induction false} SaidTextsNext(said: seq<Said>, more: seq<Said>)
    requires |more| <= 1
    ensures SaidTexts(said + more) == SaidTexts(said) + SaidTexts(more)
  {
    if more == [] {
      assert said + more == said;
    } else {
      assert (said + more)[..|said|] == said && more[..0] == [];
    }
  }

  /** The finals spoken of are all the finals the run emits. */
  lemma {:induction false} FinalsAreEmitted(cfg: Config, events: seq<Event>)
    ensures SaidTexts(Finals(cfg, events)) == FinalTexts(Run(cfg, events).1.out)
  {
    hide Step, FinalTexts, SaidTexts;
    if events == [] {
      NothingSaid();
    } else {
      var most, e := events[..|events| - 1], events[|events| - 1];
      FinalsAreEmitted(cfg, most);
      StepSays(cfg, Run(cfg, most).0, e);
      var more := Step(cfg, Run(cfg, most).0, e).1.out;
      FinalTextsNext(Run(cfg, most).1.out, more);
      SaidTextsNext(Finals(cfg, most), FinalSaid(e, more));
    }
  }

  lemma {:induction false} NothingSaid()
    ensures FinalTexts([]) == [] && SaidTexts([]) == []
  {}

  // ---------------------------------------------------------------- what is said, and when

  /** The event ends the utterance that `s` has open, with what it adds to it. */
  predicate Closes(s: State, e: Event) {
    match e
    case Message(_, isFinal, speechFinal, _) => IsChunk(e) && speechFinal
    case UtteranceEnd(_) => s.chunks != []
    case SpeechStarted => false
  }

  /** The chunks of the utterance once the event has added its own. */
  function ChunksWith(s: State, e: Event): seq<string> {
    s.chunks + if IsChunk(e) then [TrimSpace(e.alternatives[0].transcript)] else []
  }

  /** The utterances a run has closed, each with the time it was recorded. */
  function Closings(cfg: Config, events: seq<Event>): seq<Said> {
    if events == [] then []
    else
      var most, e := events[..|events| - 1], events[|events| - 1];
      var s := Run(cfg, most).0;
      Closings(cfg, most) + if Closes(s, e) then [Said(Merged(cfg, ChunksWith(s, e)), e.clock.recorded)] else []
  }

  /** The state remembers the last of them. */
  ghost predicate KnowsLast(s: State, closings: seq<Said>) {
    AllTrimmed(s.chunks) &&
    if closings == [] then s.lastFinalAt.None?
    else s.lastFinal == closings[|closings| - 1].text && s.lastFinalAt == Some(closings[|closings| - 1].at)
  }

  lemma {:induction false} StepKnowsLast(cfg: Config, s: State, e: Event, closings: seq<Said>)
    requires KnowsLast(s, closings)
    ensures var more := if Closes(s, e) then [Said(Merged(cfg, ChunksWith(s, e)), e.clock.recorded)] else [];
            KnowsLast(Step(cfg, s, e).0, closings + more)
  {
    hide Merged, Same, Suppressed, TrimSpace, Trimmed;
    assert closings + [] == closings;
    if IsChunk(e) {
      TrimSpaceTrims(e.alternatives[0].transcript);
      ChunkAdded(s.chunks, TrimSpace(e.alternatives[0].transcript));
    }
    assert s.chunks + [] == s.chunks;
    MergedIsTrimmed(cfg, ChunksWith(s, e));
    if ChunksWith(s, e) != [] { TrimmedIsSomething(Merged(cfg, ChunksWith(s, e))); } else { NothingToTrim(); }
  }

  lemma {:induction false} RunKnowsLast(cfg: Config, events: seq<Event>)
    ensures KnowsLast(Run(cfg, events).0, Closings(cfg, events))
  {
    hide KnowsLast, Step, Closes, ChunksWith, Merged;
    if events == [] {
      NothingClosed();
    } else {
      var most := events[..|events| - 1];
      RunKnowsLast(cfg, most);
      StepKnowsLast(cfg, Run(cfg, most).0, events[|events| - 1], Closings(cfg, most));
    }
  }

  lemma {:induction false} NothingClosed()
    ensures KnowsLast(INITIAL, [])
  {}

  /** The same transcript was the last to be closed, less than five seconds before. */
  predicate JustClosed(cfg: Config, closings: seq<Said>, text: string, now: int) {
    closings != [] && Same(cfg, text, closings[|closings| - 1].text) && now - closings[|closings| - 1].at < 5_000_000_000
  }

  /** In every run: what closes an utterance emits its text as final, exactly if it is not what was
      closed last, less than five seconds before. */
  lemma {:induction false} FinalIsSaidIff(cfg: Config, events: seq<Event>, e: Event)
    requires Closes(Run(cfg, events).0, e)
    ensures var s := Run(cfg, events).0;
            var (after, done) := Step(cfg, s, e);
            var text := Merged(cfg, ChunksWith(s, e));
            && done.closed == [ChunksWith(s, e)] && after.chunks == []
            && done.out == (if JustClosed(cfg, Closings(cfg, events), text, e.clock.checked) then []
                            else [Output(text, true, if e.Message? then e.alternatives[0].confidence else s.confidence)])
  {
    hide Run, Closings, Merged, Same, TrimSpace;
    RunKnowsLast(cfg, events);
    var s := Run(cfg, events).0;
    assert s.chunks + [] == s.chunks;
  }

  /** What a message that closes nothing shows as progress: the chunks so far, and behind them the words
      that are not final yet. */
  function Progress(cfg: Config, s: State, e: Event): string
    requires e.Message? && e.alternatives != []
  {
    if e.isFinal then Merged(cfg, ChunksWith(s, e))
    else if s.chunks == [] then TrimSpace(e.alternatives[0].transcript)
    else Merged(cfg, s.chunks) + " " + TrimSpace(e.alternatives[0].transcript)
  }

  /** In every run: any other message that says something shows its progress, exactly if it is neither
      what was shown last in this utterance nor what was just closed. */
  lemma {:induction false} ProgressIsShownIff(cfg: Config, events: seq<Event>, e: Event)
    requires e.Message? && e.alternatives != [] && TrimSpace(e.alternatives[0].transcript) != ""
    requires !Closes(Run(cfg, events).0, e)
    ensures var s := Run(cfg, events).0;
            var (after, done) := Step(cfg, s, e);
            var text := Progress(cfg, s, e);
            && done.closed == [] && after.chunks == ChunksWith(s, e) && after.confidence == e.alternatives[0].confidence
            && if Same(cfg, text, s.lastPartial) || JustClosed(cfg, Closings(cfg, events), text, e.clock.checked)
               then done.out == [] && after.lastPartial == s.lastPartial
               else done.out == [Output(text, false, e.alternatives[0].confidence)] && after.lastPartial == text
  {
    hide Run, Closings, Merged, Same, TrimSpace, Trimmed, Progress, Step, ChunksWith, Closes, AllTrimmed;
    RunKnowsLast(cfg, events);
    var s := Run(cfg, events).0;
    StepShows(cfg, s, e);
    ProgressIsTrimmed(cfg, s, e);
    TrimmedIsSomething(Progress(cfg, s, e));
  }

  lemma {:induction false} StepShows(cfg: Config, s: State, e: Event)
    requires e.Message? && e.alternatives != [] && TrimSpace(e.alternatives[0].transcript) != ""
    requires !Closes(s, e) && AllTrimmed(s.chunks)
    ensures var confidence := e.alternatives[0].confidence;
            var heard := s.(confidence := confidence, chunks := ChunksWith(s, e));
            var (after, out) := Partial(cfg, heard, Progress(cfg, s, e), confidence, e.clock.checked);
            Step(cfg, s, e) == (after, Effect(out, []))
  {
    hide Merged, Same, TrimSpace, Trimmed, Partial, AllTrimmed;
    ProgressIsTrimmed(cfg, s, e);
    assert s.chunks + [] == s.chunks;
  }

  lemma {:induction false} ProgressIsTrimmed(cfg: Config, s: State, e: Event)
    requires e.Message? && e.alternatives != [] && TrimSpace(e.alternatives[0].transcript) != "" && AllTrimmed(s.chunks)
    ensures Trimmed(Progress(cfg, s, e)) && TrimSpace(Progress(cfg, s, e)) == Progress(cfg, s, e)
  {
    var text := TrimSpace(e.alternatives[0].transcript);
    TrimSpaceTrims(e.alternatives[0].transcript);
    ChunkAdded(s.chunks, text);
    MergedIsTrimmed(cfg, s.chunks);
    MergedIsTrimmed(cfg, s.chunks + [text]);
    hide Merged, TrimSpace, IsSpace;
    TrimmedStays(Progress(cfg, s, e));
  }

  /** Closing an utterance starts the next: nothing shown, nobody speaking. Speaking is set by the event
      that says so. */
  lemma {:induction false} ClosingStartsOver(cfg: Config, s: State, e: Event)
    requires Closes(s, e) && AllTrimmed(s.chunks)
    ensures var after := Step(cfg, s, e).0; after.lastPartial == "" && !after.speechActive && after.confidence == 0.0
    ensures Step(cfg, s, SpeechStarted) == (s.(speechActive := true), Effect([], []))
  {
    hide Merged, Same, TrimSpace;
  }

  // ---------------------------------------------------------------- the callback object

  class Callback {
    const cfg: Config
    var finalized: string
    var lastEmittedPartial: string
    var lastFinal: string
    var lastFinalAt: Option<int>
    var speechActive: bool
    var lastChunkConfidence: real

    // The chunks merged into `finalized`.
    ghost var chunks: seq<string>

    ghost predicate Valid()
      reads `finalized, `chunks
    {
      AllTrimmed(chunks) && finalized == Merged(cfg, chunks)
    }

    ghost function View(): State
      reads this
    {
      State(chunks, lastEmittedPartial, lastFinal, lastFinalAt, speechActive, lastChunkConfidence)
    }

    constructor (cfg: Config)
      ensures Valid() && View() == INITIAL && this.cfg == cfg
    {
      this.cfg := cfg;
      finalized, lastEmittedPartial, lastFinal := "", "", "";
      lastFinalAt, speechActive, lastChunkConfidence := None, false, 0.0;
      chunks := [];
    }

    method ShouldSuppress(text: string, now: int) returns (r: bool)
      ensures r == Suppressed(cfg, View(), text, now)
    {
      r := Same(cfg, text, lastFinal) && lastFinalAt.Some? && now - lastFinalAt.value < SUPPRESS_WINDOW;
    }

    method ResetUtterance(finalText: string, now: int)
      modifies this
      ensures Valid() && View() == Closed(cfg, old(View()), finalText, now)
    {
      hide TrimSpace;
      finalized, lastEmittedPartial, speechActive, lastChunkConfidence := "", "", false, 0.0;
      chunks := [];
      if TrimSpace(finalText) != "" {
        lastFinal, lastFinalAt := finalText, Some(now);
      }
    }

    method PartialResult(text: string, confidence: real, now: int) returns (out: seq<Output>)
      modifies `lastEmittedPartial
      ensures (View(), out) == Partial(cfg, old(View()), text, confidence, now)
    {
      hide Same, TrimSpace, Suppressed;
      var t := TrimSpace(text);
      var suppress := ShouldSuppress(t, now);
      if t == "" || Same(cfg, t, lastEmittedPartial) || suppress {
        return [];
      }
      lastEmittedPartial := t;
      return [Output(t, false, confidence)];
    }

    method Fold(text: string)
      requires Valid() && Trimmed(text)
      modifies `finalized, `chunks
      ensures Valid() && chunks == old(chunks) + [text]
      ensures TrimSpace(finalized) == finalized && finalized != ""
    {
      hide MergedText, Trimmed, TrimSpace, Merged;
      MergedNext(cfg, chunks, text);
      ChunkAdded(chunks, text);
      MergedIsTrimmed(cfg, chunks + [text]);
      TrimmedIsNotEmpty(Merged(cfg, chunks + [text]));
      finalized := MergeTranscriptChunks(cfg.lang, finalized, text);
      chunks := chunks + [text];
    }

    method Message(alternatives: seq<Alternative>, isFinal: bool, speechFinal: bool, clock: Readings) returns (out: seq<Output>)
      requires Valid()
      modifies this
      ensures Valid()
      ensures var (after, done) := Step(cfg, old(View()), Event.Message(alternatives, isFinal, speechFinal, clock));
              View() == after && out == done.out
    {
      hide TrimSpace, Hear, Merged;
      out := [];
      if alternatives == [] {
        return;
      }
      var text := TrimSpace(alternatives[0].transcript);
      if text == "" {
        return;
      }
      TrimSpaceTrims(alternatives[0].transcript);
      out := Heard(text, Event.Message(alternatives, isFinal, speechFinal, clock));
    }

    method Heard(text: string, m: Event) returns (out: seq<Output>)
      requires Valid() && Trimmed(text) && m.Message? && m.alternatives != []
      modifies this
      ensures Valid()
      ensures var (after, done) := Hear(cfg, old(View()), text, m); View() == after && out == done.out
    {
      hide TrimSpace, Trimmed, Suppressed, Partial, Closed, Merged;
      out := [];
      var confidence := m.alternatives[0].confidence;
      MergedIsTrimmed(cfg, chunks);
      MergedSaysSomething(cfg, chunks);
      lastChunkConfidence := confidence;
      if m.isFinal {
        Fold(text);
        if m.speechFinal {
          var combined := TrimSpace(finalized);
          if combined == "" {
            combined := text;
          }
          out := CloseWith(combined, confidence, m.clock);
        } else {
          out := PartialResult(finalized, confidence, m.clock.checked);
        }
      } else {
        var combined := text;
        if finalized != "" {
          combined := TrimSpace(finalized + " " + text);
        }
        out := PartialResult(combined, confidence, m.clock.checked);
      }
    }

    /** Emits the utterance unless it was just said, and starts the next one. */
    method CloseWith(combined: string, confidence: real, clock: Readings) returns (out: seq<Output>)
      modifies this
      ensures Valid() && View() == Closed(cfg, old(View()), combined, clock.recorded)
      ensures out == if Suppressed(cfg, old(View()), combined, clock.checked) then [] else [Output(combined, true, confidence)]
    {
      hide Suppressed, Closed;
      out := [];
      var suppress := ShouldSuppress(combined, clock.checked);
      if !suppress {
        out := [Output(combined, true, confidence)];
      }
      ResetUtterance(combined, clock.recorded);
    }

    method UtteranceEnd(clock: Readings) returns (out: seq<Output>)
      requires Valid()
      modifies this
      ensures Valid()
      ensures var (after, done) := Step(cfg, old(View()), Event.UtteranceEnd(clock)); View() == after && out == done.out
    {
      hide TrimSpace, Suppressed, Closed, Merged, Trimmed;
      MergedIsTrimmed(cfg, chunks);
      MergedSaysSomething(cfg, chunks);
      NothingToTrim();
      var combined := TrimSpace(finalized);
      var confidence := lastChunkConfidence;
      var suppress := ShouldSuppress(combined, clock.checked);
      ResetUtterance(combined, clock.recorded);
      out := if combined != "" && !suppress then [Output(combined, true, confidence)] else [];
    }

    method SpeechStarted()
      requires Valid()
      modifies `speechActive
      ensures Valid() && View() == Step(cfg, old(View()), Event.SpeechStarted).0
    {
      hide Merged;
      if !speechActive {
        speechActive := true;
      }
    }
  }

  lemma {:induction false} TrimmedIsNotEmpty(s: string)
    requires Trimmed(s)
    ensures s != ""
  {}

  lemma {:induction false} MergedSaysSomething(cfg: Config, chunks: seq<string>)
    requires AllTrimmed(chunks)
    ensures Merged(cfg, chunks) != "" <==> chunks != []
  {
    MergedIsTrimmed(cfg, chunks);
  }
}
