/** Firing tools from a half-spoken sentence (internal/pipeline/partial.go).

    Three kinds of events mix in any order: a partial transcript, a waiting capture that settles,
    and the end of the utterance. Stopping a waiting capture does not take back a settling that is
    already on its way, so every capture ever staged may settle at any time. */
module PartialReflex {
  import opened Phrases
  import opened Whitespace
  import opened PhraseSearch
  import opened Normalize
  import opened Wrappers

  /** A tool that opted in. It captures an argument exactly when `arg` names one. */
  datatype Entry = Entry(tool: string, phrases: seq<string>, startsWith: seq<string>, after: seq<string>,
                         arg: string, once: bool) {
    predicate Capturing() {
      arg != ""
    }
  }

  /** A capture waiting to settle. `id` stands for the identity of the record: every staging
      creates a new one. */
  datatype Staged = Staged(id: nat, text: string, anchors: nat)

  /** A tool that went off, with its capture if it has one. */
  datatype Firing = Firing(tool: string, capture: Option<Staged>)

  /** What a partial says to one entry. */
  datatype Hearing = Hearing(said: bool, captured: Capture)

  datatype Memory = Memory(fired: set<string>, firedAnchors: map<string, nat>, pending: map<string, Staged>, nextId: nat) {
    function AnchorsFired(tool: string): nat {
      if tool in firedAnchors then firedAnchors[tool] else 0
    }
  }

  const BLANK: Memory := Memory({}, map[], map[], 0)

  // ---------------------------------------------------------------- one event

  function Stage(m: Memory, e: Entry, c: Capture): Memory {
    if c.NoAnchor? || c.rest == "" then m
    else if e.tool in m.pending && m.pending[e.tool].text == c.rest && m.pending[e.tool].anchors == c.count then m
    else m.(pending := m.pending[e.tool := Staged(m.nextId, c.rest, c.count)], nextId := m.nextId + 1)
  }

  function HearOne(m: Memory, e: Entry, h: Hearing): (Memory, seq<Firing>) {
    if e.once && e.tool in m.fired then (m, [])
    else if e.Capturing() then (Stage(m, e, h.captured), [])
    else if !h.said then (m, [])
    else (if e.once then m.(fired := m.fired + {e.tool}) else m, [Firing(e.tool, None)])
  }

  /** The first `n` entries hear the partial. */
  function Hear(m: Memory, entries: seq<Entry>, heard: seq<Hearing>, n: nat): (Memory, seq<Firing>)
    requires n <= |entries| == |heard|
  {
    if n == 0 then (m, [])
    else
      var (m1, fs) := Hear(m, entries, heard, n - 1);
      var (m2, f) := HearOne(m1, entries[n - 1], heard[n - 1]);
      (m2, fs + f)
  }

  function Settle(m: Memory, e: Entry, p: Staged): (Memory, seq<Firing>) {
    if e.tool !in m.pending || m.pending[e.tool] != p then (m, [])
    else
      var dropped := m.(pending := m.pending - {e.tool});
      if p.anchors <= m.AnchorsFired(e.tool) then (dropped, [])
      else (dropped.(firedAnchors := m.firedAnchors[e.tool := p.anchors],
                     fired := if e.once then m.fired + {e.tool} else m.fired),
            [Firing(e.tool, Some(p))])
  }

  function EndOfUtterance(m: Memory): Memory {
    Memory({}, map[], map[], m.nextId)
  }

  datatype Event =
    | Partial(heard: seq<Hearing>)
    | TimerFired(entry: nat, p: Staged)
    | UtteranceEnded

  predicate Possible(entries: seq<Entry>, ev: Event) {
    match ev
    case Partial(heard) => |heard| == |entries|
    case TimerFired(i, _) => i < |entries|
    case UtteranceEnded => true
  }

  function Next(entries: seq<Entry>, m: Memory, ev: Event): (Memory, seq<Firing>)
    requires Possible(entries, ev)
  {
    match ev
    case Partial(heard) => Hear(m, entries, heard, |entries|)
    case TimerFired(i, p) => Settle(m, entries[i], p)
    case UtteranceEnded => (EndOfUtterance(m), [])
  }

  /** The memory after a run, and what fired since the utterance began. */
  function Run(entries: seq<Entry>, m: Memory, log: seq<Firing>, events: seq<Event>): (Memory, seq<Firing>)
    requires forall k :: 0 <= k < |events| ==> Possible(entries, events[k])
    decreases |events|
  {
    if events == [] then (m, log)
    else
      var (m1, fs) := Next(entries, m, events[0]);
      Run(entries, m1, if events[0].UtteranceEnded? then [] else log + fs, events[1..])
  }

  /** Everything a run fires, across utterances. */
  function AllFirings(entries: seq<Entry>, m: Memory, events: seq<Event>): seq<Firing>
    requires forall k :: 0 <= k < |events| ==> Possible(entries, events[k])
    decreases |events|
  {
    if events == [] then []
    else
      var (m1, fs) := Next(entries, m, events[0]);
      fs + AllFirings(entries, m1, events[1..])
  }

  // ---------------------------------------------------------------- what a run keeps

  /** Tools come from a registry keyed by name. */
  predicate DistinctTools(entries: seq<Entry>) {
    forall i, j :: 0 <= i < j < |entries| ==> entries[i].tool != entries[j].tool
  }

  /** A once-per-turn tool went off at most once. */
  predicate AtMostOnce(e: Entry, log: seq<Firing>) {
    e.once ==> forall i, j :: 0 <= i < j < |log| ==> log[i].tool != e.tool || log[j].tool != e.tool
  }

  /** Each firing of a capturing tool acts on more anchors than the one before. */
  predicate AnchorsIncrease(e: Entry, log: seq<Firing>) {
    e.Capturing() ==>
      && (forall i :: 0 <= i < |log| && log[i].tool == e.tool ==> log[i].capture.Some?)
      && (forall i, j :: 0 <= i < j < |log| && log[i].tool == log[j].tool == e.tool
            && log[i].capture.Some? && log[j].capture.Some?
            ==> log[i].capture.value.anchors < log[j].capture.value.anchors)
  }

  /** How the memory reflects what went off: per entry. */
  predicate Remembers(m: Memory, e: Entry, log: seq<Firing>) {
    && (e.tool in m.pending ==> e.Capturing() && !(e.once && e.tool in m.fired))
    && (e.once ==> forall i :: 0 <= i < |log| && log[i].tool == e.tool ==> e.tool in m.fired)
    && (forall i :: 0 <= i < |log| && log[i].tool == e.tool && log[i].capture.Some?
          ==> log[i].capture.value.anchors <= m.AnchorsFired(e.tool))
  }

  predicate Keeps(m: Memory, e: Entry, log: seq<Firing>) {
    AtMostOnce(e, log) && AnchorsIncrease(e, log) && Remembers(m, e, log)
  }

  predicate Inv(entries: seq<Entry>, m: Memory, log: seq<Firing>) {
    forall i :: 0 <= i < |entries| ==> Keeps(m, entries[i], log)
  }

  /** A tool's memory and record do not depend on what other tools do. */
  lemma {:induction false} OthersUntouched(m: Memory, m': Memory, e: Entry, log: seq<Firing>, fs: seq<Firing>)
    requires Keeps(m, e, log)
    requires (e.tool in m'.pending ==> e.tool in m.pending) && (e.tool in m'.fired <==> e.tool in m.fired)
    requires m'.AnchorsFired(e.tool) == m.AnchorsFired(e.tool)
    requires forall k :: 0 <= k < |fs| ==> fs[k].tool != e.tool
    ensures Keeps(m', e, log + fs)
  {}

  lemma {:induction false} HearOneKeeps(m: Memory, e: Entry, log: seq<Firing>, h: Hearing)
    requires Keeps(m, e, log)
    ensures var (m', fs) := HearOne(m, e, h); Keeps(m', e, log + fs)
  {
    var (m', fs) := HearOne(m, e, h);
    if fs == [] { assert log + fs == log; }
  }

  lemma {:induction false} SettleKeeps(m: Memory, e: Entry, log: seq<Firing>, p: Staged)
    requires Keeps(m, e, log)
    ensures var (m', fs) := Settle(m, e, p); Keeps(m', e, log + fs)
  {
    var (m', fs) := Settle(m, e, p);
    if fs == [] { assert log + fs == log; }
  }

  lemma {:induction false} HearOneInv(entries: seq<Entry>, m: Memory, log: seq<Firing>, k: nat, h: Hearing)
    requires DistinctTools(entries) && k < |entries| && Inv(entries, m, log)
    ensures var (m', fs) := HearOne(m, entries[k], h); Inv(entries, m', log + fs)
  {
    var (m', fs) := HearOne(m, entries[k], h);
    forall i | 0 <= i < |entries| ensures Keeps(m', entries[i], log + fs) {
      if i == k {
        HearOneKeeps(m, entries[k], log, h);
      } else {
        OthersUntouched(m, m', entries[i], log, fs);
      }
    }
  }

  lemma {:induction false} HearInv(entries: seq<Entry>, m: Memory, log: seq<Firing>, heard: seq<Hearing>, n: nat)
    requires DistinctTools(entries) && n <= |entries| == |heard| && Inv(entries, m, log)
    ensures var (m', fs) := Hear(m, entries, heard, n); Inv(entries, m', log + fs)
  {
    if n == 0 {
      assert log + [] == log;
    } else {
      HearInv(entries, m, log, heard, n - 1);
      var (m1, fs) := Hear(m, entries, heard, n - 1);
      HearOneInv(entries, m1, log + fs, n - 1, heard[n - 1]);
      var (m2, f) := HearOne(m1, entries[n - 1], heard[n - 1]);
      assert log + (fs + f) == (log + fs) + f;
    }
  }

  lemma {:induction false} SettleInv(entries: seq<Entry>, m: Memory, log: seq<Firing>, k: nat, p: Staged)
    requires DistinctTools(entries) && k < |entries| && Inv(entries, m, log)
    ensures var (m', fs) := Settle(m, entries[k], p); Inv(entries, m', log + fs)
  {
    var (m', fs) := Settle(m, entries[k], p);
    forall i | 0 <= i < |entries| ensures Keeps(m', entries[i], log + fs) {
      if i == k {
        SettleKeeps(m, entries[k], log, p);
      } else {
        OthersUntouched(m, m', entries[i], log, fs);
      }
    }
  }

  lemma {:induction false} RunKeepsInv(entries: seq<Entry>, m: Memory, log: seq<Firing>, events: seq<Event>)
    requires DistinctTools(entries) && Inv(entries, m, log)
    requires forall k :: 0 <= k < |events| ==> Possible(entries, events[k])
    ensures var (m', log') := Run(entries, m, log, events); Inv(entries, m', log')
    decreases |events|
  {
    if events != [] {
      var (m1, fs) := Next(entries, m, events[0]);
      var log1 := if events[0].UtteranceEnded? then [] else log + fs;
      match events[0]
      case Partial(heard) =>
        HearInv(entries, m, log, heard, |entries|);
        RunKeepsInv(entries, m1, log1, events[1..]);
      case TimerFired(i, p) =>
        SettleInv(entries, m, log, i, p);
        RunKeepsInv(entries, m1, log1, events[1..]);
      case UtteranceEnded =>
        RunKeepsInv(entries, m1, log1, events[1..]);
    }
  }

  /** In every run, within an utterance: anchor counts strictly increase and a once-per-turn tool
      goes off at most once. */
  lemma {:induction false} EveryRunRespectsTheUtterance(entries: seq<Entry>, events: seq<Event>, i: nat)
    requires DistinctTools(entries) && i < |entries|
    requires forall k :: 0 <= k < |events| ==> Possible(entries, events[k])
    ensures var (_, log) := Run(entries, BLANK, [], events);
            AtMostOnce(entries[i], log) && AnchorsIncrease(entries[i], log)
  {
    RunKeepsInv(entries, BLANK, [], events);
    var (m, log) := Run(entries, BLANK, [], events);
    assert Keeps(m, entries[i], log);
  }

  // ---------------------------------------------------------------- what does fire

  /** The entry's tool is in the record of the utterance. */
  predicate WentOff(log: seq<Firing>, tool: string) {
    exists i :: 0 <= i < |log| && log[i].tool == tool
  }

  /** Everything the memory holds about the entry's tool is in the record. */
  predicate Backed(m: Memory, e: Entry, log: seq<Firing>) {
    && (e.tool in m.fired ==> WentOff(log, e.tool))
    && (m.AnchorsFired(e.tool) > 0 ==>
          exists i :: 0 <= i < |log| && log[i].tool == e.tool && log[i].capture.Some?
                      && log[i].capture.value.anchors == m.AnchorsFired(e.tool))
  }

  /** Longer records back at least as much. */
  lemma {:induction false} StillBacked(m: Memory, m': Memory, e: Entry, log: seq<Firing>, fs: seq<Firing>)
    requires Backed(m, e, log)
    requires (e.tool in m'.fired ==> e.tool in m.fired) && m'.AnchorsFired(e.tool) == m.AnchorsFired(e.tool)
    ensures Backed(m', e, log + fs)
  {
    if e.tool in m'.fired {
      var i :| 0 <= i < |log| && log[i].tool == e.tool;
      assert (log + fs)[i] == log[i];
    }
    if m.AnchorsFired(e.tool) > 0 {
      var i :| 0 <= i < |log| && log[i].tool == e.tool && log[i].capture.Some?
               && log[i].capture.value.anchors == m.AnchorsFired(e.tool);
      assert (log + fs)[i] == log[i];
    }
  }

  lemma {:induction false} NewlyBacked(m: Memory, m': Memory, e: Entry, log: seq<Firing>, f: Firing)
    requires Backed(m, e, log) && f.tool == e.tool
    requires if f.capture.Some? then m'.AnchorsFired(e.tool) == f.capture.value.anchors
             else m'.AnchorsFired(e.tool) == m.AnchorsFired(e.tool)
    ensures Backed(m', e, log + [f])
  {
    assert (log + [f])[|log|] == f;
    if f.capture.None? && m.AnchorsFired(e.tool) > 0 {
      var i :| 0 <= i < |log| && log[i].tool == e.tool && log[i].capture.Some?
               && log[i].capture.value.anchors == m.AnchorsFired(e.tool);
      assert (log + [f])[i] == log[i];
    }
  }

  lemma {:induction false} HearOneBacks(entries: seq<Entry>, m: Memory, log: seq<Firing>, k: nat, h: Hearing, e: Entry)
    requires k < |entries| && Backed(m, e, log)
    ensures var (m', fs) := HearOne(m, entries[k], h); Backed(m', e, log + fs)
  {
    hide Backed;
    var (m', fs) := HearOne(m, entries[k], h);
    if fs != [] && entries[k].tool == e.tool {
      NewlyBacked(m, m', e, log, fs[0]);
    } else {
      StillBacked(m, m', e, log, fs);
    }
  }

  lemma {:induction false} HearBacks(entries: seq<Entry>, m: Memory, log: seq<Firing>, heard: seq<Hearing>, n: nat, e: Entry)
    requires n <= |entries| == |heard| && Backed(m, e, log)
    ensures var (m', fs) := Hear(m, entries, heard, n); Backed(m', e, log + fs)
  {
    hide Backed, HearOne;
    if n == 0 {
      assert log + [] == log;
    } else {
      HearBacks(entries, m, log, heard, n - 1, e);
      var (m1, fs) := Hear(m, entries, heard, n - 1);
      HearOneBacks(entries, m1, log + fs, n - 1, heard[n - 1], e);
      assert log + (fs + HearOne(m1, entries[n - 1], heard[n - 1]).1) == (log + fs) + HearOne(m1, entries[n - 1], heard[n - 1]).1;
    }
  }

  lemma {:induction false} SettleBacks(m: Memory, log: seq<Firing>, x: Entry, p: Staged, e: Entry)
    requires Backed(m, e, log)
    ensures var (m', fs) := Settle(m, x, p); Backed(m', e, log + fs)
  {
    hide Backed;
    var (m', fs) := Settle(m, x, p);
    if fs != [] && x.tool == e.tool {
      NewlyBacked(m, m', e, log, fs[0]);
    } else {
      StillBacked(m, m', e, log, fs);
    }
  }

  lemma {:induction false} RunBacks(entries: seq<Entry>, m: Memory, log: seq<Firing>, events: seq<Event>, e: Entry)
    requires Backed(m, e, log)
    requires forall k :: 0 <= k < |events| ==> Possible(entries, events[k])
    ensures var (m', log') := Run(entries, m, log, events); Backed(m', e, log')
    decreases |events|
  {
    hide Backed, Hear, Settle;
    if events != [] {
      var (m1, fs) := Next(entries, m, events[0]);
      match events[0] {
        case Partial(heard) => HearBacks(entries, m, log, heard, |entries|, e);
        case TimerFired(i, p) => SettleBacks(m, log, entries[i], p, e);
        case UtteranceEnded => BlankIsBacked(m1, e);
      }
      RunBacks(entries, m1, if events[0].UtteranceEnded? then [] else log + fs, events[1..], e);
    }
  }

  lemma {:induction false} BlankIsBacked(m: Memory, e: Entry)
    requires m.fired == {} && m.firedAnchors == map[]
    ensures Backed(m, e, [])
  {}

  /** After any run the memory and the record of the utterance agree on a tool. */
  lemma {:induction false} InRecord(entries: seq<Entry>, events: seq<Event>, i: nat)
    requires DistinctTools(entries) && i < |entries|
    requires forall k :: 0 <= k < |events| ==> Possible(entries, events[k])
    ensures var (m, log) := Run(entries, BLANK, [], events); Remembers(m, entries[i], log) && Backed(m, entries[i], log)
  {
    RunKeepsInv(entries, BLANK, [], events);
    BlankIsBacked(BLANK, entries[i]);
    RunBacks(entries, BLANK, [], events, entries[i]);
    var (m, log) := Run(entries, BLANK, [], events);
    assert Keeps(m, entries[i], log);
  }

  /** In every run: when the timer of the capture that waits goes off, it fires, alone and as it was
      staged, exactly if it has more anchors than any capture its tool fired in this utterance. */
  lemma {:induction false} WaitingFiresIff(entries: seq<Entry>, events: seq<Event>, i: nat, p: Staged)
    requires DistinctTools(entries) && i < |entries|
    requires forall k :: 0 <= k < |events| ==> Possible(entries, events[k])
    requires var m := Run(entries, BLANK, [], events).0; entries[i].tool in m.pending && m.pending[entries[i].tool] == p
    ensures var (m, log) := Run(entries, BLANK, [], events);
            var tool := entries[i].tool;
            Next(entries, m, TimerFired(i, p)).1
            == if p.anchors > 0 && forall k :: 0 <= k < |log| && log[k].tool == tool && log[k].capture.Some?
                                     ==> log[k].capture.value.anchors < p.anchors
               then [Firing(tool, Some(p))] else []
  {
    hide AtMostOnce, AnchorsIncrease, Run;
    var (m, log) := Run(entries, BLANK, [], events);
    InRecord(entries, events, i);
  }

  /** And nothing fires for a capture that does not wait. */
  lemma {:induction false} OthersDoNotFire(entries: seq<Entry>, m: Memory, i: nat, p: Staged)
    requires i < |entries| && !(entries[i].tool in m.pending && m.pending[entries[i].tool] == p)
    ensures Next(entries, m, TimerFired(i, p)) == (m, [])
  {}

  /** The firings of one tool. */
  function Of(fs: seq<Firing>, tool: string): seq<Firing> {
    if fs == [] then [] else Of(fs[..|fs| - 1], tool) + if fs[|fs| - 1].tool == tool then [fs[|fs| - 1]] else []
  }

  lemma {:induction false} HearOf(entries: seq<Entry>, m: Memory, heard: seq<Hearing>, n: nat, i: nat)
    requires DistinctTools(entries) && n <= |entries| == |heard| && i < |entries|
    ensures var (m', fs) := Hear(m, entries, heard, n);
            var e := entries[i];
            && (n <= i ==> Of(fs, e.tool) == [] && SameFor(m, m', e.tool))
            && (n > i ==> Of(fs, e.tool) == HearOne(m, e, heard[i]).1 && SameFor(HearOne(m, e, heard[i]).0, m', e.tool))
  {
    hide SameFor;
    if n == 0 {
      SameAsItself(m, entries[i].tool);
    } else {
      HearOf(entries, m, heard, n - 1, i);
      var (m1, fs) := Hear(m, entries, heard, n - 1);
      var (m2, f) := HearOne(m1, entries[n - 1], heard[n - 1]);
      OfOne(fs, f, entries[i].tool);
      if n - 1 == i {
        HearOneSame(m, m1, entries[i], heard[i]);
      } else {
        HearOneOther(m1, entries[n - 1], heard[n - 1], entries[i].tool);
        if n <= i { SameTwice(m, m1, m2, entries[i].tool); }
        else { SameTwice(HearOne(m, entries[i], heard[i]).0, m1, m2, entries[i].tool); }
      }
    }
  }

  lemma {:induction false} OfOne(fs: seq<Firing>, f: seq<Firing>, tool: string)
    requires |f| <= 1
    ensures Of(fs + f, tool) == Of(fs, tool) + if f != [] && f[0].tool == tool then f else []
  {
    if f == [] { assert fs + f == fs; } else { assert (fs + f)[..|fs|] == fs && f == [f[0]]; }
  }

  /** Two memories that hold the same about a tool; the identities of captures aside. */
  predicate SameFor(m: Memory, m': Memory, tool: string) {
    && (tool in m.fired <==> tool in m'.fired) && m.AnchorsFired(tool) == m'.AnchorsFired(tool)
    && (tool in m.pending <==> tool in m'.pending)
    && (tool in m.pending ==> m.pending[tool].text == m'.pending[tool].text && m.pending[tool].anchors == m'.pending[tool].anchors)
  }

  lemma {:induction false} SameAsItself(m: Memory, tool: string)
    ensures SameFor(m, m, tool)
  {}

  lemma {:induction false} SameTwice(a: Memory, b: Memory, c: Memory, tool: string)
    requires SameFor(a, b, tool) && SameFor(b, c, tool)
    ensures SameFor(a, c, tool)
  {}

  lemma {:induction false} HearOneSame(m: Memory, m1: Memory, e: Entry, h: Hearing)
    requires SameFor(m, m1, e.tool)
    ensures HearOne(m, e, h).1 == HearOne(m1, e, h).1 && SameFor(HearOne(m, e, h).0, HearOne(m1, e, h).0, e.tool)
    ensures |HearOne(m, e, h).1| <= 1 && (HearOne(m, e, h).1 != [] ==> HearOne(m, e, h).1[0].tool == e.tool)
  {}

  lemma {:induction false} HearOneOther(m: Memory, e: Entry, h: Hearing, tool: string)
    requires e.tool != tool
    ensures SameFor(m, HearOne(m, e, h).0, tool)
    ensures var f := HearOne(m, e, h).1; |f| <= 1 && (f != [] ==> f[0].tool != tool)
  {}

  /** In every run: a partial sets off an entry that does not capture exactly if it says one of its
      phrases, unless it is a once-per-turn tool that went off in this utterance. */
  lemma {:induction false} SaidFiresIff(entries: seq<Entry>, events: seq<Event>, heard: seq<Hearing>, i: nat)
    requires DistinctTools(entries) && i < |entries| == |heard| && entries[i].arg == ""
    requires forall k :: 0 <= k < |events| ==> Possible(entries, events[k])
    ensures var (m, log) := Run(entries, BLANK, [], events);
            var e := entries[i];
            Of(Next(entries, m, Partial(heard)).1, e.tool)
            == if heard[i].said && !(e.once && WentOff(log, e.tool)) then [Firing(e.tool, None)] else []
  {
    hide AtMostOnce, AnchorsIncrease, Run;
    var (m, log) := Run(entries, BLANK, [], events);
    InRecord(entries, events, i);
    HearOf(entries, m, heard, |entries|, i);
  }

  /** In every run: a partial that captures something leaves just that waiting under its tool, unless it
      is a once-per-turn tool that went off in this utterance. */
  lemma {:induction false} CapturedWaits(entries: seq<Entry>, events: seq<Event>, heard: seq<Hearing>, i: nat)
    requires DistinctTools(entries) && i < |entries| == |heard| && entries[i].arg != ""
    requires forall k :: 0 <= k < |events| ==> Possible(entries, events[k])
    ensures var (m, log) := Run(entries, BLANK, [], events);
            var e, c, m' := entries[i], heard[i].captured, Next(entries, m, Partial(heard)).0;
            if c.NoAnchor? || c.rest == "" || (e.once && WentOff(log, e.tool)) then SameFor(m, m', e.tool)
            else e.tool in m'.pending && m'.pending[e.tool].text == c.rest && m'.pending[e.tool].anchors == c.count
  {
    hide AtMostOnce, AnchorsIncrease, Run;
    var (m, log) := Run(entries, BLANK, [], events);
    InRecord(entries, events, i);
    HearOf(entries, m, heard, |entries|, i);
  }

  // ---------------------------------------------------------------- superseded captures

  /** The capture was staged once and is no longer waiting: it was replaced, dropped with the
      utterance, or has already settled. */
  predicate Retired(m: Memory, id: nat) {
    id < m.nextId && forall t :: t in m.pending ==> m.pending[t].id != id
  }

  predicate NoneFired(fs: seq<Firing>, id: nat) {
    forall k :: 0 <= k < |fs| ==> fs[k].capture.None? || fs[k].capture.value.id != id
  }

  lemma {:induction false} HearKeepsRetired(m: Memory, entries: seq<Entry>, heard: seq<Hearing>, n: nat, id: nat)
    requires n <= |entries| == |heard| && Retired(m, id)
    ensures var (m', fs) := Hear(m, entries, heard, n); Retired(m', id) && NoneFired(fs, id)
  {
    if n > 0 { HearKeepsRetired(m, entries, heard, n - 1, id); }
  }

  lemma {:induction false} SettleKeepsRetired(m: Memory, e: Entry, p: Staged, id: nat)
    requires Retired(m, id)
    ensures var (m', fs) := Settle(m, e, p); Retired(m', id) && NoneFired(fs, id)
  {}

  lemma {:induction false} NextKeepsRetired(entries: seq<Entry>, m: Memory, ev: Event, id: nat)
    requires Possible(entries, ev) && Retired(m, id)
    ensures var (m', fs) := Next(entries, m, ev); Retired(m', id) && NoneFired(fs, id)
  {
    match ev
    case Partial(heard) => HearKeepsRetired(m, entries, heard, |entries|, id);
    case TimerFired(i, p) => SettleKeepsRetired(m, entries[i], p, id);
    case UtteranceEnded =>
  }

  /** A superseded or abandoned capture never fires, whatever happens afterwards. */
  lemma {:induction false} RetiredNeverFires(entries: seq<Entry>, m: Memory, events: seq<Event>, id: nat)
    requires Retired(m, id)
    requires forall k :: 0 <= k < |events| ==> Possible(entries, events[k])
    ensures NoneFired(AllFirings(entries, m, events), id)
    decreases |events|
  {
    if events != [] {
      NextKeepsRetired(entries, m, events[0], id);
      RetiredNeverFires(entries, Next(entries, m, events[0]).0, events[1..], id);
    }
  }

  /** Identities are handed out once: no two waiting captures share one. */
  predicate IdsUnique(m: Memory) {
    && (forall t :: t in m.pending ==> m.pending[t].id < m.nextId)
    && (forall t, u :: t in m.pending && u in m.pending && m.pending[t].id == m.pending[u].id ==> t == u)
  }

  lemma {:induction false} HearKeepsIds(m: Memory, entries: seq<Entry>, heard: seq<Hearing>, n: nat)
    requires n <= |entries| == |heard| && IdsUnique(m)
    ensures IdsUnique(Hear(m, entries, heard, n).0)
  {
    if n > 0 { HearKeepsIds(m, entries, heard, n - 1); }
  }

  lemma {:induction false} NextKeepsIds(entries: seq<Entry>, m: Memory, ev: Event)
    requires Possible(entries, ev) && IdsUnique(m)
    ensures IdsUnique(Next(entries, m, ev).0)
  {
    if ev.Partial? { HearKeepsIds(m, entries, ev.heard, |entries|); }
  }

  /** The three ways a waiting capture retires: a revision replaces it, it settles, the utterance
      ends. */
  lemma {:induction false} ReplacedIsRetired(m: Memory, e: Entry, c: Capture)
    requires IdsUnique(m) && e.tool in m.pending
    requires Stage(m, e, c) != m
    ensures Retired(Stage(m, e, c), m.pending[e.tool].id)
  {}

  lemma {:induction false} SettledIsRetired(m: Memory, e: Entry, p: Staged)
    requires IdsUnique(m) && e.tool in m.pending && m.pending[e.tool] == p
    ensures Retired(Settle(m, e, p).0, p.id)
  {}

  lemma {:induction false} AbandonedIsRetired(m: Memory, t: string)
    requires IdsUnique(m) && t in m.pending
    ensures Retired(EndOfUtterance(m), m.pending[t].id)
  {}

  /** A partial that captures what already waits leaves it waiting, the very same record. */
  lemma {:induction false} UnchangedKeepsWaiting(entries: seq<Entry>, m: Memory, heard: seq<Hearing>, n: nat, i: nat, p: Staged)
    requires DistinctTools(entries) && n <= |entries| == |heard| && i < |entries|
    requires entries[i].tool in m.pending && m.pending[entries[i].tool] == p
    requires heard[i].captured == Anchored(p.text, p.anchors) && entries[i].arg != ""
    ensures var m' := Hear(m, entries, heard, n).0; entries[i].tool in m'.pending && m'.pending[entries[i].tool] == p
  {
    if n > 0 { UnchangedKeepsWaiting(entries, m, heard, n - 1, i, p); }
  }

  // ---------------------------------------------------------------- superseded captures, over runs

  predicate Waits(m: Memory, t: string, p: Staged) {
    t in m.pending && m.pending[t] == p
  }

  lemma {:induction false} RunKeepsIds(entries: seq<Entry>, m: Memory, log: seq<Firing>, events: seq<Event>)
    requires IdsUnique(m)
    requires forall k :: 0 <= k < |events| ==> Possible(entries, events[k])
    ensures IdsUnique(Run(entries, m, log, events).0)
    decreases |events|
  {
    hide Next, IdsUnique;
    if events != [] {
      var (m1, fs) := Next(entries, m, events[0]);
      NextKeepsIds(entries, m, events[0]);
      RunKeepsIds(entries, m1, if events[0].UtteranceEnded? then [] else log + fs, events[1..]);
    }
  }

  lemma {:induction false} NothingWaits()
    ensures IdsUnique(BLANK)
  {}

  lemma {:induction false} HearOneWaitsOrRetires(m: Memory, e: Entry, h: Hearing, t: string, p: Staged)
    requires IdsUnique(m) && Waits(m, t, p)
    ensures var m' := HearOne(m, e, h).0; Waits(m', t, p) || Retired(m', p.id)
  {
    if e.tool == t && Stage(m, e, h.captured) != m { ReplacedIsRetired(m, e, h.captured); }
  }

  lemma {:induction false} HearWaitsOrRetires(m: Memory, entries: seq<Entry>, heard: seq<Hearing>, n: nat, t: string, p: Staged)
    requires n <= |entries| == |heard| && IdsUnique(m) && Waits(m, t, p)
    ensures var m' := Hear(m, entries, heard, n).0; Waits(m', t, p) || Retired(m', p.id)
  {
    hide HearOne, IdsUnique, Waits, Retired;
    if n > 0 {
      HearWaitsOrRetires(m, entries, heard, n - 1, t, p);
      HearKeepsIds(m, entries, heard, n - 1);
      var m1 := Hear(m, entries, heard, n - 1).0;
      if Waits(m1, t, p) {
        HearOneWaitsOrRetires(m1, entries[n - 1], heard[n - 1], t, p);
      } else {
        HearOneKeepsRetired(m1, entries[n - 1], heard[n - 1], p.id);
      }
    }
  }

  lemma {:induction false} HearOneKeepsRetired(m: Memory, e: Entry, h: Hearing, id: nat)
    requires Retired(m, id)
    ensures Retired(HearOne(m, e, h).0, id)
  {}

  /** After any event a waiting capture still waits, the very same record, or is out for good. */
  lemma {:induction false} NextWaitsOrRetires(entries: seq<Entry>, m: Memory, ev: Event, t: string)
    requires Possible(entries, ev) && IdsUnique(m) && t in m.pending
    ensures var m', p := Next(entries, m, ev).0, m.pending[t]; Waits(m', t, p) || Retired(m', p.id)
  {
    match ev
    case Partial(heard) => HearWaitsOrRetires(m, entries, heard, |entries|, t, m.pending[t]);
    case TimerFired(i, p) => if entries[i].tool == t && m.pending[t] == p { SettledIsRetired(m, entries[i], p); }
    case UtteranceEnded => AbandonedIsRetired(m, t);
  }

  /** In every run: once an event has superseded a waiting capture, settled it or ended its utterance,
      nothing that happens later makes it fire. */
  lemma {:induction false} SupersededNeverFires(entries: seq<Entry>, before: seq<Event>, ev: Event, later: seq<Event>, t: string)
    requires Possible(entries, ev)
    requires forall k :: 0 <= k < |before| ==> Possible(entries, before[k])
    requires forall k :: 0 <= k < |later| ==> Possible(entries, later[k])
    requires var m := Run(entries, BLANK, [], before).0;
             t in m.pending && !Waits(Next(entries, m, ev).0, t, m.pending[t])
    ensures var m := Run(entries, BLANK, [], before).0;
            NoneFired(AllFirings(entries, Next(entries, m, ev).0, later), m.pending[t].id)
  {
    hide Run, Next, AllFirings, NoneFired, IdsUnique, Waits, Retired;
    NothingWaits();
    RunKeepsIds(entries, BLANK, [], before);
    var m := Run(entries, BLANK, [], before).0;
    NextWaitsOrRetires(entries, m, ev, t);
    RetiredNeverFires(entries, Next(entries, m, ev).0, later, m.pending[t].id);
  }

  /** No capture goes off twice. */
  predicate CapturesOnce(fs: seq<Firing>) {
    forall i, j :: 0 <= i < j < |fs| && fs[i].capture.Some? && fs[j].capture.Some?
      ==> fs[i].capture.value.id != fs[j].capture.value.id
  }

  predicate NoCaptures(fs: seq<Firing>) {
    forall k :: 0 <= k < |fs| ==> fs[k].capture.None?
  }

  lemma {:induction false} HearFiresNoCapture(m: Memory, entries: seq<Entry>, heard: seq<Hearing>, n: nat)
    requires n <= |entries| == |heard|
    ensures NoCaptures(Hear(m, entries, heard, n).1)
  {
    if n > 0 { HearFiresNoCapture(m, entries, heard, n - 1); }
  }

  /** An event sets off one capture at most, one that waited, and that one is out for good. */
  lemma {:induction false} NextFiresWaiting(entries: seq<Entry>, m: Memory, ev: Event)
    requires Possible(entries, ev) && IdsUnique(m)
    ensures var (m', fs) := Next(entries, m, ev);
            || NoCaptures(fs)
            || (|fs| == 1 && fs[0].capture.Some? && Waits(m, fs[0].tool, fs[0].capture.value)
                && Retired(m', fs[0].capture.value.id))
  {
    match ev
    case Partial(heard) => HearFiresNoCapture(m, entries, heard, |entries|);
    case TimerFired(i, p) => if Waits(m, entries[i].tool, p) { SettledIsRetired(m, entries[i], p); }
    case UtteranceEnded =>
  }

  lemma {:induction false} OnceBehind(fs: seq<Firing>, rest: seq<Firing>)
    requires CapturesOnce(rest)
    requires NoCaptures(fs)
             || (|fs| == 1 && fs[0].capture.Some? && NoneFired(rest, fs[0].capture.value.id))
    ensures CapturesOnce(fs + rest)
  {
    forall i, j | 0 <= i < j < |fs + rest| && (fs + rest)[i].capture.Some? && (fs + rest)[j].capture.Some?
      ensures (fs + rest)[i].capture.value.id != (fs + rest)[j].capture.value.id
    {
      if j >= |fs| { assert (fs + rest)[j] == rest[j - |fs|]; }
      if i >= |fs| { assert (fs + rest)[i] == rest[i - |fs|]; }
    }
  }

  lemma {:induction false} FromHereOnce(entries: seq<Entry>, m: Memory, events: seq<Event>)
    requires IdsUnique(m)
    requires forall k :: 0 <= k < |events| ==> Possible(entries, events[k])
    ensures CapturesOnce(AllFirings(entries, m, events))
    decreases |events|
  {
    hide Next, IdsUnique, Waits, Retired, CapturesOnce, NoneFired;
    if events == [] {
      OnceOfNone();
    } else {
      var (m1, fs) := Next(entries, m, events[0]);
      NextKeepsIds(entries, m, events[0]);
      NextFiresWaiting(entries, m, events[0]);
      FromHereOnce(entries, m1, events[1..]);
      if !NoCaptures(fs) {
        RetiredNeverFires(entries, m1, events[1..], fs[0].capture.value.id);
      }
      OnceBehind(fs, AllFirings(entries, m1, events[1..]));
    }
  }

  lemma {:induction false} OnceOfNone()
    ensures CapturesOnce([])
  {}

  /** Over a whole run, across utterances, each capture that was ever staged fires at most once. */
  lemma {:induction false} EachCaptureFiresOnce(entries: seq<Entry>, events: seq<Event>)
    requires forall k :: 0 <= k < |events| ==> Possible(entries, events[k])
    ensures CapturesOnce(AllFirings(entries, BLANK, events))
  {
    hide CapturesOnce;
    NothingWaits();
    FromHereOnce(entries, BLANK, events);
  }

  // ---------------------------------------------------------------- the object

  ghost predicate Speaks(t: string, e: Entry) {
    || (exists k :: 0 <= k < |e.phrases| && SaysPhrase(t, e.phrases[k]))
    || (exists k :: 0 <= k < |e.startsWith| && RunAt(Words(t), Words(e.startsWith[k]), 0))
  }

  /** What the entry makes of the text. */
  ghost predicate Hears(t: string, e: Entry, h: Hearing) {
    (h.said <==> Speaks(t, e)) && Captures(t, e.after, h.captured)
  }

  predicate GoodEntry(e: Entry) {
    GoodPhrases(e.phrases) && GoodPhrases(e.startsWith) && GoodPhrases(e.after)
  }

  /** The matcher of one pipeline. `nextId` hands out the identities of staged captures. */
  class Reflex {
    const alphabet: Alphabet
    const entries: seq<Entry>
    var fired: set<string>
    var firedAnchors: map<string, nat>
    var pending: map<string, Staged>
    var nextId: nat

    ghost predicate Valid() {
      alphabet.Valid() && forall i :: 0 <= i < |entries| ==> GoodEntry(entries[i])
    }

    function Mem(): Memory
      reads this
    {
      Memory(fired, firedAnchors, pending, nextId)
    }

    constructor (alphabet: Alphabet, entries: seq<Entry>)
      requires alphabet.Valid() && forall i :: 0 <= i < |entries| ==> GoodEntry(entries[i])
      ensures Valid() && this.entries == entries && this.alphabet == alphabet && Mem() == BLANK
    {
      this.alphabet, this.entries := alphabet, entries;
      fired, firedAnchors, pending, nextId := {}, map[], map[], 0;
    }

    method EndUtterance()
      modifies this
      ensures Mem() == EndOfUtterance(old(Mem()))
    {
      fired := {};
      pending := map[];
      firedAnchors := map[];
    }

    /** A partial transcript, offered to every entry in turn; `heard` is what each makes of it. */
    method Observe(partial: string) returns (hits: seq<Firing>, ghost heard: seq<Hearing>)
      requires Valid()
      modifies this
      ensures |heard| == |entries|
      ensures forall k :: 0 <= k < |entries| ==> Hears(Normalized(alphabet, partial), entries[k], heard[k])
      ensures if Normalized(alphabet, partial) == "" then Mem() == old(Mem()) && hits == []
              else (Mem(), hits) == Hear(old(Mem()), entries, heard, |entries|)
    {
      hide Normalized, Normal, Hears, HearOne;
      NormalizedIsNormal(alphabet, partial);
      var text := NormalizePartial(alphabet, partial);
      heard := HearingsOf(text);
      hits := [];
      if text == "" {
        return;
      }
      for i := 0 to |entries|
        invariant (Mem(), hits) == Hear(old(Mem()), entries, heard, i)
      {
        var hit := ObserveEntry(i, text, heard[i]);
        hits := hits + hit;
      }
    }

    /** One entry's part in that, unless it is spent. */
    method ObserveEntry(i: nat, text: string, ghost heard: Hearing) returns (hits: seq<Firing>)
      requires Valid() && i < |entries| && Normal(text) && Hears(text, entries[i], heard)
      modifies this
      ensures (Mem(), hits) == HearOne(old(Mem()), entries[i], heard)
    {
      hide Normal, SaysPhrase, Found, MatchAt, RunAt, Words, Captures;
      var entry := entries[i];
      hits := [];
      if entry.once && entry.tool in fired {
        return;
      }
      if entry.arg != "" {
        StageCapture(entry, text, heard);
        return;
      }
      FoundIsSaid(text, entry.phrases);
      OpensInWords(text, entry.startsWith);
      var contains := ContainsPhrase(text, entry.phrases);
      if contains == Some(false) {
        var prefixed := HasPrefixPhrase(text, entry.startsWith);
        if !prefixed {
          return;
        }
      }
      if entry.once {
        fired := fired + {entry.tool};
      }
      hits := [Firing(entry.tool, None)];
    }

    /** A capture equal to the one that waits leaves it waiting; another takes its place. */
    method StageCapture(entry: Entry, text: string, ghost heard: Hearing)
      requires GoodEntry(entry) && Normal(text) && Hears(text, entry, heard)
      modifies this
      ensures Mem() == Stage(old(Mem()), entry, heard.captured)
    {
      hide Normal, CapturesText, Captures;
      var captured := CaptureAfterAnchor(text, entry.after);
      var c := captured.value;
      CaptureInWords(text, entry.after, c);
      CaptureUnique(text, entry.after, c, heard.captured);
      if c.NoAnchor? || c.rest == "" {
        return;
      }
      if entry.tool in pending {
        var p := pending[entry.tool];
        if p.text == c.rest && p.anchors == c.count {
          return;
        }
      }
      pending := pending[entry.tool := Staged(nextId, c.rest, c.count)];
      nextId := nextId + 1;
    }

    /** The timer of `p` went off: it counts only if `p` is what waits. */
    method Settled(i: nat, p: Staged) returns (hits: seq<Firing>)
      requires i < |entries|
      modifies this
      ensures (Mem(), hits) == Settle(old(Mem()), entries[i], p)
    {
      var entry := entries[i];
      hits := [];
      if entry.tool !in pending || pending[entry.tool] != p {
        return;
      }
      pending := pending - {entry.tool};
      var before := if entry.tool in firedAnchors then firedAnchors[entry.tool] else 0;
      if p.anchors <= before {
        return;
      }
      firedAnchors := firedAnchors[entry.tool := p.anchors];
      if entry.once {
        fired := fired + {entry.tool};
      }
      hits := [Firing(entry.tool, Some(p))];
    }

    /** What each entry makes of the text, for the record. */
    ghost method HearingsOf(text: string) returns (heard: seq<Hearing>)
      requires Valid() && Normal(text)
      ensures |heard| == |entries|
      ensures forall k :: 0 <= k < |entries| ==> Hears(text, entries[k], heard[k])
    {
      hide Normal, Speaks, Captures;
      heard := [];
      for k := 0 to |entries|
        invariant |heard| == k
        invariant forall l :: 0 <= l < k ==> Hears(text, entries[l], heard[l])
      {
        var c := CaptureExists(text, entries[k].after);
        heard := heard + [Hearing(Speaks(text, entries[k]), c)];
      }
    }
  }
}
