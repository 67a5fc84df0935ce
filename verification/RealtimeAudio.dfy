/** The buffer between a speech-to-speech model, which sends a response in a burst, and the sender,
    which plays it 20 ms at a time (internal/pipeline/realtime_audio.go:55-126). Each operation is one
    block under the queue's lock; a `Next` that would wait is told apart from one that has ended. */
module RealtimeAudio {
  import opened AudioFraming
  import opened Sequences
  import opened Wrappers

  datatype Queue = Queue(pending: seq<int>, flush: bool, closed: bool)

  /** What the pump takes: a frame, the end of a response, or both. */
  datatype Chunk = Chunk(frame: Option<seq<int>>, endOfResponse: bool)

  /** The samples a chunk carries, before padding, and whether it ends a response. */
  datatype Cut = Cut(content: seq<int>, ends: bool)

  datatype Outcome = Ended | Waits | Ready(cut: Cut)

  function Padded(content: seq<int>): seq<int> {
    if |content| <= FRAME_SIZE then content + Zeros(FRAME_SIZE - |content|) else content
  }

  function ChunkOf(cut: Cut): Chunk {
    Chunk(if cut.content == [] then None else Some(Padded(cut.content)), cut.ends)
  }

  // ---------------------------------------------------------------- the operations

  datatype Op = Push(samples: seq<int>) | Discard | EndResponse | Close | Next

  function Taken(q: Queue): (Queue, Outcome) {
    if q.closed then (q, Ended)
    else if |q.pending| >= FRAME_SIZE then
      (q.(pending := q.pending[FRAME_SIZE..]), Ready(Cut(q.pending[..FRAME_SIZE], false)))
    else if q.flush then (q.(pending := [], flush := false), Ready(Cut(q.pending, true)))
    else (q, Waits)
  }

  /** The queue, what was cut since the last discard, and what was pushed since then. */
  datatype State = State(queue: Queue, cuts: seq<Cut>, pushed: seq<int>)

  const INITIAL: State := State(Queue([], false, false), [], [])

  function Step(s: State, op: Op): State {
    match op
    case Push(samples) => s.(queue := s.queue.(pending := s.queue.pending + samples), pushed := s.pushed + samples)
    case Discard => State(s.queue.(pending := [], flush := false), [], [])
    case EndResponse => s.(queue := s.queue.(flush := true))
    case Close => s.(queue := s.queue.(closed := true))
    case Next =>
      var (q, o) := Taken(s.queue);
      s.(queue := q, cuts := s.cuts + if o.Ready? then [o.cut] else [])
  }

  function Run(ops: seq<Op>): State {
    if ops == [] then INITIAL else Step(Run(ops[..|ops| - 1]), ops[|ops| - 1])
  }

  // ---------------------------------------------------------------- nothing lost, padding only at ends

  function Content(cuts: seq<Cut>): seq<int> {
    if cuts == [] then [] else Content(cuts[..|cuts| - 1]) + cuts[|cuts| - 1].content
  }

  /** Only the end of a response is short of a frame. */
  predicate PaddedAtEnds(cuts: seq<Cut>) {
    forall i :: 0 <= i < |cuts| ==>
      if cuts[i].ends then |cuts[i].content| < FRAME_SIZE else |cuts[i].content| == FRAME_SIZE
  }

  predicate Conserves(s: State) {
    Content(s.cuts) + s.queue.pending == s.pushed && PaddedAtEnds(s.cuts)
  }

  lemma {:induction false} ContentNext(cuts: seq<Cut>, c: Cut)
    ensures Content(cuts + [c]) == Content(cuts) + c.content
  {
    assert (cuts + [c])[..|cuts|] == cuts;
  }

  lemma {:induction false} PushConserves(s: State, samples: seq<int>)
    requires Conserves(s)
    ensures Conserves(Step(s, Push(samples)))
  {
    hide Content, PaddedAtEnds;
    Reassociate(Content(s.cuts), s.queue.pending, samples);
  }

  lemma {:induction false} NextConserves(s: State)
    requires Conserves(s)
    ensures Conserves(Step(s, Next))
  {
    var (q, o) := Taken(s.queue);
    hide Content;
    if o.Ready? {
      ContentNext(s.cuts, o.cut);
      Reassociate(Content(s.cuts), o.cut.content, q.pending);
      assert s.queue.pending == o.cut.content + q.pending;
    } else {
      assert s.cuts + [] == s.cuts;
    }
  }

  /** In every run the samples handed out, padding removed, followed by what is pending, are all the
      samples pushed since the last discard; and only the end of a response is ever padded. */
  lemma {:induction false} EveryRunConserves(ops: seq<Op>)
    ensures Conserves(Run(ops))
  {
    hide Conserves, Step;
    if ops == [] {
      StartConserves();
    } else {
      var s, op := Run(ops[..|ops| - 1]), ops[|ops| - 1];
      EveryRunConserves(ops[..|ops| - 1]);
      StepConserves(s, op);
    }
  }

  lemma {:induction false} StartConserves()
    ensures Conserves(INITIAL)
  {}

  lemma {:induction false} DiscardConserves(s: State)
    ensures Conserves(Step(s, Discard))
  {}

  lemma {:induction false} StepConserves(s: State, op: Op)
    requires Conserves(s)
    ensures Conserves(Step(s, op))
  {
    match op
    case Push(samples) => PushConserves(s, samples);
    case Next => NextConserves(s);
    case Discard => DiscardConserves(s);
    case _ => hide Content, PaddedAtEnds;
  }

  /** The frame handed out is full, starts with the content, and is silent after it. */
  lemma {:induction false} ChunksAreFull(ops: seq<Op>, i: nat)
    requires i < |Run(ops).cuts|
    ensures var cut := Run(ops).cuts[i]; var chunk := ChunkOf(cut);
            && (chunk.frame.None? ==> cut.ends && cut.content == [])
            && (chunk.frame.Some? ==>
                  && |chunk.frame.value| == 320 && cut.content <= chunk.frame.value
                  && (forall k :: |cut.content| <= k < 320 ==> chunk.frame.value[k] == 0)
                  && (!cut.ends ==> chunk.frame.value == cut.content))
            && chunk.endOfResponse == cut.ends
  {
    EveryRunConserves(ops);
    hide Run, Content;
  }

  // ---------------------------------------------------------------- a pump that keeps asking

  /** What a pump gets by asking until it would wait, and what it leaves. */
  function Drained(q: Queue): (Queue, seq<Cut>)
    decreases |q.pending| + if q.flush then 1 else 0
  {
    var (after, o) := Taken(q);
    if !o.Ready? then (q, [])
    else
      var (left, cuts) := Drained(after);
      (left, [o.cut] + cuts)
  }

  lemma {:induction false} ContentCons(c: Cut, cuts: seq<Cut>)
    ensures Content([c] + cuts) == c.content + Content(cuts)
  {
    if cuts == [] {
      assert [c] + cuts == [c] && [c][..0] == [];
    } else {
      assert ([c] + cuts)[..|cuts|] == [c] + cuts[..|cuts| - 1];
      ContentCons(c, cuts[..|cuts| - 1]);
    }
  }

  /** A pump that asks until it would wait gets what was pending, in order, and leaves less than a
      frame. If a response was ended it leaves nothing, and the last chunk and no other says so. */
  lemma {:induction false} DrainLeavesLittle(q: Queue)
    requires !q.closed
    ensures var (left, cuts) := Drained(q);
            && Content(cuts) + left.pending == q.pending
            && |left.pending| < 320 && !left.flush && !left.closed
            && (if q.flush then left.pending == [] && cuts != [] && cuts[|cuts| - 1].ends
                else forall i :: 0 <= i < |cuts| ==> !cuts[i].ends)
            && (forall i :: 0 <= i < |cuts| - 1 ==> !cuts[i].ends)
    decreases |q.pending| + if q.flush then 1 else 0
  {
    hide Content;
    var (after, o) := Taken(q);
    if o.Ready? {
      DrainLeavesLittle(after);
      var (left, cuts) := Drained(after);
      ContentCons(o.cut, cuts);
      Reassociate(o.cut.content, Content(cuts), left.pending);
      assert q.pending == o.cut.content + after.pending;
      if o.cut.ends { NothingDrained(after); }
    } else {
      NoContent();
    }
  }

  /** A queue that was closed hands out nothing, now or later; one that was not waits only for audio. */
  lemma {:induction false} NextMeans(q: Queue)
    ensures Taken(q).1.Ended? <==> q.closed
    ensures Taken(q).1.Waits? <==> !q.closed && !q.flush && |q.pending| < 320
    ensures q.closed ==> Taken(q).0 == q
  {}

  lemma {:induction false} ClosedForGood(s: State, op: Op)
    requires s.queue.closed
    ensures Step(s, op).queue.closed && (op.Next? ==> Step(s, op) == s)
  {
    assert s.cuts + [] == s.cuts;
  }

  lemma {:induction false} NothingDrained(q: Queue)
    requires q.pending == [] && !q.flush
    ensures Drained(q).1 == []
  {}

  lemma {:induction false} NoContent()
    ensures Content([]) == []
  {}

  // ---------------------------------------------------------------- the ends of responses

  function EndsIn(cuts: seq<Cut>): nat {
    if cuts == [] then 0 else EndsIn(cuts[..|cuts| - 1]) + if cuts[|cuts| - 1].ends then 1 else 0
  }

  /** How often a response was ended since the last discard. */
  function EndsAsked(ops: seq<Op>): nat {
    if ops == [] || ops[|ops| - 1].Discard? then 0
    else EndsAsked(ops[..|ops| - 1]) + if ops[|ops| - 1].EndResponse? then 1 else 0
  }

  /** No end is made up or announced twice: those announced and the one due are at most those asked. */
  lemma {:induction false} EndsAreAsked(ops: seq<Op>)
    ensures EndsIn(Run(ops).cuts) + (if Run(ops).queue.flush then 1 else 0) <= EndsAsked(ops)
  {
    if ops != [] {
      var s, op := Run(ops[..|ops| - 1]), ops[|ops| - 1];
      EndsAreAsked(ops[..|ops| - 1]);
      hide Run;
      if op.Next? { EndsNext(s); }
    }
  }

  lemma {:induction false} EndsNext(s: State)
    ensures var after := Step(s, Next);
            EndsIn(after.cuts) + (if after.queue.flush then 1 else 0) == EndsIn(s.cuts) + (if s.queue.flush then 1 else 0)
  {
    var (q, o) := Taken(s.queue);
    if o.Ready? {
      assert (s.cuts + [o.cut])[..|s.cuts|] == s.cuts;
    } else {
      assert s.cuts + [] == s.cuts;
    }
  }

  // ---------------------------------------------------------------- the object

  class RealtimeAudioQueue {
    var pending: seq<int>
    var flush: bool
    var closed: bool

    ghost function View(): Queue
      reads this
    {
      Queue(pending, flush, closed)
    }

    constructor ()
      ensures View() == INITIAL.queue
    {
      pending, flush, closed := [], false, false;
    }

    method Push(samples: seq<int>)
      modifies this
      ensures View() == old(View()).(pending := old(pending) + samples)
    {
      if |samples| == 0 {
        return;
      }
      pending := pending + samples;
    }

    method Discard()
      modifies this
      ensures View() == old(View()).(pending := [], flush := false)
    {
      pending := [];
      flush := false;
    }

    method EndResponse()
      modifies this
      ensures View() == old(View()).(flush := true)
    {
      flush := true;
    }

    method Close()
      modifies this
      ensures View() == old(View()).(closed := true)
    {
      closed := true;
    }

    /** One pass of the loop that waits: the chunk that is ready, if one is. */
    method Next() returns (chunk: Chunk, ready: bool)
      modifies this
      ensures var (q, o) := Taken(old(View()));
              View() == q && ready == o.Ready? && (ready ==> chunk == ChunkOf(o.cut))
    {
      chunk, ready := Chunk(None, false), false;
      if closed {
        return;
      }
      if |pending| >= FRAME_SIZE {
        var frame := pending[..FRAME_SIZE];
        pending := pending[FRAME_SIZE..];
        assert Padded(frame) == frame;
        return Chunk(Some(frame), false), true;
      }
      if flush {
        flush := false;
        if |pending| == 0 {
          return Chunk(None, true), true;
        }
        var frame := pending + Zeros(FRAME_SIZE - |pending|);
        pending := [];
        return Chunk(Some(frame), true), true;
      }
    }
  }
}
