/** From provider bytes to frames of 20 ms (internal/tts/http.go, internal/audio/rtp.go and the frame
    cutting of synthesizeSentences in internal/pipeline/agent.go).

    Reads arrive in whatever pieces the provider sends, a stream may fail, and the response may be
    cancelled wherever the loops look at its context. */
module AudioFraming {
  import opened Bytes
  import opened Sequences

  const FRAME_SIZE: nat := 320

  // ---------------------------------------------------------------- keeping bytes aligned

  /** Holds the odd byte between chunks. */
  class PcmAligner {
    var carry: Byte
    var hasCarry: bool

    ghost function Held(): (h: seq<Byte>)
      reads this
      ensures |h| <= 1
    {
      if hasCarry then [carry] else []
    }

    constructor ()
      ensures Held() == []
    {
      carry, hasCarry := 0, false;
    }

    /** Nothing is lost: what was held and the chunk come out as whole samples and what is held now. */
    method Take(chunk: seq<Byte>) returns (out: seq<Byte>)
      modifies this
      ensures out + Held() == old(Held()) + chunk && |out| % 2 == 0
    {
      if |chunk| == 0 && !hasCarry {
        return [];
      }
      out := [];
      if hasCarry {
        out := out + [carry];
        hasCarry := false;
      }
      out := out + chunk;
      if |out| % 2 == 1 {
        carry := out[|out| - 1];
        hasCarry := true;
        out := out[..|out| - 1];
      }
    }
  }

  /** The bytes that make whole samples. */
  function Whole(bytes: seq<Byte>): (w: seq<Byte>)
    ensures |w| % 2 == 0 && w <= bytes && |bytes| <= |w| + 1
  {
    bytes[..|bytes| - |bytes| % 2]
  }

  lemma {:induction false} WholeOf(out: seq<Byte>, held: seq<Byte>)
    requires |out| % 2 == 0 && |held| <= 1
    ensures Whole(out + held) == out
  {}

  /** A body in the pieces it is read in, and whether reading it ends in an error. */
  datatype Body = Body(pieces: seq<seq<Byte>>, fails: bool)

  /** The context of a response, at each time it is looked at: whether it is alive, and whether a send
      offered at that time goes through although it is not, as a select may choose. */
  datatype Context = Context(alive: nat -> bool, lucky: nat -> bool) {
    /** A cancelled context stays cancelled. */
    ghost predicate Sticky() {
      forall i: nat, j: nat :: i <= j && alive(j) ==> alive(i)
    }

    predicate Sends(look: nat) {
      alive(look) || lucky(look)
    }
  }

  /** Chunks of whole samples. */
  predicate Aligned(chunks: seq<seq<Byte>>) {
    forall k :: 0 <= k < |chunks| ==> chunks[k] != [] && |chunks[k]| % 2 == 0
  }

  /** Reads a body and emits whole samples as they come, all of them while the context is alive. */
  method PumpPcmStream(ctx: Context, look: nat, body: Body) returns (chunks: seq<seq<Byte>>, failed: bool, look': nat)
    requires ctx.Sticky()
    ensures look <= look' <= look + |body.pieces| && Aligned(chunks) && Flat(chunks) <= Whole(Flat(body.pieces))
    ensures ctx.alive(look') ==> Flat(chunks) == Whole(Flat(body.pieces)) && failed == body.fails
    ensures failed ==> body.fails && Flat(chunks) == Whole(Flat(body.pieces))
  {
    hide Whole, Flat, Aligned;
    var pieces := body.pieces;
    var align := new PcmAligner();
    chunks, failed, look' := [], false, look;
    NothingPumped(pieces);
    for i := 0 to |pieces|
      invariant look <= look' <= look + i && !failed && Aligned(chunks)
      invariant Flat(chunks) + align.Held() == Flat(pieces[..i]) && |Flat(chunks)| % 2 == 0
    {
      PumpedSoFar(chunks, align.Held(), pieces, i);
      if !ctx.alive(look') {
        return;
      }
      ghost var held := align.Held();
      var chunk := align.Take(pieces[i]);
      FlatNext(pieces[..i], pieces[i]);
      assert pieces[..i + 1] == pieces[..i] + [pieces[i]];
      Regroup(Flat(chunks), held, pieces[i], chunk, align.Held());
      if |chunk| > 0 {
        look' := look' + 1;
        if !ctx.Sends(look') {
          return;
        }
        FlatNext(chunks, chunk);
        AlignedNext(chunks, chunk);
        chunks := chunks + [chunk];
      }
    }
    PumpedSoFar(chunks, align.Held(), pieces, |pieces|);
    assert pieces[..|pieces|] == pieces;
    WholeOf(Flat(chunks), align.Held());
    failed := body.fails && ctx.alive(look') && ctx.Sends(look');
  }

  lemma {:induction false} NothingPumped(pieces: seq<seq<Byte>>)
    ensures Flat<Byte>([]) == [] && Flat(pieces[..0]) == [] && Aligned([])
  {}

  lemma {:induction false} AlignedNext(chunks: seq<seq<Byte>>, chunk: seq<Byte>)
    requires Aligned(chunks) && chunk != [] && |chunk| % 2 == 0
    ensures Aligned(chunks + [chunk])
  {}

  /** What has been pumped at any point is a prefix of the whole samples. */
  lemma {:induction false} PumpedSoFar(chunks: seq<seq<Byte>>, held: seq<Byte>, pieces: seq<seq<Byte>>, i: nat)
    requires i <= |pieces| && Flat(chunks) + held == Flat(pieces[..i]) && |Flat(chunks)| % 2 == 0 && |held| <= 1
    ensures Flat(chunks) <= Whole(Flat(pieces))
  {
    hide Flat;
    FlatConcat(pieces[..i], pieces[i..]);
    assert pieces[..i] + pieces[i..] == pieces;
    assert Flat(chunks) <= Flat(pieces);
  }

  lemma {:induction false} Regroup<T>(done: seq<T>, held: seq<T>, read: seq<T>, chunk: seq<T>, rest: seq<T>)
    requires chunk + rest == held + read
    ensures (done + chunk) + rest == (done + held) + read
    ensures chunk == [] ==> done + rest == (done + held) + read
  {
    assert (done + chunk) + rest == done + (chunk + rest);
    assert (done + held) + read == done + (held + read);
  }

  // ---------------------------------------------------------------- samples

  method Linear16BytesToPcm(data: seq<Byte>) returns (pcm: seq<int>)
    ensures pcm == Decoded(data)
  {
    hide DecodeSample;
    pcm := [];
    for i := 0 to |data| / 2
      invariant pcm == Decoded(data[..2 * i])
    {
      PairDecoded(data, i);
      pcm := pcm + [DecodeSample(data[2 * i], data[2 * i + 1])];
    }
    var w := 2 * (|data| / 2);
    assert data == data[..w] + data[w..];
    DecodedConcat(data[..w], data[w..]);
  }

  lemma {:induction false} PairDecoded(data: seq<Byte>, i: nat)
    requires 2 * i + 1 < |data|
    ensures Decoded(data[..2 * (i + 1)]) == Decoded(data[..2 * i]) + [DecodeSample(data[2 * i], data[2 * i + 1])]
  {
    hide DecodeSample;
    var pair := data[2 * i..2 * i + 2];
    assert data[..2 * (i + 1)] == data[..2 * i] + pair;
    DecodedConcat(data[..2 * i], pair);
    assert pair[2..] == [];
  }

  /** The whole samples of a stream do not depend on where it was split. */
  lemma {:induction false} WholeDecodesTheSame(bytes: seq<Byte>)
    ensures Decoded(Whole(bytes)) == Decoded(bytes)
  {
    var w := Whole(bytes);
    assert bytes == w + bytes[|w|..];
    DecodedConcat(w, bytes[|w|..]);
  }

  // ---------------------------------------------------------------- frames

  datatype Frame = Frame(samples: seq<int>, newTalkspurt: bool)

  function Contents(frames: seq<Frame>): seq<int> {
    if frames == [] then [] else Contents(frames[..|frames| - 1]) + frames[|frames| - 1].samples
  }

  function Zeros(n: nat): (z: seq<int>)
    ensures |z| == n && forall i :: 0 <= i < n ==> z[i] == 0
  {
    seq(n, _ => 0)
  }

  /** Frames are full, and only the first starts a talkspurt. */
  predicate WellFramed(frames: seq<Frame>) {
    forall i :: 0 <= i < |frames| ==> |frames[i].samples| == 320 && (frames[i].newTalkspurt <==> i == 0)
  }

  /** What has been emitted, followed by what is left over, is the samples so far. */
  predicate InStep(frames: seq<Frame>, leftover: seq<int>, samples: seq<int>) {
    WellFramed(frames) && Contents(frames) + leftover == samples
  }

  lemma {:induction false} FrameAdded(frames: seq<Frame>, samples: seq<int>)
    requires WellFramed(frames) && |samples| == FRAME_SIZE
    ensures WellFramed(frames + [Frame(samples, frames == [])])
    ensures Contents(frames + [Frame(samples, frames == [])]) == Contents(frames) + samples
  {
    var all := frames + [Frame(samples, frames == [])];
    assert all[..|frames|] == frames;
  }

  /** Cuts what is left over and a chunk into frames, until one cannot be sent. The frames before stay,
      each new one was sent at a look of its own, and the one that was not is the last that was looked for. */
  method CutFrames(ctx: Context, look: nat, before: seq<Frame>, leftover: seq<int>, chunk: seq<int>, ghost sofar: seq<int>)
    returns (frames: seq<Frame>, rest: seq<int>, stopped: bool, look': nat)
    requires ctx.Sticky() && InStep(before, leftover, sofar)
    ensures before <= frames && WellFramed(frames)
    ensures look' == look + |frames| - |before| + if stopped then 1 else 0
    ensures forall k :: look < k <= look + |frames| - |before| ==> ctx.Sends(k)
    ensures stopped ==> !ctx.Sends(look')
    ensures if stopped then Contents(frames) <= sofar + chunk else InStep(frames, rest, sofar + chunk) && |rest| < FRAME_SIZE
  {
    hide WellFramed, Contents;
    var samples := leftover + chunk;
    frames, stopped, look' := before, false, look;
    var i := 0;
    assert samples[0..] == samples;
    assert Contents(before) + samples == sofar + chunk;
    while i + FRAME_SIZE <= |samples|
      invariant 0 <= i <= |samples| && WellFramed(frames)
      invariant before <= frames && look' == look + |frames| - |before|
      invariant forall k :: look < k <= look' ==> ctx.Sends(k)
      invariant Contents(frames) + samples[i..] == sofar + chunk
    {
      look' := look' + 1;
      if !ctx.Sends(look') {
        return frames, [], true, look';
      }
      assert samples[i..] == samples[i..i + FRAME_SIZE] + samples[i + FRAME_SIZE..];
      FrameAdded(frames, samples[i..i + FRAME_SIZE]);
      Reassociate(Contents(frames), samples[i..i + FRAME_SIZE], samples[i + FRAME_SIZE..]);
      frames := frames + [Frame(samples[i..i + FRAME_SIZE], frames == [])];
      i := i + FRAME_SIZE;
    }
    rest := if i < |samples| then samples[i..] else [];
    assert rest == samples[i..];
  }

  /** All samples of a response: each sentence is a stream of its own. */
  function Spoken(sentences: seq<Body>): seq<int> {
    if sentences == [] then []
    else Spoken(sentences[..|sentences| - 1]) + Decoded(Flat(sentences[|sentences| - 1].pieces))
  }

  /** One sentence: its chunks are decoded one by one and cut into frames. `told` are the samples that
      came through, which is all of them while the context is alive; less than a frame of them is then
      not in a frame, even if the stream fails. The context is looked at once for each piece and frame. */
  method EmitSentence(ctx: Context, look: nat, before: seq<Frame>, leftover: seq<int>, body: Body, ghost sofar: seq<int>)
    returns (frames: seq<Frame>, rest: seq<int>, stopped: bool, look': nat, ghost told: seq<int>)
    requires ctx.Sticky() && InStep(before, leftover, sofar) && |leftover| < FRAME_SIZE
    ensures before <= frames && WellFramed(frames) && told <= Decoded(Flat(body.pieces))
    ensures look <= look' <= look + |body.pieces| + |frames| - |before| + if stopped then 1 else 0
    ensures if stopped then Contents(frames) <= sofar + told else InStep(frames, rest, sofar + told) && |rest| < FRAME_SIZE
    ensures ctx.alive(look') ==>
              && stopped == body.fails && told == Decoded(Flat(body.pieces))
              && |sofar + told| < |Contents(frames)| + FRAME_SIZE
  {
    hide InStep, Flat, Decoded, Whole, WellFramed, Contents, Aligned;
    var stream, failed;
    stream, failed, look' := PumpPcmStream(ctx, look, body);
    WholeDecodesTheSame(Flat(body.pieces));
    DecodedGrows(Flat(stream), Whole(Flat(body.pieces)));
    frames, rest, stopped := before, leftover, false;
    NothingTold(stream, sofar);
    InStepFrames(before, leftover, sofar);
    told := Decoded(Flat(stream));
    for i := 0 to |stream|
      invariant before <= frames && look <= look' <= look + |body.pieces| + |frames| - |before|
      invariant ctx.alive(look') ==> (told == Decoded(Flat(body.pieces)) && failed == body.fails)
      invariant InStep(frames, rest, sofar + Decoded(Flat(stream[..i]))) && |rest| < FRAME_SIZE && WellFramed(frames)
    {
      if !ctx.alive(look') {
        SoFarTold(frames, rest, stream, i, sofar);
        return frames, [], true, look', told;
      }
      DecodedNext(stream, i);
      var pcm := Linear16BytesToPcm(stream[i]);
      Reassociate(sofar, Decoded(Flat(stream[..i])), pcm);
      frames, rest, stopped, look' := CutFrames(ctx, look', frames, rest, pcm, sofar + Decoded(Flat(stream[..i])));
      if stopped {
        ToldUpTo(stream, i + 1);
        return frames, [], true, look', told;
      }
      InStepFrames(frames, rest, sofar + Decoded(Flat(stream[..i + 1])));
    }
    assert stream[..|stream|] == stream;
    LittleLeft(frames, rest, sofar + told);
    if failed {
      SoFarTold(frames, rest, stream, |stream|, sofar);
      stopped := true;
    }
  }

  lemma {:induction false} NothingTold(stream: seq<seq<Byte>>, sofar: seq<int>)
    ensures sofar + Decoded(Flat(stream[..0])) == sofar
  {}

  lemma {:induction false} InStepFrames(frames: seq<Frame>, rest: seq<int>, samples: seq<int>)
    requires InStep(frames, rest, samples)
    ensures WellFramed(frames) && Contents(frames) <= samples
  {}

  lemma {:induction false} LittleLeft(frames: seq<Frame>, rest: seq<int>, samples: seq<int>)
    requires InStep(frames, rest, samples) && |rest| < FRAME_SIZE
    ensures |samples| < |Contents(frames)| + FRAME_SIZE
  {}

  lemma {:induction false} DecodedGrows(a: seq<Byte>, b: seq<Byte>)
    requires a <= b
    ensures Decoded(a) <= Decoded(b)
  {
    DecodedPrefix(a, b[|a|..]);
    assert b == a + b[|a|..];
  }

  lemma {:induction false} ToldUpTo(stream: seq<seq<Byte>>, i: nat)
    requires i <= |stream|
    ensures Decoded(Flat(stream[..i])) <= Decoded(Flat(stream))
  {
    hide Flat, Decoded;
    FlatConcat(stream[..i], stream[i..]);
    assert stream == stream[..i] + stream[i..];
    DecodedGrows(Flat(stream[..i]), Flat(stream));
  }

  lemma {:induction false} SoFarTold(frames: seq<Frame>, rest: seq<int>, stream: seq<seq<Byte>>, i: nat, sofar: seq<int>)
    requires i <= |stream| && InStep(frames, rest, sofar + Decoded(Flat(stream[..i])))
    ensures Contents(frames) <= sofar + Decoded(Flat(stream))
  {
    hide Flat, Decoded, WellFramed, Contents;
    ToldUpTo(stream, i);
    PrefixGrows(Contents(frames), rest, sofar, Decoded(Flat(stream[..i])), Decoded(Flat(stream)));
  }

  lemma {:induction false} PrefixGrows<T>(c: seq<T>, rest: seq<T>, a: seq<T>, b: seq<T>, more: seq<T>)
    requires c + rest == a + b && b <= more
    ensures c <= a + more
  {
    assert c <= a + b;
    assert a + more == (a + b) + more[|b|..];
  }

  lemma {:induction false} DecodedNext(stream: seq<seq<Byte>>, i: nat)
    requires i < |stream| && Aligned(stream)
    ensures Decoded(Flat(stream[..i + 1])) == Decoded(Flat(stream[..i])) + Decoded(stream[i])
  {
    hide Flat, Decoded;
    assert stream[..i + 1] == stream[..i] + [stream[i]];
    FlatNext(stream[..i], stream[i]);
    FlatIsAligned(stream, i);
    DecodedConcat(Flat(stream[..i]), stream[i]);
  }

  lemma {:induction false} FlatIsAligned(stream: seq<seq<Byte>>, i: nat)
    requires i <= |stream| && Aligned(stream)
    ensures |Flat(stream[..i])| % 2 == 0
  {
    if i > 0 {
      assert stream[..i][..i - 1] == stream[..i - 1] && stream[..i][i - 1] == stream[i - 1];
      FlatIsAligned(stream, i - 1);
    }
  }

  /** The first `n` of the samples, made up to whole frames with silence. */
  predicate PaddedPrefix(frames: seq<Frame>, samples: seq<int>, n: nat, pad: nat) {
    n <= |samples| && pad < FRAME_SIZE && Contents(frames) == samples[..n] + Zeros(pad)
  }

  /** None of the first `reached` streams but the last has failed. */
  predicate Reached(sentences: seq<Body>, reached: nat) {
    reached <= |sentences| && forall j :: 0 <= j < reached - 1 ==> !sentences[j].fails
  }

  predicate Broken(sentences: seq<Body>, reached: nat)
    requires reached <= |sentences|
  {
    reached > 0 && sentences[reached - 1].fails
  }

  function PieceCount(sentences: seq<Body>): nat {
    if sentences == [] then 0 else PieceCount(sentences[..|sentences| - 1]) + |sentences[|sentences| - 1].pieces|
  }

  /** However the provider splits its bytes, the frames are all of 320 samples and hold, in order, the
      samples of the sentences reached, only the last of them padded, with silence. While the context is
      alive at the last look, the sentences are reached up to one whose stream fails, which loses less
      than a frame, and otherwise all of them are, and all samples spoken. The context is looked at once
      for each piece read and each frame, and once at the end. */
  method SynthesizeSentences(ctx: Context, sentences: seq<Body>)
    returns (frames: seq<Frame>, ghost look: nat, ghost reached: nat, ghost n: nat, ghost pad: nat)
    requires ctx.Sticky()
    ensures Reached(sentences, reached)
    ensures PaddedPrefix(frames, Spoken(sentences[..reached]), n, pad)
    ensures forall i :: 0 <= i < |frames| ==> |frames[i].samples| == 320 && (frames[i].newTalkspurt <==> i == 0)
    ensures ctx.alive(look) ==>
              if Broken(sentences, reached) then pad == 0 && |Spoken(sentences[..reached])| < n + FRAME_SIZE
              else reached == |sentences| && n == |Spoken(sentences)|
    ensures look <= PieceCount(sentences[..reached]) + |frames| + 1
  {
    hide WellFramed, Contents, Spoken, Flat, Decoded, Zeros, InStep, PieceCount;
    var leftover: seq<int> := [];
    var at, stopped := 0, false;
    frames := [];
    NothingFramed();
    assert sentences[..0] == [];
    ghost var spoken: seq<int> := [];
    InStepFrames(frames, leftover, spoken);
    for i := 0 to |sentences|
      invariant InStep(frames, leftover, spoken) && |leftover| < FRAME_SIZE && WellFramed(frames)
      invariant spoken <= Spoken(sentences[..i])
      invariant ctx.alive(at) ==> spoken == Spoken(sentences[..i])
      invariant Reached(sentences, i) && (Broken(sentences, i) ==> !ctx.alive(at))
      invariant at <= PieceCount(sentences[..i]) + |frames|
    {
      if !ctx.alive(at) {
        n, pad := CutShort(frames, leftover, spoken, Spoken(sentences[..i]));
        look, reached := at, i;
        FramesMean(frames);
        return;
      }
      SpokenNext(sentences, i);
      ghost var told;
      frames, leftover, stopped, at, told := EmitSentence(ctx, at, frames, leftover, sentences[i], spoken);
      spoken := spoken + told;
      if stopped {
        n, pad := Stopped(frames, spoken, Spoken(sentences[..i + 1]));
        look, reached := at, i + 1;
        FramesMean(frames);
        return;
      }
      InStepFrames(frames, leftover, spoken);
    }
    assert sentences[..|sentences|] == sentences;
    at := at + 1;
    look, reached := at, |sentences|;
    if |leftover| > 0 && ctx.Sends(at) {
      n, pad := |spoken|, FRAME_SIZE - |leftover|;
      LastFrame(frames, leftover, spoken, Spoken(sentences));
      frames := frames + [Frame(leftover + Zeros(FRAME_SIZE - |leftover|), frames == [])];
    } else {
      n, pad := CutShort(frames, leftover, spoken, Spoken(sentences));
    }
    FramesMean(frames);
  }

  lemma {:induction false} FramesMean(frames: seq<Frame>)
    requires WellFramed(frames)
    ensures forall i :: 0 <= i < |frames| ==> |frames[i].samples| == 320 && (frames[i].newTalkspurt <==> i == 0)
  {}

  lemma {:induction false} CutShort(frames: seq<Frame>, leftover: seq<int>, spoken: seq<int>, all: seq<int>) returns (n: nat, pad: nat)
    requires InStep(frames, leftover, spoken) && spoken <= all
    ensures PaddedPrefix(frames, all, n, pad) && (leftover == [] ==> n == |spoken|)
  {
    n, pad := Stopped(frames, spoken, all);
  }

  lemma {:induction false} Stopped(frames: seq<Frame>, spoken: seq<int>, all: seq<int>) returns (n: nat, pad: nat)
    requires Contents(frames) <= spoken <= all
    ensures PaddedPrefix(frames, all, n, pad) && n == |Contents(frames)| && pad == 0
  {
    hide Contents;
    n, pad := |Contents(frames)|, 0;
    assert all[..n] + Zeros(0) == Contents(frames);
  }

  lemma {:induction false} LastFrame(frames: seq<Frame>, leftover: seq<int>, spoken: seq<int>, all: seq<int>)
    requires InStep(frames, leftover, spoken) && spoken <= all && 0 < |leftover| < FRAME_SIZE
    ensures var more := frames + [Frame(leftover + Zeros(FRAME_SIZE - |leftover|), frames == [])];
            WellFramed(more) && PaddedPrefix(more, all, |spoken|, FRAME_SIZE - |leftover|)
  {
    hide WellFramed, Contents, Zeros;
    var pad := FRAME_SIZE - |leftover|;
    FrameAdded(frames, leftover + Zeros(pad));
    Reassociate(Contents(frames), leftover, Zeros(pad));
    assert all[..|spoken|] == spoken;
  }

  lemma {:induction false} NothingFramed()
    ensures InStep([], [], []) && Spoken([]) == [] && PieceCount([]) == 0
  {}

  lemma {:induction false} SpokenNext(sentences: seq<Body>, i: nat)
    requires i < |sentences|
    ensures Spoken(sentences[..i + 1]) == Spoken(sentences[..i]) + Decoded(Flat(sentences[i].pieces))
    ensures PieceCount(sentences[..i + 1]) == PieceCount(sentences[..i]) + |sentences[i].pieces|
  {
    hide Decoded, Flat;
    assert sentences[..i + 1][..i] == sentences[..i];
  }

  lemma {:induction false} ContentsLength(frames: seq<Frame>)
    requires WellFramed(frames)
    ensures |Contents(frames)| == |frames| * FRAME_SIZE
  {
    if frames != [] { ContentsLength(frames[..|frames| - 1]); }
  }

  /** The frames are determined by the samples: those cut from two splits of the same bytes agree. */
  lemma {:induction false} FramesAreDetermined(a: seq<Frame>, b: seq<Frame>, samples: seq<int>, i: nat, j: nat)
    requires WellFramed(a) && WellFramed(b) && i < FRAME_SIZE && j < FRAME_SIZE
    requires Contents(a) == samples + Zeros(i) && Contents(b) == samples + Zeros(j)
    ensures a == b
  {
    hide WellFramed, Contents;
    ContentsLength(a);
    ContentsLength(b);
    assert |a| == |b|;
    assert i == j;
    SameContents(a, b);
  }

  lemma {:induction false} SameContents(a: seq<Frame>, b: seq<Frame>)
    requires WellFramed(a) && WellFramed(b) && |a| == |b| && Contents(a) == Contents(b)
    ensures a == b
  {
    if a != [] {
      var n := |a| - 1;
      assert |a[n].samples| == FRAME_SIZE && |b[n].samples| == FRAME_SIZE && a[n].newTalkspurt == b[n].newTalkspurt;
      SplitAt(Contents(a[..n]), a[n].samples, Contents(b[..n]), b[n].samples);
      SameContents(a[..n], b[..n]);
      assert a == a[..n] + [a[n]] && b == b[..n] + [b[n]];
    }
  }

  lemma {:induction false} SplitAt<T>(a: seq<T>, x: seq<T>, b: seq<T>, y: seq<T>)
    requires a + x == b + y && |x| == |y|
    ensures a == b && x == y
  {
    assert a == (a + x)[..|a|] && b == (b + y)[..|b|];
    assert x == (a + x)[|a|..] && y == (b + y)[|b|..];
  }
}
