/** The energy-based voice activity detector (internal/vad/vad.go): a hysteresis over frames that are
    louder or quieter than a threshold, which itself follows the noise floor of the line and the echo
    of the agent's own voice. Energies are reals. */
module Detector {
  import EchoGuard

  const NOISE_FLOOR_ALPHA: real := 0.05
  const NOISE_FLOOR_MULTIPLIER: real := 3.0
  const ADAPTIVE_MIN_THRESHOLD: real := 900.0
  const ADAPTIVE_MAX_FACTOR: real := 2.5
  const UNSET: real := -1.0

  datatype Config = Config(threshold: real, speechFrames: int, silentFrames: int, adaptive: bool)

  datatype State = State(isSpeaking: bool, speechCount: nat, silentCount: nat, noiseFloor: real)

  /** One frame as the detector sees it: its energy and the echo bound in force. */
  datatype Frame = Frame(energy: real, echo: real)

  /** What one frame did. */
  datatype Outcome = Outcome(loud: bool, started: bool, ended: bool)

  // ---------------------------------------------------------------- one frame

  function NoiseThreshold(c: Config, noiseFloor: real): real {
    if !c.adaptive || noiseFloor < 0.0 then c.threshold
    else
      var t := noiseFloor * NOISE_FLOOR_MULTIPLIER;
      var raised := if t < ADAPTIVE_MIN_THRESHOLD then ADAPTIVE_MIN_THRESHOLD else t;
      var most := c.threshold * ADAPTIVE_MAX_FACTOR;
      if raised > most then most else raised
  }

  function Effective(c: Config, noiseFloor: real, echo: real): real {
    var t := NoiseThreshold(c, noiseFloor);
    if echo > t then echo else t
  }

  function Learned(c: Config, noiseFloor: real, energy: real): real {
    if !c.adaptive then noiseFloor
    else if noiseFloor < 0.0 then energy
    else (1.0 - NOISE_FLOOR_ALPHA) * noiseFloor + NOISE_FLOOR_ALPHA * energy
  }

  predicate Loud(c: Config, s: State, f: Frame) {
    f.energy > Effective(c, s.noiseFloor, f.echo)
  }

  function Step(c: Config, s: State, f: Frame): (State, Outcome) {
    if Loud(c, s, f) then
      var started := !s.isSpeaking && s.speechCount + 1 >= c.speechFrames;
      (State(s.isSpeaking || started, s.speechCount + 1, 0, s.noiseFloor), Outcome(true, started, false))
    else
      var ended := s.isSpeaking && s.silentCount + 1 >= c.silentFrames;
      (State(s.isSpeaking && !ended, 0, s.silentCount + 1,
             if f.echo == 0.0 then Learned(c, s.noiseFloor, f.energy) else s.noiseFloor),
       Outcome(false, false, ended))
  }

  /** After a reset nothing is counted; the learned floor stays. */
  function Fresh(noiseFloor: real): State {
    State(false, 0, 0, noiseFloor)
  }

  function Run(c: Config, s: State, frames: seq<Frame>): (State, seq<Outcome>) {
    if frames == [] then (s, [])
    else
      var (before, outs) := Run(c, s, frames[..|frames| - 1]);
      var (after, o) := Step(c, before, frames[|frames| - 1]);
      (after, outs + [o])
  }

  // ---------------------------------------------------------------- the hysteresis

  /** The number of frames at the end that were all loud, or all quiet. */
  function Streak(outs: seq<Outcome>, loud: bool): (n: nat)
    ensures n <= |outs|
  {
    if outs == [] || outs[|outs| - 1].loud != loud then 0 else Streak(outs[..|outs| - 1], loud) + 1
  }

  /** The frames before `end` close with at least `n` that were all loud, or all quiet. */
  predicate RunEnds(outs: seq<Outcome>, end: nat, n: nat, loud: bool) {
    n <= end <= |outs| && forall i: nat :: end - n <= i < end ==> outs[i].loud == loud
  }

  /** A threshold of zero or less still takes one frame. */
  function AtLeastOne(n: int): (m: nat)
    ensures m >= 1
  {
    if n < 1 then 1 else n
  }

  lemma {:induction false} StreakIsRun(outs: seq<Outcome>, n: nat, loud: bool)
    ensures RunEnds(outs, |outs|, n, loud) <==> n <= Streak(outs, loud)
  {
    if outs != [] && n > 0 {
      var most := outs[..|outs| - 1];
      if outs[|outs| - 1].loud == loud {
        StreakIsRun(most, n - 1, loud);
        if n <= Streak(outs, loud) {
          forall i: nat | |outs| - n <= i < |outs| ensures outs[i].loud == loud {
            if i < |most| { assert most[i] == outs[i]; }
          }
        } else if RunEnds(outs, |outs|, n, loud) {
          forall i: nat | |most| - (n - 1) <= i < |most| ensures most[i].loud == loud {
            assert most[i] == outs[i];
          }
        }
      }
    }
  }

  /** What the counters mean, and that they stop where an edge happens. */
  ghost predicate Counted(c: Config, s: State, outs: seq<Outcome>) {
    && s.speechCount == Streak(outs, true)
    && s.silentCount == Streak(outs, false)
    && (!s.isSpeaking ==> s.speechCount < AtLeastOne(c.speechFrames))
    && (s.isSpeaking ==> s.silentCount < AtLeastOne(c.silentFrames))
  }

  lemma {:induction false} StepKeepsCounts(c: Config, s: State, outs: seq<Outcome>, f: Frame)
    requires Counted(c, s, outs)
    ensures var (after, o) := Step(c, s, f); Counted(c, after, outs + [o])
  {
    hide Loud;
    var (after, o) := Step(c, s, f);
    assert (outs + [o])[..|outs|] == outs;
  }

  /** Between resets the counters are the current streaks, so they are never both positive. */
  lemma {:induction false} CountersAreStreaks(c: Config, floor: real, frames: seq<Frame>)
    ensures var (s, outs) := Run(c, Fresh(floor), frames);
            Counted(c, s, outs) && (s.speechCount == 0 || s.silentCount == 0)
    decreases |frames|
  {
    hide Loud;
    if frames != [] {
      var most := frames[..|frames| - 1];
      CountersAreStreaks(c, floor, most);
      var (before, outs) := Run(c, Fresh(floor), most);
      StepKeepsCounts(c, before, outs, frames[|frames| - 1]);
    }
  }

  /** `j` closes a long enough loud run, and no long enough quiet run has closed since. */
  ghost predicate SpeechSince(c: Config, outs: seq<Outcome>, j: nat) {
    && RunEnds(outs, j, AtLeastOne(c.speechFrames), true)
    && forall k: nat :: j < k ==> !RunEnds(outs, k, AtLeastOne(c.silentFrames), false)
  }

  lemma {:induction false} RunEndsEarlier(outs: seq<Outcome>, o: Outcome, end: nat, n: nat, loud: bool)
    requires end <= |outs|
    ensures RunEnds(outs + [o], end, n, loud) <==> RunEnds(outs, end, n, loud)
  {
    var all := outs + [o];
    forall i: nat | i < |outs| ensures all[i] == outs[i] {}
  }

  /** An edge to speech ends a loud run of exactly the configured length. */
  lemma {:induction false} EdgesAreRuns(c: Config, s: State, outs: seq<Outcome>, f: Frame)
    requires Counted(c, s, outs)
    ensures var (after, o) := Step(c, s, f); var all := outs + [o];
            && o.started == (!s.isSpeaking && RunEnds(all, |all|, AtLeastOne(c.speechFrames), true))
            && o.ended == (s.isSpeaking && RunEnds(all, |all|, AtLeastOne(c.silentFrames), false))
            && (o.started ==> Streak(all, true) == AtLeastOne(c.speechFrames))
            && (o.ended ==> Streak(all, false) == AtLeastOne(c.silentFrames))
            && after.isSpeaking == (if s.isSpeaking then !o.ended else o.started)
  {
    hide Loud, RunEnds;
    var (after, o) := Step(c, s, f);
    var all := outs + [o];
    assert all[..|outs|] == outs;
    StreakIsRun(all, AtLeastOne(c.speechFrames), true);
    StreakIsRun(all, AtLeastOne(c.silentFrames), false);
  }

  /** Speaking is a fact about the loud and quiet frames alone: some run of `speechFrames` loud ones
      has not been followed by a run of `silentFrames` quiet ones. */
  lemma {:induction false} SpeakingMeans(c: Config, floor: real, frames: seq<Frame>)
    ensures var (s, outs) := Run(c, Fresh(floor), frames);
            s.isSpeaking <==> exists j: nat :: SpeechSince(c, outs, j)
    decreases |frames|
  {
    hide Step, Counted, RunEnds;
    if frames == [] {
      forall j: nat ensures !SpeechSince(c, [], j) { NoRunInNothing(j, AtLeastOne(c.speechFrames)); }
    } else {
      var most := frames[..|frames| - 1];
      SpeakingMeans(c, floor, most);
      CountersAreStreaks(c, floor, most);
      var (before, outs) := Run(c, Fresh(floor), most);
      SpeakingStep(c, before, outs, frames[|frames| - 1]);
    }
  }

  lemma {:induction false} NoRunInNothing(j: nat, n: nat)
    requires n >= 1
    ensures !RunEnds([], j, n, true)
  {}

  lemma {:induction false} SpeakingStep(c: Config, s: State, outs: seq<Outcome>, f: Frame)
    requires Counted(c, s, outs)
    requires s.isSpeaking <==> exists j: nat :: SpeechSince(c, outs, j)
    ensures var (after, o) := Step(c, s, f);
            after.isSpeaking <==> exists j: nat :: SpeechSince(c, outs + [o], j)
  {
    var (after, o) := Step(c, s, f);
    var all := outs + [o];
    EdgesAreRuns(c, s, outs, f);
    NotBoth(all, AtLeastOne(c.speechFrames), AtLeastOne(c.silentFrames));
    hide Step, Counted, Streak;
    var m := AtLeastOne(c.silentFrames);
    if RunEnds(all, |all|, AtLeastOne(c.speechFrames), true) {
      BeyondEnd(all, |all|, m);
      assert SpeechSince(c, all, |all|);
    } else if RunEnds(all, |all|, m, false) {
      forall j: nat ensures !SpeechSince(c, all, j) {
        if j < |all| { assert RunEnds(all, |all|, m, false); }
      }
    } else {
      forall j: nat ensures SpeechSince(c, all, j) <==> SpeechSince(c, outs, j) {
        SinceUnchanged(c, outs, o, j);
      }
    }
  }

  lemma {:induction false} BeyondEnd(outs: seq<Outcome>, end: nat, n: nat)
    requires |outs| <= end
    ensures forall k: nat :: end < k ==> !RunEnds(outs, k, n, false)
  {}

  lemma {:induction false} NotBoth(outs: seq<Outcome>, n: nat, m: nat)
    requires n >= 1 && m >= 1
    ensures !(RunEnds(outs, |outs|, n, true) && RunEnds(outs, |outs|, m, false))
  {
    if outs != [] {
      var last: nat := |outs| - 1;
      assert RunEnds(outs, |outs|, n, true) ==> outs[last].loud;
      assert RunEnds(outs, |outs|, m, false) ==> !outs[last].loud;
    }
  }

  lemma {:induction false} SinceUnchanged(c: Config, outs: seq<Outcome>, o: Outcome, j: nat)
    requires !RunEnds(outs + [o], |outs| + 1, AtLeastOne(c.speechFrames), true)
    requires !RunEnds(outs + [o], |outs| + 1, AtLeastOne(c.silentFrames), false)
    ensures SpeechSince(c, outs + [o], j) <==> SpeechSince(c, outs, j)
  {
    var all, n, m := outs + [o], AtLeastOne(c.speechFrames), AtLeastOne(c.silentFrames);
    if j <= |outs| { RunEndsEarlier(outs, o, j, n, true); }
    forall k: nat ensures RunEnds(all, k, m, false) <==> RunEnds(outs, k, m, false) {
      if k <= |outs| { RunEndsEarlier(outs, o, k, m, false); }
    }
  }

  // ---------------------------------------------------------------- alternation

  function Starts(outs: seq<Outcome>): nat {
    if outs == [] then 0 else Starts(outs[..|outs| - 1]) + if outs[|outs| - 1].started then 1 else 0
  }

  function Ends(outs: seq<Outcome>): nat {
    if outs == [] then 0 else Ends(outs[..|outs| - 1]) + if outs[|outs| - 1].ended then 1 else 0
  }

  lemma {:induction false} RunLength(c: Config, s: State, frames: seq<Frame>)
    ensures |Run(c, s, frames).1| == |frames|
    decreases |frames|
  {
    hide Step;
    if frames != [] { RunLength(c, s, frames[..|frames| - 1]); }
  }

  /** The outcomes of the first frames are those of the run of the first frames. */
  lemma {:induction false} RunPrefix(c: Config, s: State, frames: seq<Frame>, k: nat)
    requires k <= |frames|
    ensures |Run(c, s, frames).1| == |frames| && Run(c, s, frames).1[..k] == Run(c, s, frames[..k]).1
    decreases |frames|
  {
    hide Step;
    RunLength(c, s, frames);
    if k == |frames| {
      assert frames[..k] == frames;
    } else {
      var most := frames[..|frames| - 1];
      RunLength(c, s, most);
      RunPrefix(c, s, most, k);
      assert most[..k] == frames[..k];
    }
  }

  lemma {:induction false} StepAlternates(c: Config, s: State, outs: seq<Outcome>, f: Frame)
    requires Starts(outs) == Ends(outs) + if s.isSpeaking then 1 else 0
    ensures var (after, o) := Step(c, s, f);
            !(o.started && o.ended) && Starts(outs + [o]) == Ends(outs + [o]) + if after.isSpeaking then 1 else 0
  {
    hide Loud;
    var o := Step(c, s, f).1;
    assert (outs + [o])[..|outs|] == outs;
  }

  lemma {:induction false} RunAlternates(c: Config, floor: real, frames: seq<Frame>)
    ensures var (s, outs) := Run(c, Fresh(floor), frames);
            Starts(outs) == Ends(outs) + if s.isSpeaking then 1 else 0
    decreases |frames|
  {
    if frames != [] {
      hide Step, Starts, Ends;
      var most := frames[..|frames| - 1];
      RunAlternates(c, floor, most);
      var (before, outs) := Run(c, Fresh(floor), most);
      StepAlternates(c, before, outs, frames[|frames| - 1]);
    }
  }

  /** Started and ended strictly alternate, beginning with started: at every point the starts are
      ahead of the ends by one while speaking and level otherwise, and no frame is both. */
  lemma {:induction false} EdgesAlternate(c: Config, floor: real, frames: seq<Frame>, k: nat)
    requires k <= |frames|
    ensures var outs := Run(c, Fresh(floor), frames).1;
            && |outs| == |frames|
            && Starts(outs[..k]) == Ends(outs[..k]) + (if Run(c, Fresh(floor), frames[..k]).0.isSpeaking then 1 else 0)
            && (k < |outs| ==> !(outs[k].started && outs[k].ended))
  {
    hide Starts, Ends, Step;
    RunPrefix(c, Fresh(floor), frames, k);
    RunAlternates(c, floor, frames[..k]);
    if k < |frames| { EdgeAt(c, Fresh(floor), frames, k); }
  }

  lemma {:induction false} EdgeAt(c: Config, s: State, frames: seq<Frame>, k: nat)
    requires k < |frames|
    ensures var outs := Run(c, s, frames).1; |outs| == |frames| && !(outs[k].started && outs[k].ended)
  {
    hide Loud;
    var upTo := frames[..k + 1];
    RunPrefix(c, s, frames, k + 1);
    RunLength(c, s, upTo);
    RunLength(c, s, upTo[..k]);
    assert Run(c, s, frames).1[k] == Run(c, s, upTo).1[k];
  }

  // ---------------------------------------------------------------- the noise floor

  /** The frame was quiet and carried no echo: what the floor is made of. */
  predicate Teaches(o: Outcome, f: Frame) {
    !o.loud && f.echo == 0.0
  }

  predicate Within(lo: real, x: real, hi: real) {
    lo <= x <= hi
  }

  lemma {:induction false} LearnedStaysWithin(c: Config, floor: real, energy: real, lo: real, hi: real)
    requires 0.0 <= lo && Within(lo, energy, hi) && (floor < 0.0 || Within(lo, floor, hi))
    ensures var l := Learned(c, floor, energy); l < 0.0 || Within(lo, l, hi)
  {
    if c.adaptive && floor >= 0.0 {
      var l := Learned(c, floor, energy);
      assert 0.95 * lo + 0.05 * lo <= l <= 0.95 * hi + 0.05 * hi;
    }
  }

  /** All quiet frames without echo have their energy in the range. */
  ghost predicate TaughtWithin(frames: seq<Frame>, outs: seq<Outcome>, lo: real, hi: real) {
    |outs| == |frames| && forall i: nat :: i < |frames| ==> (Teaches(outs[i], frames[i]) ==> Within(lo, frames[i].energy, hi))
  }

  /** The learned floor never leaves the range of the quiet, echo-free frames it is made of. */
  lemma {:induction false} FloorStaysWithin(c: Config, s: State, frames: seq<Frame>, lo: real, hi: real)
    requires 0.0 <= lo && (s.noiseFloor < 0.0 || Within(lo, s.noiseFloor, hi))
    requires TaughtWithin(frames, Run(c, s, frames).1, lo, hi)
    ensures var l := Run(c, s, frames).0.noiseFloor; l < 0.0 || Within(lo, l, hi)
    decreases |frames|
  {
    hide Loud, Within, Learned;
    if frames != [] {
      var most, f := frames[..|frames| - 1], frames[|frames| - 1];
      var (before, outs) := Run(c, s, most);
      var (after, o) := Step(c, before, f);
      var all := outs + [o];
      RunLength(c, s, most);
      forall i: nat | i < |most| ensures Teaches(outs[i], most[i]) ==> Within(lo, most[i].energy, hi) {
        assert all[i] == outs[i] && frames[i] == most[i];
      }
      FloorStaysWithin(c, s, most, lo, hi);
      if Teaches(o, f) {
        assert all[|most|] == o && frames[|most|] == f;
        LearnedStaysWithin(c, before.noiseFloor, f.energy, lo, hi);
      }
    }
  }

  /** The floor does not move while no frame teaches it: throughout an echo, and through speech. */
  lemma {:induction false} FloorHolds(c: Config, s: State, frames: seq<Frame>)
    requires !c.adaptive || forall i: nat :: i < |frames| ==> frames[i].echo != 0.0
    ensures Run(c, s, frames).0.noiseFloor == s.noiseFloor
    decreases |frames|
  {
    hide Loud;
    if frames != [] { FloorHolds(c, s, frames[..|frames| - 1]); }
  }

  /** The agent cannot interrupt itself: audio that stays at or under the echo bound, however long it
      lasts, never starts speech and never raises a learned floor. */
  lemma {:induction false} EchoNeverStarts(c: Config, s: State, frames: seq<Frame>)
    requires !s.isSpeaking
    requires forall i: nat :: i < |frames| ==> 0.0 <= frames[i].energy <= frames[i].echo
    ensures var (after, outs) := Run(c, s, frames);
            && !after.isSpeaking && Starts(outs) == 0 && (frames != [] ==> after.speechCount == 0)
            && (after.noiseFloor <= s.noiseFloor || (s.noiseFloor < 0.0 && after.noiseFloor == 0.0))
    decreases |frames|
  {
    hide NoiseThreshold, Learned;
    if frames != [] {
      var most, f := frames[..|frames| - 1], frames[|frames| - 1];
      EchoNeverStarts(c, s, most);
      var (before, outs) := Run(c, s, most);
      var (after, o) := Step(c, before, f);
      assert (outs + [o])[..|outs|] == outs;
      SilenceLowers(c, before.noiseFloor);
      assert f.echo == 0.0 ==> f.energy == 0.0;
    }
  }

  lemma {:induction false} SilenceLowers(c: Config, floor: real)
    ensures var l := Learned(c, floor, 0.0); l <= floor || (floor < 0.0 && l == 0.0)
    ensures floor == 0.0 ==> Learned(c, floor, 0.0) == 0.0
  {}

  /** However loud the line, the learned threshold stays between the adaptive minimum and the cap;
      where a low base puts the cap under the minimum, the cap wins. */
  lemma {:induction false} ThresholdClamped(c: Config, floor: real)
    requires c.adaptive && floor >= 0.0
    ensures NoiseThreshold(c, floor) <= 2.5 * c.threshold
    ensures NoiseThreshold(c, floor) >= 900.0 || NoiseThreshold(c, floor) == 2.5 * c.threshold
    ensures 900.0 <= 3.0 * floor <= 2.5 * c.threshold ==> NoiseThreshold(c, floor) == 3.0 * floor
    ensures 3.0 * floor <= 900.0 <= 2.5 * c.threshold ==> NoiseThreshold(c, floor) == 900.0
  {}

  /** Three times the floor, between 900 and two and a half times the base, once there is a floor. */
  ghost predicate AboveLine(c: Config, floor: real, energy: real) {
    if !c.adaptive || floor < 0.0 then energy > c.threshold
    else energy > 2.5 * c.threshold || (energy > 3.0 * floor && energy > 900.0)
  }

  /** A frame is loud exactly if it is above the echo and above what the line asks for. */
  lemma {:induction false} LoudMeans(c: Config, s: State, f: Frame)
    ensures Step(c, s, f).1.loud <==> f.energy > f.echo && AboveLine(c, s.noiseFloor, f.energy)
  {}

  /** What one frame makes of the floor: a quiet frame without echo moves it a twentieth of the way,
      or sets it if there is none; no other frame, and no frame of a fixed detector, touches it. */
  lemma {:induction false} FloorMoves(c: Config, s: State, f: Frame)
    ensures var (after, o) := Step(c, s, f);
            if !c.adaptive || o.loud || f.echo != 0.0 then after.noiseFloor == s.noiseFloor
            else if s.noiseFloor < 0.0 then after.noiseFloor == f.energy
            else 20.0 * (after.noiseFloor - s.noiseFloor) == f.energy - s.noiseFloor
  {
    hide Loud;
  }

  function Power(x: real, n: nat): real {
    if n == 0 then 1.0 else x * Power(x, n - 1)
  }

  /** In a steady line noise of energy `e` a learned floor closes in on it: after `n` frames its
      distance is 0.95^n of what it was. */
  lemma {:induction false} FloorConverges(c: Config, s: State, frames: seq<Frame>, e: real)
    requires c.adaptive && s.noiseFloor >= 0.0 && e >= 0.0
    requires forall i :: 0 <= i < |frames| ==> frames[i] == Frame(e, 0.0)
    requires forall i :: 0 <= i < |Run(c, s, frames).1| ==> !Run(c, s, frames).1[i].loud
    ensures Run(c, s, frames).0.noiseFloor - e == Power(0.95, |frames|) * (s.noiseFloor - e)
  {
    hide Run;
    FloorCloses(c, s, frames, e);
    ShrunkIsPower(s.noiseFloor - e, |frames|);
  }

  function Shrunk(d: real, n: nat): real {
    if n == 0 then d else 0.95 * Shrunk(d, n - 1)
  }

  lemma {:induction false} ShrunkIsPower(d: real, n: nat)
    ensures Shrunk(d, n) == Power(0.95, n) * d
  {
    if n > 0 { ShrunkIsPower(d, n - 1); }
  }

  lemma {:induction false} FloorCloses(c: Config, s: State, frames: seq<Frame>, e: real)
    requires c.adaptive && s.noiseFloor >= 0.0 && e >= 0.0
    requires forall i :: 0 <= i < |frames| ==> frames[i] == Frame(e, 0.0)
    requires forall i :: 0 <= i < |Run(c, s, frames).1| ==> !Run(c, s, frames).1[i].loud
    ensures var floor := Run(c, s, frames).0.noiseFloor; floor >= 0.0 && floor - e == Shrunk(s.noiseFloor - e, |frames|)
    decreases |frames|
  {
    if frames != [] {
      hide Step;
      var most, f := frames[..|frames| - 1], frames[|frames| - 1];
      var (before, outs) := Run(c, s, most);
      var (after, o) := Step(c, before, f);
      var all := Run(c, s, frames).1;
      assert all == outs + [o];
      forall i | 0 <= i < |outs| ensures !outs[i].loud { assert all[i] == outs[i]; }
      assert !all[|outs|].loud;
      FloorCloses(c, s, most, e);
      QuietFrame(c, before, e);
    }
  }

  lemma {:induction false} QuietFrame(c: Config, s: State, e: real)
    requires c.adaptive && s.noiseFloor >= 0.0 && e >= 0.0 && !Step(c, s, Frame(e, 0.0)).1.loud
    ensures var floor := Step(c, s, Frame(e, 0.0)).0.noiseFloor; floor >= 0.0 && floor == 0.95 * s.noiseFloor + 0.05 * e
  {
    hide Loud;
  }

  // ---------------------------------------------------------------- the object

  class Detector {
    const c: Config
    var isSpeaking: bool
    var speechCount: nat
    var silentCount: nat
    var noiseFloor: real
    var echo: EchoGuard.Guard?

    ghost function View(): State
      reads `isSpeaking, `speechCount, `silentCount, `noiseFloor
    {
      State(isSpeaking, speechCount, silentCount, noiseFloor)
    }

    ghost predicate Attached()
      reads `echo, echo, if echo == null then {} else {echo.buf}
    {
      echo != null ==> echo.Valid()
    }

    constructor (threshold: real, speechFrames: int, silentFrames: int, adaptive: bool)
      ensures View() == Fresh(UNSET) && echo == null
      ensures c == Config(threshold, speechFrames, silentFrames, adaptive)
    {
      c := Config(threshold, speechFrames, silentFrames, adaptive);
      isSpeaking, speechCount, silentCount, noiseFloor := false, 0, 0, UNSET;
      echo := null;
    }

    method SetEchoReference(g: EchoGuard.Guard?)
      modifies `echo
      ensures echo == g
    {
      echo := g;
    }

    method EchoThreshold(now: int) returns (r: real)
      requires Attached() && (echo != null ==> now >= echo.clock)
      modifies echo
      ensures Attached() && (echo != null ==> echo.clock == now && echo.log == old(echo.log))
      ensures r == EchoBound(now)
    {
      hide EchoGuard.Bound;
      r := 0.0;
      if echo != null {
        r := echo.Threshold(now);
      }
    }

    /** The echo bound the attached guard gives at `now`, by its history alone. */
    ghost function EchoBound(now: int): real
      reads `echo, echo
    {
      if echo == null then 0.0
      else
        EchoGuard.Bound(echo.log, echo.buf.Length, echo.window, echo.gain, now) * echo.margin
    }

    method CurrentNoiseThreshold() returns (r: real)
      ensures r == NoiseThreshold(c, noiseFloor)
    {
      if !c.adaptive || noiseFloor < 0.0 {
        return c.threshold;
      }
      r := noiseFloor * NOISE_FLOOR_MULTIPLIER;
      if r < ADAPTIVE_MIN_THRESHOLD {
        r := ADAPTIVE_MIN_THRESHOLD;
      }
      if r > c.threshold * ADAPTIVE_MAX_FACTOR {
        r := c.threshold * ADAPTIVE_MAX_FACTOR;
      }
    }

    method UpdateNoiseFloor(energy: real)
      modifies `noiseFloor
      ensures noiseFloor == Learned(c, old(noiseFloor), energy)
    {
      if !c.adaptive {
        return;
      }
      if noiseFloor < 0.0 {
        noiseFloor := energy;
        return;
      }
      noiseFloor := (1.0 - NOISE_FLOOR_ALPHA) * noiseFloor + NOISE_FLOOR_ALPHA * energy;
    }

    /** Evaluates a frame, and says whether speech just started or ended. */
    method Process(energy: real, now: int) returns (started: bool, ended: bool)
      requires Attached() && (echo != null ==> now >= echo.clock)
      modifies this, echo
      ensures echo == old(echo) && Attached() && (echo != null ==> echo.clock == now && echo.log == old(echo.log))
      ensures var (after, o) := Step(c, old(View()), Frame(energy, EchoBound(now)));
              View() == after && started == o.started && ended == o.ended
    {
      hide NoiseThreshold, Learned, EchoGuard.Bound, EchoBound, Attached;
      var echoThr := EchoThreshold(now);
      started, ended := Judge(energy, echoThr);
    }

    method Judge(energy: real, echoThr: real) returns (started: bool, ended: bool)
      modifies `isSpeaking, `speechCount, `silentCount, `noiseFloor
      ensures var (after, o) := Step(c, old(View()), Frame(energy, echoThr));
              View() == after && started == o.started && ended == o.ended
    {
      hide NoiseThreshold, Learned;
      started, ended := false, false;
      var thr := CurrentNoiseThreshold();
      if echoThr > thr {
        thr := echoThr;
      }
      if energy > thr {
        speechCount := speechCount + 1;
        silentCount := 0;
        if !isSpeaking && speechCount >= c.speechFrames {
          isSpeaking := true;
          started := true;
        }
      } else {
        if echoThr == 0.0 {
          UpdateNoiseFloor(energy);
        }
        silentCount := silentCount + 1;
        speechCount := 0;
        if isSpeaking && silentCount >= c.silentFrames {
          isSpeaking := false;
          ended := true;
        }
      }
    }

    method Reset()
      modifies `isSpeaking, `speechCount, `silentCount
      ensures View() == Fresh(noiseFloor)
    {
      isSpeaking := false;
      speechCount, silentCount := 0, 0;
    }
  }
}
