/** The reference for echo on paths without cancellation (internal/vad/echo.go).

    A ring buffer of recently sent frames, pruned by age as it is used. Against the whole history of
    sent frames it is shown to answer a question about time only: how loud was the loudest frame of
    the last window. Times are nanoseconds; energies are reals. */
module EchoGuard {

  datatype Sample = Sample(at: int, rms: real)

  const MILLISECOND: int := 1_000_000
  const FRAME: int := 5 * MILLISECOND
  const DEFAULT_WINDOW: int := 400 * MILLISECOND
  const DEFAULT_GAIN: real := 0.6
  const DEFAULT_MARGIN: real := 1.8

  // ---------------------------------------------------------------- what the guard answers

  /** The last `cap` frames. */
  function Recent(log: seq<Sample>, cap: nat): seq<Sample> {
    if |log| <= cap then log else log[|log| - cap..]
  }

  function DropOld(s: seq<Sample>, cutoff: int): (r: seq<Sample>)
    ensures |r| <= |s|
  {
    if s != [] && s[0].at < cutoff then DropOld(s[1..], cutoff) else s
  }

  function Peak(s: seq<Sample>): (p: real)
    ensures p >= 0.0
  {
    if s == [] then 0.0
    else
      var p := Peak(s[..|s| - 1]);
      if s[|s| - 1].rms > p then s[|s| - 1].rms else p
  }

  /** In the order they were sent. */
  predicate Sorted(s: seq<Sample>) {
    forall i, j :: 0 <= i < j < |s| ==> s[i].at <= s[j].at
  }

  predicate Past(s: seq<Sample>, now: int) {
    forall i :: 0 <= i < |s| ==> s[i].at <= now
  }

  lemma {:induction false} PastStaysPast(s: seq<Sample>, a: int, b: int)
    requires Past(s, a) && a <= b
    ensures Past(s, b)
  {}

  lemma {:induction false} SortedSnoc(s: seq<Sample>, x: Sample)
    requires Sorted(s) && Past(s, x.at)
    ensures Sorted(s + [x]) && Past(s + [x], x.at)
  {}

  /** On a clock that does not go back, dropping old frames from the front keeps exactly the ones
      inside the window. */
  lemma {:induction false} DropOldKeepsWindow(s: seq<Sample>, cutoff: int)
    requires Sorted(s)
    ensures var r := DropOld(s, cutoff);
            (forall i :: 0 <= i < |s| - |r| ==> s[i].at < cutoff) && (forall i :: 0 <= i < |r| ==> r[i].at >= cutoff)
  {
    if s != [] && s[0].at < cutoff {
      var tail := s[1..];
      DropOldKeepsWindow(tail, cutoff);
      DropOldIsSuffix(tail, cutoff);
      var r := DropOld(s, cutoff);
      assert forall i :: 1 <= i < |s| - |r| ==> s[i] == tail[i - 1];
    } else if s != [] {
      assert forall i :: 0 <= i < |s| ==> s[0].at <= s[i].at;
    }
  }

  /** The peak is the largest energy, and zero when nothing was louder. */
  lemma {:induction false} PeakIsLargest(s: seq<Sample>)
    ensures forall i :: 0 <= i < |s| ==> s[i].rms <= Peak(s)
    ensures Peak(s) == 0.0 || exists i :: 0 <= i < |s| && s[i].rms == Peak(s)
  {
    if s != [] {
      var most := s[..|s| - 1];
      PeakIsLargest(most);
      if Peak(s) == Peak(most) && Peak(s) != 0.0 {
        var i :| 0 <= i < |most| && most[i].rms == Peak(most);
        assert s[i].rms == Peak(s);
      }
    }
  }

  lemma {:induction false} DropOldIsSuffix(s: seq<Sample>, cutoff: int)
    ensures DropOld(s, cutoff) == s[|s| - |DropOld(s, cutoff)|..]
  {
    if s != [] && s[0].at < cutoff { DropOldIsSuffix(s[1..], cutoff); }
  }

  /** What the guard bounds the echo by at time `now`. */
  function Bound(log: seq<Sample>, cap: nat, window: int, gain: real, now: int): real {
    Scaled(Peak(DropOld(Recent(log, cap), now - window)), gain)
  }

  function Scaled(a: real, b: real): real {
    a * b
  }

  /** One of the last `cap` frames, sent no earlier than `cutoff`. */
  predicate InWindow(log: seq<Sample>, cap: nat, cutoff: int, i: nat) {
    i < |log| <= i + cap && log[i].at >= cutoff
  }

  /** `p` is the loudest of the frames in the window, or zero. */
  ghost predicate IsWindowPeak(log: seq<Sample>, cap: nat, cutoff: int, p: real) {
    && (forall i: nat :: InWindow(log, cap, cutoff, i) ==> log[i].rms <= p)
    && (p == 0.0 || exists i: nat :: InWindow(log, cap, cutoff, i) && log[i].rms == p)
  }

  /** The number behind the bound, said without the ring or the pruning: on a clock that does not go
      back it is the maximum over the last `cap` frames that are still inside the window. */
  lemma {:induction false} BoundIsWindowPeak(log: seq<Sample>, cap: nat, window: int, gain: real, now: int) returns (p: real)
    requires Sorted(log)
    ensures IsWindowPeak(log, cap, now - window, p)
    ensures Bound(log, cap, window, gain, now) == p * gain
  {
    hide IsWindowPeak, Peak, DropOld, Recent, Sorted;
    WindowPeak(log, cap, now - window);
    p := Peak(DropOld(Recent(log, cap), now - window));
  }

  lemma {:induction false} WindowPeak(log: seq<Sample>, cap: nat, cutoff: int)
    requires Sorted(log)
    ensures IsWindowPeak(log, cap, cutoff, Peak(DropOld(Recent(log, cap), cutoff)))
  {
    var r := DropOld(Recent(log, cap), cutoff);
    LiveFrames(log, cap, cutoff);
    PeakIsLargest(r);
    hide Peak, DropOld, Sorted, InWindow, Recent;
    var p, skip := Peak(r), |log| - |r|;
    forall i: nat | InWindow(log, cap, cutoff, i) ensures log[i].rms <= p {
      assert r[i - skip] == log[i];
    }
    if p != 0.0 {
      var j :| 0 <= j < |r| && r[j].rms == p;
      assert InWindow(log, cap, cutoff, j + skip);
    }
  }

  /** What is left of the last `cap` frames is a suffix of the history, and exactly the window. */
  lemma {:induction false} LiveFrames(log: seq<Sample>, cap: nat, cutoff: int)
    requires Sorted(log)
    ensures var r := DropOld(Recent(log, cap), cutoff);
            |r| <= |log| && r == log[|log| - |r|..] && forall i: nat :: InWindow(log, cap, cutoff, i) <==> |log| - |r| <= i < |log|
  {
    var recent := Recent(log, cap);
    SortedSuffix(log, |log| - |recent|);
    DropOldIsSuffix(recent, cutoff);
    DropOldKeepsWindow(recent, cutoff);
    hide DropOld, Sorted;
    var r := DropOld(recent, cutoff);
    forall i: nat ensures InWindow(log, cap, cutoff, i) <==> |log| - |r| <= i < |log| {
      var k := i - (|log| - |recent|);
      if 0 <= k < |recent| - |r| {
        assert recent[k] == log[i];
      } else if 0 <= k < |recent| {
        assert r[k - (|recent| - |r|)] == log[i];
      }
    }
  }

  // ---------------------------------------------------------------- the capacity

  predicate Spaced(log: seq<Sample>) {
    forall i :: 0 <= i && i + 1 < |log| ==> log[i].at + 5_000_000 <= log[i + 1].at
  }

  lemma {:induction false} SpacedApart(log: seq<Sample>, i: nat, j: nat)
    requires Spaced(log) && i <= j < |log|
    ensures log[i].at + (j - i) * FRAME <= log[j].at
    decreases j
  {
    if i < j { SpacedApart(log, i, j - 1); }
  }

  predicate AllOld(s: seq<Sample>, cutoff: int) {
    forall i :: 0 <= i < |s| ==> s[i].at < cutoff
  }

  lemma {:induction false} DropAllOld(a: seq<Sample>, b: seq<Sample>, cutoff: int)
    requires AllOld(a, cutoff)
    ensures DropOld(a + b, cutoff) == DropOld(b, cutoff)
  {
    if a == [] {
      assert a + b == b;
    } else {
      assert (a + b)[1..] == a[1..] + b;
      DropAllOld(a[1..], b, cutoff);
    }
  }

  /** With frames at least 5 ms apart the capacity never binds: the bound is the exact maximum of
      the sliding window. */
  lemma {:induction false} CapacityNeverBinds(log: seq<Sample>, cap: nat, window: int, gain: real, now: int)
    requires Spaced(log) && (log != [] ==> log[|log| - 1].at <= now)
    requires cap * FRAME > window
    ensures Bound(log, cap, window, gain, now) == Scaled(Peak(DropOld(log, now - window)), gain)
  {
    hide Peak, Spaced, DropOld, Scaled, Recent;
    RecentHoldsWindow(log, cap, window, now);
  }

  lemma {:induction false} RecentHoldsWindow(log: seq<Sample>, cap: nat, window: int, now: int)
    requires Spaced(log) && (log != [] ==> log[|log| - 1].at <= now)
    requires cap * FRAME > window
    ensures DropOld(Recent(log, cap), now - window) == DropOld(log, now - window)
  {
    hide Spaced, DropOld, AllOld;
    if |log| > cap {
      var n := |log| - cap;
      OlderThanWindow(log, n, cap, window, now);
      DropAllOld(log[..n], log[n..], now - window);
      assert log[..n] + log[n..] == log;
    }
  }

  lemma {:induction false} OlderThanWindow(log: seq<Sample>, n: nat, cap: nat, window: int, now: int)
    requires Spaced(log) && n + cap == |log| && n > 0 && log[|log| - 1].at <= now && cap * FRAME > window
    ensures AllOld(log[..n], now - window)
  {
    hide Spaced;
    forall i | 0 <= i < n ensures log[..n][i].at < now - window {
      OutsideWindow(log, i, cap, window, now);
    }
  }

  /** A frame with `cap` later ones was sent longer than a window ago. */
  lemma {:induction false} OutsideWindow(log: seq<Sample>, i: nat, cap: nat, window: int, now: int)
    requires Spaced(log) && i + cap < |log| && log[|log| - 1].at <= now && cap * FRAME > window
    ensures log[i].at < now - window
  {
    hide Spaced;
    SpacedApart(log, i, |log| - 1);
    MoreFrames(cap, |log| - 1 - i);
  }

  lemma {:induction false} MoreFrames(a: nat, b: nat)
    requires a <= b
    ensures a * FRAME <= b * FRAME
  {}

  /** The capacity a guard is built with. */
  function CapacityFor(window: int): (cap: nat)
    requires window > 0
    ensures cap > 0
  {
    window / FRAME + 8
  }

  /** A full window of frames 5 ms apart always fits. */
  lemma {:induction false} CapacityCovers(window: int)
    requires window > 0
    ensures CapacityFor(window) * 5_000_000 > window + 7 * 5_000_000
  {}

  // ---------------------------------------------------------------- the ring

  function Wrap(start: nat, i: nat, n: nat): (k: nat)
    requires n > 0 && start < n && i <= n
    ensures k < n && k == if start + i < n then start + i else start + i - n
  {
    if start + i < n then
      assert (start + i) % n == start + i;
      (start + i) % n
    else
      assert start + i == (start + i - n) + 1 * n && 0 <= start + i - n < n;
      WrapOnce(start + i - n, n);
      (start + i) % n
  }

  lemma {:induction false} WrapOnce(r: nat, n: nat)
    requires r < n
    ensures (r + n) % n == r
  {}

  /** The `count` entries of a ring `b` from `start` on, oldest first. */
  ghost function RingContents(b: seq<Sample>, start: nat, count: nat): (s: seq<Sample>)
    requires start < |b| && count <= |b|
    ensures |s| == count && forall i :: 0 <= i < count ==> s[i] == b[Wrap(start, i, |b|)]
  {
    seq(count, i requires 0 <= i < count => b[Wrap(start, i, |b|)])
  }

  lemma {:induction false} RingDropFirst(b: seq<Sample>, start: nat, count: nat)
    requires start < |b| && 0 < count <= |b|
    ensures RingContents(b, Wrap(start, 1, |b|), count - 1) == RingContents(b, start, count)[1..]
  {
    var a, c := RingContents(b, Wrap(start, 1, |b|), count - 1), RingContents(b, start, count);
    forall i | 0 <= i < count - 1 ensures a[i] == c[1..][i] {
      assert Wrap(Wrap(start, 1, |b|), i, |b|) == Wrap(start, i + 1, |b|);
    }
  }

  lemma {:induction false} RingAppend(b: seq<Sample>, start: nat, count: nat, x: Sample)
    requires start < |b| && count < |b|
    ensures RingContents(b[Wrap(start, count, |b|) := x], start, count + 1) == RingContents(b, start, count) + [x]
  {
    var k := Wrap(start, count, |b|);
    var a, c := RingContents(b[k := x], start, count + 1), RingContents(b, start, count);
    forall i | 0 <= i < count ensures a[i] == c[i] {
      assert Wrap(start, i, |b|) != k;
    }
  }

  class Guard {
    const window: int
    const gain: real
    const margin: real
    // `count` frames from `start` on, wrapping; the rest of the array is stale.
    const buf: array<Sample>
    var start: nat
    var count: nat

    // Every frame sent since the last reset, and the latest reading of the clock.
    ghost var log: seq<Sample>
    ghost var clock: int

    ghost predicate Ring()
      reads `start, `count
    {
      buf.Length > 0 && start < buf.Length && count <= buf.Length
    }

    /** The live entries, oldest first. */
    ghost function Contents(): (s: seq<Sample>)
      reads `start, `count, buf
      requires Ring()
      ensures |s| == count
    {
      RingContents(buf[..], start, count)
    }

    ghost predicate Valid()
      reads this, buf
    {
      && window > 0 && gain > 0.0 && margin > 0.0
      && buf.Length == CapacityFor(window)
      && Ring()
      && Sorted(log) && Past(log, clock)
      && Contents() == DropOld(Recent(log, buf.Length), clock - window)
    }

    /** An empty ring, with a default for each parameter that is not positive. */
    constructor (window: int, gain: real, margin: real, ghost now: int)
      ensures Valid() && fresh(buf) && log == [] && clock == now
      ensures this.window == if window <= 0 then 400_000_000 else window
      ensures this.gain == if gain <= 0.0 then 0.6 else gain
      ensures this.margin == if margin <= 0.0 then 1.8 else margin
    {
      var w := if window <= 0 then DEFAULT_WINDOW else window;
      this.window := w;
      this.gain := if gain <= 0.0 then DEFAULT_GAIN else gain;
      this.margin := if margin <= 0.0 then DEFAULT_MARGIN else margin;
      buf := new Sample[CapacityFor(w)](_ => Sample(0, 0.0));
      start, count := 0, 0;
      log, clock := [], now;
    }

    method Reset()
      requires Valid()
      modifies this
      ensures Valid() && log == [] && clock == old(clock)
    {
      hide DropOld, CapacityFor;
      start, count := 0, 0;
      log := [];
    }

    method DropFirst()
      requires Ring() && count > 0
      modifies `start, `count
      ensures Ring() && Contents() == old(Contents())[1..]
    {
      hide RingContents, Wrap;
      RingDropFirst(buf[..], start, count);
      start := Wrap(start, 1, buf.Length);
      count := count - 1;
    }

    method Append(x: Sample)
      requires Ring() && count < buf.Length
      modifies `count, buf
      ensures Ring() && Contents() == old(Contents()) + [x]
    {
      hide RingContents, Wrap;
      RingAppend(buf[..], start, count, x);
      ghost var before := buf[..];
      buf[Wrap(start, count, buf.Length)] := x;
      assert buf[..] == before[Wrap(start, count, buf.Length) := x];
      count := count + 1;
    }

    method First() returns (x: Sample)
      requires Ring() && count > 0
      ensures x == Contents()[0]
    {
      x := buf[Wrap(start, 0, buf.Length)];
    }

    /** Drops the frames that have aged out at `now`. */
    method Prune(now: int)
      requires Valid() && now >= clock
      modifies `start, `count, `clock
      ensures Valid() && clock == now
    {
      hide Contents, Recent, DropOld, Sorted, Past, CapacityFor;
      PastStaysPast(log, clock, now);
      var cutoff := now - window;
      DropTwice(Recent(log, buf.Length), clock - window, cutoff);
      PruneBefore(cutoff);
      clock := now;
    }

    method PruneBefore(cutoff: int)
      requires Ring()
      modifies `start, `count
      ensures Ring() && Contents() == DropOld(old(Contents()), cutoff)
    {
      hide Contents;
      while count > 0
        invariant Ring()
        invariant DropOld(Contents(), cutoff) == DropOld(old(Contents()), cutoff)
      {
        var oldest := First();
        if oldest.at >= cutoff {
          break;
        }
        DropFirst();
      }
    }

    /** Extends the history by one frame; the ring stays the window of it. */
    method Observe(at: int, rms: real)
      requires Valid() && at >= clock
      modifies this, buf
      ensures Valid() && clock == at && log == old(log) + [Sample(at, rms)]
    {
      hide Contents, Recent, DropOld, Sorted, Past, CapacityFor;
      Prune(at);
      SortedSnoc(log, Sample(at, rms));
      ObservedWindow(log, buf.Length, Sample(at, rms), at - window);
      if count == buf.Length {
        DropFirst();
      }
      Append(Sample(at, rms));
      log := log + [Sample(at, rms)];
    }

    /** An upper bound on the echo right now: the loudest frame still inside the window among the
        last `buf.Length` sent, scaled by the gain. */
    method Floor(now: int) returns (r: real)
      requires Valid() && now >= clock
      modifies `start, `count, `clock
      ensures Valid() && clock == now
      ensures r == Bound(log, buf.Length, window, gain, now)
    {
      hide Scaled, Recent, DropOld, CapacityFor, Sorted, Peak;
      Prune(now);
      var peak := Loudest();
      r := Scaled(peak, gain);
    }

    method Loudest() returns (peak: real)
      requires Ring()
      ensures peak == Peak(Contents())
    {
      peak := 0.0;
      for i := 0 to count
        invariant peak == Peak(Contents()[..i])
      {
        var v := buf[Wrap(start, i, buf.Length)].rms;
        assert Contents()[..i + 1][..i] == Contents()[..i];
        if v > peak {
          peak := v;
        }
      }
      assert Contents()[..count] == Contents();
    }

    method Threshold(now: int) returns (r: real)
      requires Valid() && now >= clock
      modifies `start, `count, `clock
      ensures Valid() && clock == now
      ensures r == Bound(log, buf.Length, window, gain, now) * margin
    {
      hide Bound, Recent, DropOld, CapacityFor, Sorted, Contents;
      var f := Floor(now);
      r := Scaled(f, margin);
    }
  }

  lemma {:induction false} DropTwice(s: seq<Sample>, a: int, b: int)
    requires a <= b
    ensures DropOld(DropOld(s, a), b) == DropOld(s, b)
  {
    if s != [] && s[0].at < a { DropTwice(s[1..], a, b); }
  }

  lemma {:induction false} DropOldSnoc(s: seq<Sample>, x: Sample, cutoff: int)
    requires x.at >= cutoff
    ensures DropOld(s + [x], cutoff) == DropOld(s, cutoff) + [x]
  {
    if s != [] && s[0].at < cutoff {
      assert (s + [x])[1..] == s[1..] + [x];
      DropOldSnoc(s[1..], x, cutoff);
    } else if s == [] {
      assert s + [x] == [x];
    }
  }

  /** Making room by dropping the oldest entry only when the ring is full keeps the window. */
  lemma {:induction false} ObservedWindow(log: seq<Sample>, cap: nat, x: Sample, cutoff: int)
    requires cap > 0 && x.at >= cutoff && Sorted(log)
    ensures var live := DropOld(Recent(log, cap), cutoff);
            DropOld(Recent(log + [x], cap), cutoff) == (if |live| == cap then live[1..] else live) + [x]
  {
    hide DropOld, Sorted;
    var recent := Recent(log, cap);
    var live := DropOld(recent, cutoff);
    if |log| < cap {
      DropOldSnoc(log, x, cutoff);
    } else {
      var n := |log| - cap;
      SortedSuffix(log, n);
      assert Recent(log + [x], cap) == recent[1..] + [x];
      DropOldSnoc(recent[1..], x, cutoff);
      DropFirstOnly(recent, cutoff);
    }
  }

  lemma {:induction false} SortedSuffix(s: seq<Sample>, n: nat)
    requires Sorted(s) && n <= |s|
    ensures Sorted(s[n..])
  {}

  /** If the oldest entry is kept so is everything behind it; if not, it makes no difference. */
  lemma {:induction false} DropFirstOnly(s: seq<Sample>, cutoff: int)
    requires s != [] && Sorted(s)
    ensures var live := DropOld(s, cutoff);
            DropOld(s[1..], cutoff) == if |live| == |s| then live[1..] else live
  {
    if s[0].at >= cutoff { DropNone(s, cutoff); }
  }

  lemma {:induction false} DropNone(s: seq<Sample>, cutoff: int)
    requires s != [] && Sorted(s) && s[0].at >= cutoff
    ensures DropOld(s[1..], cutoff) == s[1..]
  {}
}
