/** Sample-rate conversion of linear16 speech (internal/tts/speechify.go and
    internal/tts/resample_stream.go).

    The polyphase filter exists twice in the server: once over a whole utterance and once as a
    streaming form that keeps trimmed history, an output phase and a split byte between chunks.
    Both are verified here against one reference, a plain convolution that visits every input
    sample for every output sample.

    Floating point stays abstract: the filter is a record of the operations both programs call,
    so whatever rounding those operations do, both programs do it in the same order. */
module Resampler {
  import opened Bytes
  import opened Sequences

  /** The float64 operations of the filter loop: `mulAdd(acc, x, h)` is `acc + x*h` and `round`
      is math.Round followed by the conversion to an integer. */
  datatype Arith<!F> = Arith(zero: F, ofInt: int -> F, mulAdd: (F, F, F) -> F, round: F -> int)

  /** A kernel designed at `up` times the source rate, decimated by `down`. */
  datatype Filter<!F> = Filter(arith: Arith<F>, h: seq<F>, up: nat, down: nat) {
    ghost predicate Valid() {
      up >= 1 && down >= 1 && |h| >= 1
    }
  }

  // ---------------------------------------------------------------- integer arithmetic

  /** Go's integer division: the quotient is truncated toward zero. */
  function TruncDiv(a: int, b: int): int
    requires b > 0
  {
    if a >= 0 then a / b else -((-a) / b)
  }

  lemma {:induction false} DivBounds(a: int, b: int)
    requires b > 0
    ensures (a / b) * b <= a < (a / b) * b + b
  {}

  lemma {:induction false} MulMono(a: int, b: int, k: int)
    requires a <= b && k >= 0
    ensures a * k <= b * k
  {}

  lemma {:induction false} MulStrict(a: int, b: int, k: int)
    requires a * k < b * k && k > 0
    ensures a < b
  {
    if b <= a { MulMono(b, a, k); }
  }

  /** `i <= a / b` without the division. */
  lemma {:induction false} AtMostQuotient(i: int, a: int, b: int)
    requires b > 0
    ensures i <= a / b <==> i * b <= a
  {
    DivBounds(a, b);
    if i <= a / b {
      MulMono(i, a / b, b);
    } else {
      MulMono(a / b + 1, i, b);
      assert (a / b + 1) * b == (a / b) * b + b;
    }
  }

  // ---------------------------------------------------------------- samples and bytes

  function Clamp16(v: int): (s: int)
    ensures -32768 <= s <= 32767
  {
    if v > 32767 then 32767 else if v < -32768 then -32768 else v
  }

  function EncodeSample(s: int): (bs: seq<Byte>)
    requires -32768 <= s <= 32767
    ensures |bs| == 2 && DecodeSample(bs[0], bs[1]) == s
  {
    var u := if s < 0 then s + 65536 else s;
    [u % 256, u / 256]
  }

  /** The samples of a byte stream, as the filter computes with them. */
  function Samples<F>(f: Filter<F>, bytes: seq<Byte>): (x: seq<F>)
    ensures |x| == |bytes| / 2 && forall i :: 0 <= i < |x| ==> x[i] == f.arith.ofInt(Decoded(bytes)[i])
  {
    var ints := Decoded(bytes);
    seq(|ints|, i requires 0 <= i < |ints| => f.arith.ofInt(ints[i]))
  }

  lemma {:induction false} SamplesAppendPair<F>(f: Filter<F>, bytes: seq<Byte>, lo: Byte, hi: Byte)
    requires |bytes| % 2 == 0
    ensures Samples(f, bytes + [lo, hi]) == Samples(f, bytes) + [f.arith.ofInt(DecodeSample(lo, hi))]
  {
    hide Decoded, DecodeSample;
    DecodedAppendPair(bytes, lo, hi);
  }

  lemma {:induction false} SamplesDropOdd<F>(f: Filter<F>, bytes: seq<Byte>, b: Byte)
    requires |bytes| % 2 == 0
    ensures Samples(f, bytes + [b]) == Samples(f, bytes)
  {
    hide Decoded;
    DecodedDropOdd(bytes, b);
  }

  lemma {:induction false} SamplesPrefix<F>(f: Filter<F>, a: seq<Byte>, b: seq<Byte>)
    ensures Samples(f, a) <= Samples(f, a + b)
  {
    hide Decoded;
    DecodedPrefix(a, b);
  }

  /** The byte that completes a split sample decodes with the one before it. */
  lemma {:induction false} PairCompleted<F>(f: Filter<F>, bytes: seq<Byte>, lo: Byte, hi: Byte)
    requires |bytes| % 2 == 1 && bytes[|bytes| - 1] == lo
    ensures Samples(f, bytes + [hi]) == Samples(f, bytes) + [f.arith.ofInt(DecodeSample(lo, hi))]
  {
    hide Samples, DecodeSample;
    var whole := bytes[..|bytes| - 1];
    SamplesDropOdd(f, whole, lo);
    SamplesAppendPair(f, whole, lo, hi);
    assert bytes == whole + [lo] && bytes + [hi] == whole + [lo, hi];
  }

  lemma {:induction false} AppendTaken(before: seq<Byte>, chunk: seq<Byte>, i: nat)
    requires i + 2 <= |chunk|
    ensures before + chunk[..i + 2] == (before + chunk[..i]) + [chunk[i], chunk[i + 1]]
  {
    assert chunk[..i + 2] == chunk[..i] + [chunk[i], chunk[i + 1]];
  }

  lemma {:induction false} AppendLast(before: seq<Byte>, chunk: seq<Byte>)
    requires |chunk| > 0
    ensures before + chunk == (before + chunk[..|chunk| - 1]) + [chunk[|chunk| - 1]]
  {
    assert chunk == chunk[..|chunk| - 1] + [chunk[|chunk| - 1]];
  }

  // ---------------------------------------------------------------- the reference convolution

  /** Where output `m` is centred, counted in samples at `up` times the source rate. */
  function Center<F>(f: Filter<F>, m: nat): nat
    requires f.Valid()
  {
    m * f.down + (|f.h| - 1) / 2
  }

  /** Input sample `i` meets a tap of the kernel centred at `c`. */
  predicate Hits<F>(f: Filter<F>, c: int, i: int) {
    0 <= c - i * f.up < |f.h|
  }

  /** Convolution at `c` over the first `i` input samples, visited in order; samples past the end
      of `x` are silence. */
  function Acc<F>(f: Filter<F>, x: seq<F>, c: int, i: nat): F {
    if i == 0 then f.arith.zero
    else
      var a := Acc(f, x, c, i - 1);
      if i - 1 < |x| && Hits(f, c, i - 1)
      then f.arith.mulAdd(a, x[i - 1], f.h[c - (i - 1) * f.up])
      else a
  }

  function OutSample<F>(f: Filter<F>, x: seq<F>, m: nat): (s: int)
    requires f.Valid()
    ensures -32768 <= s <= 32767
  {
    Clamp16(f.arith.round(Acc(f, x, Center(f, m), |x|)))
  }

  /** The first `m` output samples, as bytes. */
  function OutBytes<F>(f: Filter<F>, x: seq<F>, m: nat): (out: seq<Byte>)
    requires f.Valid()
    ensures |out| == 2 * m
  {
    if m == 0 then [] else OutBytes(f, x, m - 1) + EncodeSample(OutSample(f, x, m - 1))
  }

  /** Number of outputs for `n` inputs: n*up/down, rounded up. */
  function OutLen<F>(f: Filter<F>, n: nat): (k: nat)
    requires f.Valid()
  {
    AtMostQuotient(0, n * f.up + f.down - 1, f.down);
    (n * f.up + f.down - 1) / f.down
  }

  lemma {:induction false} OutLenMeaning<F>(f: Filter<F>, n: nat, m: nat)
    requires f.Valid()
    ensures m < OutLen(f, n) <==> m * f.down < n * f.up
  {
    AtMostQuotient(m + 1, n * f.up + f.down - 1, f.down);
    assert (m + 1) * f.down == m * f.down + f.down;
  }

  /** What a whole utterance converts to. */
  function Resampled<F>(f: Filter<F>, bytes: seq<Byte>): (out: seq<Byte>)
    requires f.Valid()
    ensures |out| == 2 * OutLen(f, |bytes| / 2)
  {
    OutBytes(f, Samples(f, bytes), OutLen(f, |bytes| / 2))
  }

  // ---------------------------------------------------------------- what the outputs are

  /** Out-of-range values saturate. */
  lemma {:induction false} ClampMeans(v: int)
    ensures -32768 <= v <= 32767 ==> Clamp16(v) == v
    ensures v > 32767 ==> Clamp16(v) == 32767
    ensures v < -32768 ==> Clamp16(v) == -32768
  {}

  /** Output `m` of an utterance, read back from its bytes. */
  lemma {:induction false} ResampledAt<F>(f: Filter<F>, bytes: seq<Byte>, m: nat)
    requires f.Valid() && m * f.down < |bytes| / 2 * f.up
    ensures 2 * m + 1 < |Resampled(f, bytes)|
    ensures Decoded(Resampled(f, bytes))[m] == OutSample(f, Samples(f, bytes), m)
  {
    hide OutSample, Samples, DecodeSample, EncodeSample;
    OutLenMeaning(f, |bytes| / 2, m);
    OutBytesAt(f, Samples(f, bytes), OutLen(f, |bytes| / 2), m);
    DecodedAt(Resampled(f, bytes), m);
  }

  lemma {:induction false} OutBytesAt<F>(f: Filter<F>, x: seq<F>, k: nat, m: nat)
    requires f.Valid() && m < k
    ensures var out := OutBytes(f, x, k); DecodeSample(out[2 * m], out[2 * m + 1]) == OutSample(f, x, m)
  {
    hide OutSample, DecodeSample, EncodeSample;
    if m < k - 1 { OutBytesAt(f, x, k - 1, m); }
  }

  /** Adding `v` with any tap changes nothing, as a sample of silence does. */
  ghost predicate Quiet<F(!new)>(f: Filter<F>, v: F) {
    forall a: F, t: F {:trigger f.arith.mulAdd(a, v, t)} :: f.arith.mulAdd(a, v, t) == a
  }

  lemma {:induction false} AccQuiet<F(!new)>(f: Filter<F>, x: seq<F>, c: int, a: nat, b: nat)
    requires a <= b && forall j :: a <= j < b && j < |x| ==> Quiet(f, x[j])
    ensures Acc(f, x, c, a) == Acc(f, x, c, b)
    decreases b
  {
    if a < b { AccQuiet(f, x, c, a, b - 1); }
  }

  /** The response to one sample in silence: sample `i` meets, in output `m`, the tap that lies
      `m` output periods past the middle of the kernel and `i` input periods before, if there is one. */
  lemma {:induction false} ImpulseResponse<F(!new)>(f: Filter<F>, bytes: seq<Byte>, i: nat, m: nat)
    requires f.Valid() && |f.h| % 2 == 1 && i < |bytes| / 2 && m * f.down < |bytes| / 2 * f.up
    requires forall j :: 0 <= j < |bytes| / 2 && j != i ==> Quiet(f, f.arith.ofInt(Decoded(bytes)[j]))
    ensures 2 * m + 1 < |Resampled(f, bytes)|
    ensures var t := m * f.down - i * f.up + |f.h| / 2;
            var v := f.arith.round(if 0 <= t < |f.h| then f.arith.mulAdd(f.arith.zero, f.arith.ofInt(Decoded(bytes)[i]), f.h[t])
                                   else f.arith.zero);
            Decoded(Resampled(f, bytes))[m] == if v > 32767 then 32767 else if v < -32768 then -32768 else v
  {
    hide Resampled, Decoded;
    var x := Samples(f, bytes);
    ResampledAt(f, bytes, m);
    OneSample(f, x, i, m * f.down + |f.h| / 2);
    hide Acc, Samples;
  }

  lemma {:induction false} OneSample<F(!new)>(f: Filter<F>, x: seq<F>, i: nat, c: int)
    requires i < |x| && forall j :: 0 <= j < |x| && j != i ==> Quiet(f, x[j])
    ensures var t := c - i * f.up;
            Acc(f, x, c, |x|) == if 0 <= t < |f.h| then f.arith.mulAdd(f.arith.zero, x[i], f.h[t]) else f.arith.zero
  {
    hide Quiet;
    AccQuiet(f, x, c, 0, i);
    AccQuiet(f, x, c, i + 1, |x|);
  }

  /** At equal rates a kernel of one tap, in its middle, that multiplies by one gives the input back. */
  lemma {:induction false} MiddleTapIsIdentity<F(!new)>(f: Filter<F>, bytes: seq<Byte>, i: nat)
    requires f.Valid() && |f.h| % 2 == 1 && f.up == f.down == 1 && i < |bytes| / 2
    requires forall k, a: F, v: F :: 0 <= k < |f.h| && k != |f.h| / 2 ==> f.arith.mulAdd(a, v, f.h[k]) == a
    requires forall v: int :: f.arith.round(f.arith.mulAdd(f.arith.zero, f.arith.ofInt(v), f.h[|f.h| / 2])) == v
    ensures |Resampled(f, bytes)| == 2 * (|bytes| / 2)
    ensures Decoded(Resampled(f, bytes))[i] == Decoded(bytes)[i]
  {
    hide Resampled, Decoded;
    var x := Samples(f, bytes);
    OutLenMeaning(f, |bytes| / 2, |bytes| / 2);
    if |bytes| / 2 > 0 { OutLenMeaning(f, |bytes| / 2, |bytes| / 2 - 1); }
    ResampledAt(f, bytes, i);
    MiddleTap(f, x, i + |f.h| / 2, i, |x|);
    DecodedAt(bytes, i);
    assert f.arith.round(Acc(f, x, Center(f, i), |x|)) == Decoded(bytes)[i];
  }

  lemma {:induction false} MiddleTap<F(!new)>(f: Filter<F>, x: seq<F>, c: int, i: nat, k: nat)
    requires f.up == 1 && c == i + |f.h| / 2 && i < |x| && |f.h| > 0 && k <= |x|
    requires forall k, a: F, v: F :: 0 <= k < |f.h| && k != |f.h| / 2 ==> f.arith.mulAdd(a, v, f.h[k]) == a
    ensures Acc(f, x, c, k) == if k <= i then f.arith.zero else f.arith.mulAdd(f.arith.zero, x[i], f.h[|f.h| / 2])
    decreases k
  {
    if k > 0 { MiddleTap(f, x, c, i, k - 1); }
  }

  // The textbook construction: put up - 1 zeros behind each sample, filter at the higher rate, and
  // keep every down-th value, in time with the middle of the kernel.

  /** The input at `up` times its rate, with `z` between the samples. */
  function Stuffed<F>(x: seq<F>, up: nat, z: F): (y: seq<F>)
    requires up >= 1
    ensures |y| == |x| * up
  {
    if x == [] then [] else Stuffed(x[..|x| - 1], up, z) + [x[|x| - 1]] + seq(up - 1, _ => z)
  }

  /** The first `j` values of `y`, each with the tap of a kernel centred at `c`, added up in order. */
  function Convolved<F>(f: Filter<F>, y: seq<F>, c: int, j: nat): F
    requires j <= |y|
  {
    if j == 0 then f.arith.zero
    else
      var a := Convolved(f, y, c, j - 1);
      if 0 <= c - (j - 1) < |f.h| then f.arith.mulAdd(a, y[j - 1], f.h[c - (j - 1)]) else a
  }

  /** The filter that skips the zeros computes what filtering with them does, if adding a zero adds
      nothing. */
  lemma {:induction false} IsUpsampleFilterDecimate<F(!new)>(f: Filter<F>, bytes: seq<Byte>, z: F, m: nat)
    requires f.Valid() && |f.h| % 2 == 1 && m * f.down < |bytes| / 2 * f.up && Quiet(f, z)
    ensures 2 * m + 1 < |Resampled(f, bytes)|
    ensures var y := Stuffed(Samples(f, bytes), f.up, z);
            var v := f.arith.round(Convolved(f, y, m * f.down + |f.h| / 2, |y|));
            Decoded(Resampled(f, bytes))[m] == if v > 32767 then 32767 else if v < -32768 then -32768 else v
  {
    hide Resampled, Decoded, Samples, Stuffed, Convolved, Acc;
    var x := Samples(f, bytes);
    ResampledAt(f, bytes, m);
    SkippingZeros(f, x, m * f.down + |f.h| / 2, z);
    assert x[..|x|] == x;
  }

  lemma {:induction false} SkippingZeros<F(!new)>(f: Filter<F>, x: seq<F>, c: int, z: F)
    requires f.up >= 1 && Quiet(f, z)
    ensures var y := Stuffed(x, f.up, z); Convolved(f, y, c, |y|) == Acc(f, x, c, |x|)
    decreases |x|
  {
    hide Quiet;
    var y := Stuffed(x, f.up, z);
    if x != [] {
      var most := x[..|x| - 1];
      var front := Stuffed(most, f.up, z);
      SkippingZeros(f, most, c, z);
      AccPrefix(f, most, x, c, |most|);
      MulOneMore(|most|, f.up);
      assert y == front + ([x[|x| - 1]] + seq(f.up - 1, _ => z));
      ConvolvedPrefix(f, front, y, c, |front|);
      assert y[|front|] == x[|x| - 1];
      ConvolvedZeros(f, y, c, z, |front| + 1, |y|);
    }
  }

  lemma {:induction false} MulOneMore(n: nat, k: nat)
    ensures (n + 1) * k == n * k + k
  {}

  lemma {:induction false} ConvolvedPrefix<F>(f: Filter<F>, y: seq<F>, y': seq<F>, c: int, j: nat)
    requires y <= y' && j <= |y|
    ensures Convolved(f, y, c, j) == Convolved(f, y', c, j)
  {
    if j > 0 { ConvolvedPrefix(f, y, y', c, j - 1); }
  }

  lemma {:induction false} ConvolvedZeros<F(!new)>(f: Filter<F>, y: seq<F>, c: int, z: F, a: nat, b: nat)
    requires a <= b <= |y| && Quiet(f, z) && forall j :: a <= j < b ==> y[j] == z
    ensures Convolved(f, y, c, a) == Convolved(f, y, c, b)
    decreases b
  {
    if a < b { ConvolvedZeros(f, y, c, z, a, b - 1); }
  }

  // ---------------------------------------------------------------- the filter window

  lemma {:induction false} AccSilent<F>(f: Filter<F>, x: seq<F>, c: int, a: nat, b: nat)
    requires a <= b
    requires forall i :: a <= i < b && i < |x| ==> !Hits(f, c, i)
    ensures Acc(f, x, c, a) == Acc(f, x, c, b)
    decreases b
  {
    if a < b { AccSilent(f, x, c, a, b - 1); }
  }

  lemma {:induction false} AccPrefix<F>(f: Filter<F>, x: seq<F>, y: seq<F>, c: int, i: nat)
    requires i <= |x| <= |y| && x <= y
    ensures Acc(f, x, c, i) == Acc(f, y, c, i)
  {
    if i > 0 { AccPrefix(f, x, y, c, i - 1); }
  }

  /** Lowest and highest input the window at `c` can reach, as both programs compute them. */
  function WindowLow<F>(f: Filter<F>, c: int): int
    requires f.Valid()
  {
    TruncDiv(c - |f.h| + 1, f.up)
  }

  function WindowHigh<F>(f: Filter<F>, c: nat): nat
    requires f.Valid()
  {
    AtMostQuotient(0, c, f.up);
    c / f.up
  }

  lemma {:induction false} BelowWindow<F>(f: Filter<F>, c: int, i: nat)
    requires f.Valid() && i < WindowLow(f, c)
    ensures !Hits(f, c, i)
  {
    var t := c - |f.h| + 1;
    if t < 0 {
      DivBounds(-t, f.up);
      if (-t) / f.up < 0 { MulMono((-t) / f.up, -1, f.up); }
      assert false;
    } else {
      AtMostQuotient(i + 1, t, f.up);
      assert (i + 1) * f.up == i * f.up + f.up;
    }
  }

  lemma {:induction false} AboveWindow<F>(f: Filter<F>, c: nat, i: nat)
    requires f.Valid() && i > WindowHigh(f, c)
    ensures !Hits(f, c, i)
  {
    AtMostQuotient(i, c, f.up);
  }

  /** Restricting the sum to [lo, hi] loses nothing. */
  lemma {:induction false} WindowSuffices<F>(f: Filter<F>, x: seq<F>, c: nat, lo: nat, stop: nat)
    requires f.Valid()
    requires lo == 0 || lo <= WindowLow(f, c)
    requires stop > WindowHigh(f, c) || stop >= |x|
    ensures Acc(f, x, c, lo) == f.arith.zero
    ensures Acc(f, x, c, stop) == Acc(f, x, c, |x|)
  {
    forall i | 0 <= i < lo ensures !Hits(f, c, i) { BelowWindow(f, c, i); }
    AccSilent(f, x, c, 0, lo);
    if stop <= |x| {
      forall i | stop <= i < |x| ensures !Hits(f, c, i) { if stop < |x| { AboveWindow(f, c, i); } }
      AccSilent(f, x, c, stop, |x|);
    } else {
      AccSilent(f, x, c, |x|, stop);
    }
  }

  /** An output whose window has fully arrived does not change when more input follows. */
  lemma {:induction false} OutSampleStable<F>(f: Filter<F>, x: seq<F>, y: seq<F>, m: nat)
    requires f.Valid() && x <= y
    requires WindowHigh(f, Center(f, m)) < |x|
    ensures OutSample(f, x, m) == OutSample(f, y, m)
  {
    var c := Center(f, m);
    WindowSuffices(f, y, c, 0, |x|);
    AccPrefix(f, x, y, c, |x|);
  }

  lemma {:induction false} CenterMono<F>(f: Filter<F>, a: nat, b: nat)
    requires f.Valid() && a <= b
    ensures Center(f, a) <= Center(f, b)
    ensures WindowHigh(f, Center(f, a)) <= WindowHigh(f, Center(f, b))
    ensures WindowLow(f, Center(f, a)) <= WindowLow(f, Center(f, b)) || WindowLow(f, Center(f, a)) <= 0
  {
    MulMono(a, b, f.down);
    QuotientMono(Center(f, a), Center(f, b), f.up);
    var s, t := Center(f, a) - |f.h| + 1, Center(f, b) - |f.h| + 1;
    if s >= 0 {
      QuotientMono(s, t, f.up);
    } else {
      AtMostQuotient(0, -s, f.up);
    }
  }

  lemma {:induction false} QuotientMono(a: int, b: int, k: int)
    requires a <= b && k > 0
    ensures a / k <= b / k
  {
    DivBounds(a, k);
    AtMostQuotient(a / k, b, k);
  }

  lemma {:induction false} OutBytesStable<F>(f: Filter<F>, x: seq<F>, y: seq<F>, m: nat)
    requires f.Valid() && x <= y
    requires m == 0 || WindowHigh(f, Center(f, m - 1)) < |x|
    ensures OutBytes(f, x, m) == OutBytes(f, y, m)
  {
    if m > 0 {
      OutSampleStable(f, x, y, m - 1);
      if m > 1 { CenterMono(f, m - 2, m - 1); }
      OutBytesStable(f, x, y, m - 1);
    }
  }

  /** An output whose window has arrived is one the whole utterance also has. */
  lemma {:induction false} ResolvedIsCounted<F>(f: Filter<F>, n: nat, m: nat)
    requires f.Valid() && WindowHigh(f, Center(f, m)) < n
    ensures m < OutLen(f, n)
  {
    AtMostQuotient(n, Center(f, m), f.up);
    OutLenMeaning(f, n, m);
  }

  // ---------------------------------------------------------------- one-shot conversion

  /** Convolution over the window [lo, hi] at `c`: the inner loop of both programs. `hist` holds
      the input from sample `base` on; the one-shot program passes the whole input and 0. */
  method FilterWindow<F>(f: Filter<F>, hist: seq<F>, base: nat, c: nat, lo: nat, hi: int, ghost x: seq<F>)
    returns (acc: F)
    requires f.Valid()
    requires base <= |x| && hist == x[base..]
    requires base <= lo && (lo == 0 || lo <= WindowLow(f, c))
    requires -1 <= hi < |x| && (hi == |x| - 1 || hi >= WindowHigh(f, c))
    ensures acc == Acc(f, x, c, |x|)
  {
    hide WindowLow, WindowHigh;
    acc := f.arith.zero;
    var i := lo;
    WindowSuffices(f, x, c, lo, hi + 1);
    while i <= hi
      invariant lo <= i
      invariant i <= hi + 1 || i == lo
      invariant acc == Acc(f, x, c, i)
      decreases hi - i
    {
      var k := c - i * f.up;
      if 0 <= k < |f.h| {
        acc := f.arith.mulAdd(acc, hist[i - base], f.h[k]);
      }
      i := i + 1;
    }
    WindowSuffices(f, x, c, lo, i);
  }

  method DecodeAll<F>(f: Filter<F>, bytes: seq<Byte>) returns (x: seq<F>)
    ensures x == Samples(f, bytes)
  {
    hide DecodeSample;
    var n := |bytes| / 2;
    x := [];
    for i := 0 to n
      invariant x == Samples(f, bytes[..2 * i])
    {
      assert bytes[..2 * (i + 1)] == bytes[..2 * i] + [bytes[2 * i], bytes[2 * i + 1]];
      SamplesAppendPair(f, bytes[..2 * i], bytes[2 * i], bytes[2 * i + 1]);
      x := x + [f.arith.ofInt(DecodeSample(bytes[2 * i], bytes[2 * i + 1]))];
    }
    if |bytes| % 2 == 0 {
      assert bytes[..2 * n] == bytes;
    } else {
      assert bytes[..2 * n] == bytes[..|bytes| - 1];
    }
  }

  method Resample<F>(f: Filter<F>, bytes: seq<Byte>) returns (out: seq<Byte>)
    requires f.Valid()
    ensures out == Resampled(f, bytes)
  {
    hide Center, Acc, EncodeSample, Samples, Clamp16;
    var n := |bytes| / 2;
    if n == 0 {
      OutLenMeaning(f, 0, 0);
      return [];
    }
    var x := DecodeAll(f, bytes);
    var outN := OutLen(f, n);
    out := [];
    for m := 0 to outN
      invariant out == OutBytes(f, x, m)
    {
      var c := Center(f, m);
      var lo := TruncDiv(c - |f.h| + 1, f.up);
      if lo < 0 { lo := 0; }
      var hi: int := WindowHigh(f, c);
      if hi > n - 1 { hi := n - 1; }
      var acc := FilterWindow(f, x, 0, c, lo, hi, x);
      out := out + EncodeSample(Clamp16(f.arith.round(acc)));
    }
  }

  // ---------------------------------------------------------------- streaming conversion

  lemma {:induction false} OutBytesNext<F>(f: Filter<F>, x: seq<F>, first: nat, m: nat, out: seq<Byte>)
    requires f.Valid()
    requires OutBytes(f, x, m) == OutBytes(f, x, first) + out
    ensures OutBytes(f, x, m + 1) == OutBytes(f, x, first) + (out + EncodeSample(OutSample(f, x, m)))
  {}

  /** The window of output `m` lies within the first `n` samples. */
  ghost predicate Resolved<F>(f: Filter<F>, n: nat, m: nat)
    requires f.Valid()
  {
    WindowHigh(f, Center(f, m)) < n
  }

  /** A history starting at `base` still reaches the window of output `m` and of every later one. */
  ghost predicate Reaches<F>(f: Filter<F>, base: nat, m: nat)
    requires f.Valid()
  {
    base == 0 || base <= WindowLow(f, Center(f, m))
  }

  lemma {:induction false} ReachesNext<F>(f: Filter<F>, base: nat, m: nat)
    requires f.Valid() && Reaches(f, base, m)
    ensures Reaches(f, base, m + 1)
  {
    CenterMono(f, m, m + 1);
  }

  lemma {:induction false} StableUnderAppend<F>(f: Filter<F>, bytes: seq<Byte>, chunk: seq<Byte>, m: nat)
    requires f.Valid() && (m > 0 ==> Resolved(f, |bytes| / 2, m - 1))
    ensures OutBytes(f, Samples(f, bytes), m) == OutBytes(f, Samples(f, bytes + chunk), m)
    ensures m > 0 ==> Resolved(f, |bytes + chunk| / 2, m - 1)
  {
    SamplesPrefix(f, bytes, chunk);
    OutBytesStable(f, Samples(f, bytes), Samples(f, bytes + chunk), m);
  }

  /** A history of `k` samples spans less than one kernel. */
  predicate SpansLessThanKernel<F>(f: Filter<F>, k: nat) {
    k * f.up <= |f.h| + f.up - 2
  }

  /** The streaming form. `written` records the bytes since the last Flush, `input` the samples
      they hold. */
  class StreamResampler<F> {
    const f: Filter<F>
    // The input from sample `base` on.
    var hist: seq<F>
    var base: nat
    // Next output index, and the number of input samples seen.
    var m: nat
    var n: nat
    // The byte that waits for its other half, if `hasCarry`.
    var carry: Byte
    var hasCarry: bool

    ghost var written: seq<Byte>
    ghost var input: seq<F>

    ghost predicate Valid()
      reads this
    {
      && f.Valid()
      && input == Samples(f, written)
      && Holds()
      && Reaches(f, base, m)
      && (m > 0 ==> Resolved(f, n, m - 1))
      && CarryHolds(written)
    }

    /** `hist` is what is left of the input. */
    ghost predicate Holds()
      reads `hist, `base, `n, `input
    {
      n == |input| && base <= n && hist == input[base..] && (n > 0 ==> base < n)
    }

    /** `carry` is the first byte of a sample that `bytes` breaks off in. */
    ghost predicate CarryHolds(bytes: seq<Byte>)
      reads `carry, `hasCarry
    {
      hasCarry == (|bytes| % 2 == 1) && (hasCarry ==> carry == bytes[|bytes| - 1])
    }

    /** The bytes returned since the last Flush. */
    ghost function Returned(): seq<Byte>
      reads this
      requires f.Valid()
    {
      OutBytes(f, input, m)
    }

    constructor (f: Filter<F>)
      requires f.Valid()
      ensures Valid() && this.f == f && written == [] && Returned() == []
    {
      this.f := f;
      hist, base, m, n := [], 0, 0, 0;
      carry, hasCarry := 0, false;
      written, input := [], [];
    }

    method Push(lo: Byte, hi: Byte)
      requires Holds()
      modifies `hist, `n, `input
      ensures Holds() && input == old(input) + [f.arith.ofInt(DecodeSample(lo, hi))]
    {
      hist := hist + [f.arith.ofInt(DecodeSample(lo, hi))];
      n := n + 1;
      input := input + [f.arith.ofInt(DecodeSample(lo, hi))];
    }

    /** Joins the first byte of a chunk to the byte carried over. */
    method CompletePair(b: Byte)
      requires Holds() && input == Samples(f, written) && CarryHolds(written) && hasCarry
      modifies `hist, `n, `input, `hasCarry
      ensures Holds() && input == Samples(f, written + [b]) && !hasCarry
    {
      hide Samples, DecodeSample, Holds;
      PairCompleted(f, written, carry, b);
      Push(carry, b);
      hasCarry := false;
    }

    /** Decodes a chunk onto the history, keeping a split sample's first byte for the next one. */
    method Buffer(chunk: seq<Byte>)
      requires Holds() && input == Samples(f, written) && CarryHolds(written)
      modifies `hist, `n, `input, `carry, `hasCarry, `written
      ensures written == old(written) + chunk
      ensures Holds() && input == Samples(f, written) && CarryHolds(written)
    {
      hide Samples;
      var i := 0;
      if hasCarry && |chunk| > 0 {
        CompletePair(chunk[0]);
        i := 1;
        assert [chunk[0]] == chunk[..1];
      } else {
        assert written + chunk[..0] == written;
      }
      BufferPairs(chunk, i);
      written := written + chunk;
    }

    method BufferPair(lo: Byte, hi: Byte, ghost seen: seq<Byte>)
      requires Holds() && input == Samples(f, seen) && CarryHolds(seen) && !hasCarry
      modifies `hist, `n, `input
      ensures Holds() && input == Samples(f, seen + [lo, hi]) && CarryHolds(seen + [lo, hi])
    {
      hide Samples, DecodeSample, Holds;
      SamplesAppendPair(f, seen, lo, hi);
      Push(lo, hi);
    }

    method BufferPairs(chunk: seq<Byte>, start: nat)
      requires start <= |chunk| && (hasCarry ==> |chunk| == 0)
      requires Holds() && input == Samples(f, written + chunk[..start]) && CarryHolds(written + chunk[..start])
      modifies `hist, `n, `input, `carry, `hasCarry
      ensures Holds() && input == Samples(f, written + chunk) && CarryHolds(written + chunk)
    {
      hide Samples, DecodeSample, Holds;
      var i := start;
      ghost var seen := written + chunk[..i];
      while i + 1 < |chunk|
        invariant start <= i <= |chunk|
        invariant seen == written + chunk[..i]
        invariant Holds() && input == Samples(f, seen) && CarryHolds(seen)
        invariant hasCarry ==> |chunk| == 0
      {
        AppendTaken(written, chunk, i);
        BufferPair(chunk[i], chunk[i + 1], seen);
        i := i + 2;
        seen := written + chunk[..i];
      }
      if i < |chunk| {
        AppendLast(written, chunk);
        SamplesDropOdd(f, seen, chunk[i]);
        carry, hasCarry := chunk[i], true;
      } else {
        assert chunk[..i] == chunk;
      }
    }

    /** Buffers a chunk and returns every output it resolves. The history kept afterwards spans
        less than one kernel. */
    method Write(chunk: seq<Byte>) returns (out: seq<Byte>)
      requires Valid()
      modifies this
      ensures Valid() && written == old(written) + chunk
      ensures Returned() == old(Returned()) + out
      ensures Settled()
      ensures f.down < |f.h| ==> SpansLessThanKernel(f, |hist|)
    {
      hide Samples, OutBytes, WindowHigh, Center;
      StableUnderAppend(f, written, chunk, m);
      Buffer(chunk);
      out := Emit(false);
    }

    /** Ends the stream: everything returned since the last Flush, followed by `out`, is the
        one-shot conversion of everything written. */
    method Flush() returns (out: seq<Byte>)
      requires Valid()
      modifies this
      ensures old(Returned()) + out == Resampled(f, old(written))
      ensures Valid() && written == [] && Returned() == []
    {
      out := Emit(true);
      hist, base, m, n := [], 0, 0, 0;
      carry, hasCarry := 0, false;
      written, input := [], [];
    }

    /** Produces output `m`; with the end of the input known, its window may overhang. */
    method Produce() returns (out: seq<Byte>)
      requires f.Valid() && Holds() && n > 0 && Reaches(f, base, m)
      modifies `m
      ensures m == old(m) + 1 && Reaches(f, base, m)
      ensures out == EncodeSample(OutSample(f, input, old(m)))
    {
      var last := base + |hist| - 1;
      var c := Center(f, m);
      var hi: int := WindowHigh(f, c);
      if hi > last { hi := last; }
      var lo := TruncDiv(c - |f.h| + 1, f.up);
      if lo < 0 { lo := 0; }
      assert base <= lo;  // so the clamp that follows never takes effect
      if lo < base { lo := base; }
      var acc := FilterWindow(f, hist, base, c, lo, hi, input);
      out := EncodeSample(Clamp16(f.arith.round(acc)));
      ReachesNext(f, base, m);
      m := m + 1;
    }

    /** The outputs resolved by the input so far or, at the end of the stream, all of them. */
    method Emit(final: bool) returns (out: seq<Byte>)
      requires f.Valid() && Holds() && Reaches(f, base, m) && (m > 0 ==> Resolved(f, n, m - 1))
      modifies `hist, `base, `m
      ensures Holds() && Reaches(f, base, m)
      ensures OutBytes(f, input, m) == OutBytes(f, input, old(m)) + out
      ensures m <= OutLen(f, n)
      ensures if final then m == OutLen(f, n) else Settled()
      ensures !final && f.down < |f.h| ==> SpansLessThanKernel(f, |hist|)
    {
      hide OutBytes, Center, WindowLow;
      var last := base + |hist| - 1;
      if last < base {
        OutLenMeaning(f, 0, 0);
        assert m == 0;
        return [];
      }
      out := EmitSamples(final);
      Trim();
    }

    /** Exactly the outputs whose window lies within the input have been produced. */
    ghost predicate Settled()
      reads this
      requires f.Valid()
    {
      (m > 0 ==> Resolved(f, n, m - 1)) && (n == 0 || !Resolved(f, n, m))
    }

    method EmitSamples(final: bool) returns (out: seq<Byte>)
      requires f.Valid() && Holds() && n > 0 && Reaches(f, base, m) && (m > 0 ==> Resolved(f, n, m - 1))
      modifies `m
      ensures Reaches(f, base, m)
      ensures OutBytes(f, input, m) == OutBytes(f, input, old(m)) + out
      ensures m <= OutLen(f, n)
      ensures if final then m == OutLen(f, n) else Settled()
    {
      hide OutBytes, Center, WindowLow;
      if m > 0 { ResolvedIsCounted(f, n, m - 1); }
      var outN := OutLen(f, n);
      out := [];
      while true
        invariant Reaches(f, base, m)
        invariant m <= outN
        invariant !final && m > 0 ==> Resolved(f, n, m - 1)
        invariant OutBytes(f, input, m) == OutBytes(f, input, old(m)) + out
        decreases outN - m
      {
        if final && m >= outN { break; }
        if WindowHigh(f, Center(f, m)) > base + |hist| - 1 {
          if !final { break; }
        } else {
          ResolvedIsCounted(f, n, m);
        }
        OutBytesNext(f, input, old(m), m, out);
        var sample := Produce();
        out := out + sample;
      }
    }

    /** Moves `base` up to the low end of the window of output `m`, unless that empties `hist`. */
    method Trim()
      requires f.Valid() && Holds() && n > 0 && Reaches(f, base, m)
      modifies `hist, `base
      ensures Holds() && Reaches(f, base, m)
      ensures f.down < |f.h| && Settled() ==> SpansLessThanKernel(f, |hist|)
    {
      var keepFrom := TruncDiv(Center(f, m) - |f.h| + 1, f.up);
      if f.down < |f.h| && Settled() {
        KeptSpan(f, n, m);
      }
      if keepFrom <= base {
        return;
      }
      var drop := keepFrom - base;
      if drop < |hist| {
        hist := hist[drop..];
        base := keepFrom;
      }
    }
  }

  /** Between two chunks the samples from the next window's low end on are fewer than a kernel
      spans. */
  lemma {:induction false} KeptSpan<F>(f: Filter<F>, n: nat, m: nat)
    requires f.Valid() && f.down < |f.h|
    requires m > 0 ==> Resolved(f, n, m - 1)
    requires !Resolved(f, n, m)
    ensures var low := WindowLow(f, Center(f, m));
            if low <= 0 then SpansLessThanKernel(f, n) else low < n && SpansLessThanKernel(f, n - low)
  {
    hide Center, WindowLow;
    var c := Center(f, m);
    var low := WindowLow(f, c);
    AtMostQuotient(n, c, f.up);
    WindowLowBounds(f, c);
    FirstWindowLow(f);
    if low > 0 {
      CenterStep(f, m - 1);
      AtMostQuotient(n, Center(f, m - 1), f.up);
      MulStrict(low, n, f.up);
      MulSub(n, low, f.up);
    }
  }

  lemma {:induction false} MulSub(a: int, b: int, k: int)
    ensures (a - b) * k == a * k - b * k
  {}

  lemma {:induction false} CenterStep<F>(f: Filter<F>, m: nat)
    requires f.Valid()
    ensures Center(f, m + 1) == Center(f, m) + f.down
  {
    assert (m + 1) * f.down == m * f.down + f.down;
  }

  lemma {:induction false} WindowLowBounds<F>(f: Filter<F>, c: nat)
    requires f.Valid()
    ensures WindowLow(f, c) <= 0 ==> c - |f.h| + 1 < f.up
    ensures WindowLow(f, c) > 0 ==> WindowLow(f, c) * f.up <= c - |f.h| + 1 < WindowLow(f, c) * f.up + f.up
  {
    var t := c - |f.h| + 1;
    if t >= 0 {
      DivBounds(t, f.up);
      AtMostQuotient(1, t, f.up);
    } else {
      AtMostQuotient(0, -t, f.up);
    }
  }

  lemma {:induction false} FirstWindowLow<F>(f: Filter<F>)
    requires f.Valid()
    ensures WindowLow(f, Center(f, 0)) <= 0
  {
    var t := Center(f, 0) - |f.h| + 1;
    assert t <= 0;
    AtMostQuotient(0, -t, f.up);
  }

  /** The provider loop: resample every chunk as it arrives, then flush the tail. However the
      bytes were cut, the caller receives the conversion of the whole utterance. */
  method ResampleChunks<F>(f: Filter<F>, chunks: seq<seq<Byte>>) returns (out: seq<Byte>)
    requires f.Valid()
    ensures out == Resampled(f, Flat(chunks))
  {
    var rs := new StreamResampler(f);
    out := [];
    for i := 0 to |chunks|
      invariant rs.Valid() && rs.f == f && fresh(rs)
      invariant rs.written == Flat(chunks[..i])
      invariant out == rs.Returned()
    {
      var o := rs.Write(chunks[i]);
      out := out + o;
      assert chunks[..i + 1][..i] == chunks[..i];
    }
    assert chunks[..|chunks|] == chunks;
    var tail := rs.Flush();
    out := out + tail;
  }

  /** At the server's settings, 24 kHz to 16 kHz with 193 taps, at most 96 samples are kept. */
  method KeptAtServerSettings<F>(rs: StreamResampler<F>, chunk: seq<Byte>) returns (out: seq<Byte>)
    requires rs.Valid() && rs.f.up == 2 && rs.f.down == 3 && |rs.f.h| == 193
    modifies rs
    ensures rs.Valid() && |rs.hist| <= 96
    ensures rs.Returned() == old(rs.Returned()) + out
  {
    out := rs.Write(chunk);
  }
}
