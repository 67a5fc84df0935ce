/** Bytes as they come off the wire, and the 16-bit samples they hold (internal/audio/rtp.go). */
module Bytes {
  import opened Sequences

  type Byte = b: int | 0 <= b < 256

  function DecodeSample(lo: Byte, hi: Byte): (s: int)
    ensures -32768 <= s <= 32767
  {
    var u := lo + 256 * hi;
    if u >= 32768 then u - 65536 else u
  }

  /** Two bytes, the low one first, are a signed 16-bit number. */
  lemma {:induction false} DecodeSampleMeans(lo: Byte, hi: Byte)
    ensures hi < 128 ==> DecodeSample(lo, hi) == lo + 256 * hi
    ensures hi >= 128 ==> DecodeSample(lo, hi) == lo + 256 * hi - 65536
  {}

  /** The little-endian samples of a byte stream; an odd trailing byte is not a sample. */
  function Decoded(bytes: seq<Byte>): (x: seq<int>)
    ensures |x| == |bytes| / 2
  {
    if |bytes| < 2 then []
    else if |bytes| % 2 == 1 then Decoded(bytes[..|bytes| - 1])
    else Decoded(bytes[..|bytes| - 2]) + [DecodeSample(bytes[|bytes| - 2], bytes[|bytes| - 1])]
  }

  lemma {:induction false} DecodedAppendPair(bytes: seq<Byte>, lo: Byte, hi: Byte)
    requires |bytes| % 2 == 0
    ensures Decoded(bytes + [lo, hi]) == Decoded(bytes) + [DecodeSample(lo, hi)]
  {
    hide DecodeSample;
    assert (bytes + [lo, hi])[..|bytes|] == bytes;
  }

  lemma {:induction false} DecodedDropOdd(bytes: seq<Byte>, b: Byte)
    requires |bytes| % 2 == 0
    ensures Decoded(bytes + [b]) == Decoded(bytes)
  {
    hide DecodeSample;
    assert (bytes + [b])[..|bytes|] == bytes;
  }

  /** Decoding can start over after any whole number of samples. */
  lemma {:induction false} DecodedConcat(a: seq<Byte>, b: seq<Byte>)
    requires |a| % 2 == 0
    ensures Decoded(a + b) == Decoded(a) + Decoded(b)
    decreases |b|
  {
    hide Decoded, DecodeSample;
    if b == [] {
      NothingDecoded();
      assert a + b == a;
    } else if |b| % 2 == 1 {
      var most, last := b[..|b| - 1], b[|b| - 1];
      DecodedConcat(a, most);
      SplitOff(a, b, most, [last]);
      DecodedDropOdd(a + most, last);
      DecodedDropOdd(most, last);
    } else {
      var most, lo, hi := b[..|b| - 2], b[|b| - 2], b[|b| - 1];
      DecodedConcat(a, most);
      SplitOff(a, b, most, [lo, hi]);
      DecodedAppendPair(a + most, lo, hi);
      DecodedAppendPair(most, lo, hi);
      Reassociate(Decoded(a), Decoded(most), [DecodeSample(lo, hi)]);
    }
  }

  /** Sample `i` is made of bytes 2i and 2i + 1. */
  lemma {:induction false} DecodedAt(bytes: seq<Byte>, i: nat)
    requires 2 * i + 1 < |bytes|
    ensures Decoded(bytes)[i] == DecodeSample(bytes[2 * i], bytes[2 * i + 1])
    decreases |bytes|
  {
    hide DecodeSample;
    if |bytes| % 2 == 1 {
      DecodedAt(bytes[..|bytes| - 1], i);
    } else if 2 * i + 2 < |bytes| {
      DecodedAt(bytes[..|bytes| - 2], i);
    }
  }

  lemma {:induction false} SplitOff(a: seq<Byte>, b: seq<Byte>, most: seq<Byte>, end: seq<Byte>)
    requires |b| == |most| + |end| && most == b[..|most|] && end == b[|most|..]
    ensures b == most + end && a + b == (a + most) + end
  {
    Reassociate(a, most, end);
  }

  lemma {:induction false} NothingDecoded()
    ensures Decoded([]) == []
  {}

  /** More bytes only append samples. */
  lemma {:induction false} DecodedPrefix(a: seq<Byte>, b: seq<Byte>)
    ensures Decoded(a) <= Decoded(a + b)
  {
    hide Decoded;
    if |a| % 2 == 0 {
      DecodedConcat(a, b);
    } else {
      var whole, last := a[..|a| - 1], a[|a| - 1];
      assert a == whole + [last] && a + b == whole + ([last] + b);
      DecodedDropOdd(whole, last);
      DecodedConcat(whole, [last] + b);
    }
  }
}
