/** The session version of an `o=` line, which each restart moves on by one (bumpSDPOrigin of
    internal/peer/icerestart.go). Versions are unsigned 64-bit and wrap. */
module SdpOrigin {
  import opened SdpLines
  import opened Whitespace
  import opened Wrappers

  const ORIGIN: string := "o="
  const WIDTH: nat := 0x1_0000_0000_0000_0000

  // ---------------------------------------------------------------- numbers

  predicate IsDigit(c: char) {
    '0' <= c <= '9'
  }

  predicate AllDigits(s: string) {
    forall i :: 0 <= i < |s| ==> IsDigit(s[i])
  }

  function Decimal(s: string): nat
    requires AllDigits(s)
  {
    if s == "" then 0 else
      assert IsDigit(s[|s| - 1]);
      10 * Decimal(s[..|s| - 1]) + (s[|s| - 1] as int - '0' as int)
  }

  /** Base ten, no sign, and no more than 64 bits. */
  function ParseUint(s: string): Option<nat> {
    if s != "" && AllDigits(s) && Decimal(s) < WIDTH then Some(Decimal(s)) else None
  }

  function Digit(d: nat): (c: char)
    requires d < 10
    ensures IsDigit(c) && c as int - '0' as int == d
  {
    ('0' as int + d) as char
  }

  function FormatUint(n: nat): (s: string)
    ensures s != "" && AllDigits(s)
  {
    if n < 10 then [Digit(n)] else FormatUint(n / 10) + [Digit(n % 10)]
  }

  lemma {:induction false} DecimalOfFormat(n: nat)
    ensures Decimal(FormatUint(n)) == n
  {
    if n < 10 {
      assert [Digit(n)][..0] == "";
    } else {
      DecimalOfFormat(n / 10);
      var s := FormatUint(n / 10) + [Digit(n % 10)];
      assert s[..|s| - 1] == FormatUint(n / 10);
    }
  }

  lemma {:induction false} FormatIsWord(n: nat)
    ensures IsWord(FormatUint(n))
  {
    hide FormatUint;
    var s := FormatUint(n);
    forall i | 0 <= i < |s| ensures !IsSpace(s[i]) { assert IsDigit(s[i]); }
  }

  /** Reading a written version gives the number. */
  lemma {:induction false} ParseOfFormat(n: nat)
    requires n < WIDTH
    ensures ParseUint(FormatUint(n)) == Some(n)
  {
    hide FormatUint, Decimal, AllDigits;
    DecimalOfFormat(n);
  }

  /** Decimal digits, the most significant first. */
  lemma {:induction false} DecimalMeans(s: string, d: char)
    requires AllDigits(s) && '0' <= d <= '9'
    ensures AllDigits(s + [d]) && Decimal(s + [d]) == 10 * Decimal(s) + (d as int - '0' as int)
    ensures Decimal("") == 0
  {
    assert (s + [d])[..|s|] == s;
  }

  // ---------------------------------------------------------------- the origin line

  function OriginFields(line: string): seq<string>
    requires ORIGIN <= line
  {
    Fields(line[2..])
  }

  function Version(line: string): Option<nat>
    requires ORIGIN <= line
  {
    var fields := OriginFields(line);
    if |fields| < 6 then None else ParseUint(fields[2])
  }

  /** An origin line has a version if it has six fields and the third is a number of 64 bits. */
  lemma {:induction false} VersionMeans(line: string)
    requires ORIGIN <= line
    ensures var fields := OriginFields(line);
            Version(line).Some? <==> |fields| >= 6 && fields[2] != "" && AllDigits(fields[2]) && Decimal(fields[2]) <= 18446744073709551615
    ensures Version(line).Some? ==> Version(line).value == Decimal(OriginFields(line)[2])
  {}

  function Next(version: nat): (v: nat)
    ensures v < WIDTH
  {
    (version + 1) % WIDTH
  }

  /** The line with its version moved on; a line without one is left alone. */
  function Bump(line: string): string
    requires ORIGIN <= line
  {
    var fields := OriginFields(line);
    if |fields| < 6 then line
    else match ParseUint(fields[2])
      case None => line
      case Some(version) => ORIGIN + JoinSpaces(fields[2 := FormatUint(Next(version))])
  }

  /** Bumping moves the version on by one, in 64 bits, and changes nothing else of the origin. */
  lemma {:induction false} BumpMeans(line: string)
    requires ORIGIN <= line
    ensures ORIGIN <= Bump(line)
    ensures Version(line).None? ==> Bump(line) == line
    ensures Version(line).Some? ==>
              && Version(Bump(line)) == Some((Version(line).value + 1) % 18446744073709551616)
              && OriginFields(Bump(line)) == OriginFields(line)[2 := FormatUint((Version(line).value + 1) % 18446744073709551616)]
  {
    hide Fields, JoinSpaces, ParseUint, FormatUint, IsWord;
    if Version(line).Some? {
      var fields, v := OriginFields(line), Next(Version(line).value);
      var bumped := fields[2 := FormatUint(v)];
      FieldsAreWords(line[2..]);
      FormatIsWord(v);
      FieldsOfJoin(bumped);
      ParseOfFormat(v);
      assert (ORIGIN + JoinSpaces(bumped))[2..] == JoinSpaces(bumped);
    }
  }

  lemma {:induction false} WordIsClean(w: string)
    requires IsWord(w)
    ensures Clean(w)
  {
    assert !IsSpace(w[|w| - 1]);
    forall i | 0 <= i < |w| ensures w[i] != '\n' { assert !IsSpace(w[i]); }
  }

  lemma {:induction false} JoinIsClean(fs: seq<string>)
    requires fs != [] && AllWords(fs)
    ensures Clean(JoinSpaces(fs))
  {
    hide IsWord;
    assert IsWord(fs[0]);
    WordIsClean(fs[0]);
    if |fs| > 1 { JoinIsClean(fs[1..]); }
  }

  /** A bumped line is still one line. */
  lemma {:induction false} BumpIsClean(line: string)
    requires ORIGIN <= line && Clean(line)
    ensures Clean(Bump(line))
  {
    hide Fields, JoinSpaces, ParseUint, FormatUint, IsWord;
    if Version(line).Some? {
      var fields, v := OriginFields(line), Next(Version(line).value);
      var bumped := fields[2 := FormatUint(v)];
      FieldsAreWords(line[2..]);
      FormatIsWord(v);
      JoinIsClean(bumped);
      PrefixIsClean(ORIGIN, JoinSpaces(bumped));
    }
  }

  lemma {:induction false} PrefixIsClean(p: string, l: string)
    requires NoFeed(p) && NoFeed(l) && p != "" && p[|p| - 1] != '\r' && (l == "" || Clean(l))
    ensures Clean(p + l)
  {}

  function BumpTimes(line: string, n: nat): (r: string)
    requires ORIGIN <= line
    ensures ORIGIN <= r
  {
    if n == 0 then line else
      BumpMeans(BumpTimes(line, n - 1));
      Bump(BumpTimes(line, n - 1))
  }

  /** After `n` restarts the version is `n` further on, wrapping at 64 bits. */
  lemma {:induction false} VersionAfter(line: string, n: nat)
    requires ORIGIN <= line
    ensures Version(line).None? ==> BumpTimes(line, n) == line
    ensures Version(line).Some? ==> Version(BumpTimes(line, n)) == Some((Version(line).value + n) % 18446744073709551616)
  {
    hide Version, Bump;
    if n == 0 {
      VersionFits(line);
    } else {
      VersionAfter(line, n - 1);
      BumpMeans(BumpTimes(line, n - 1));
      if Version(line).Some? {
        WrapsAgain(Version(line).value + n - 1);
      }
    }
  }

  lemma {:induction false} VersionFits(line: string)
    requires ORIGIN <= line
    ensures Version(line).Some? ==> Version(line).value < WIDTH
  {}

  lemma {:induction false} WrapsAgain(a: nat)
    ensures (a % WIDTH + 1) % WIDTH == (a + 1) % WIDTH
  {}
}
