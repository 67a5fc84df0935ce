/** Folding an ICE restart into a stored offer, and the fragments that carry one
    (internal/peer/icerestart.go; section 4.4.2 of RFC 9725). */
module IceRestart {
  import opened SdpLines
  import opened SdpOrigin
  import opened SdpSections

  datatype Ice = Ice(ufrag: string, pwd: string, candidates: seq<string>)
  datatype Result<T> = Ok(value: T) | NoCredentials

  // ---------------------------------------------------------------- the rewritten offer

  function CandidateLines(candidates: seq<string>): seq<string> {
    if candidates == [] then []
    else CandidateLines(candidates[..|candidates| - 1]) + [CANDIDATE + candidates[|candidates| - 1]]
  }

  /** The new candidates, closed off when there are any. */
  function Block(candidates: seq<string>): seq<string> {
    CandidateLines(candidates) + if candidates == [] then [] else [END_OF_CANDIDATES]
  }

  /** What one line of the old offer becomes, away from the place where candidates go. */
  function Renew(line: string, ice: Ice): seq<string> {
    match KindOf(line)
    case Origin => [Bump(line)]
    case Ufrag => [UFRAG + ice.ufrag]
    case Pwd => [PWD + ice.pwd]
    case Candidate => []
    case EndOfCandidates => []
    case _ => [line]
  }

  function Renewed(lines: seq<string>, ice: Ice): seq<string> {
    if lines == [] then [] else Renew(lines[0], ice) + Renewed(lines[1..], ice)
  }

  /** Every line renewed in its place, and the new candidates at the end of the first section. */
  function Rewritten(lines: seq<string>, ice: Ice): seq<string> {
    Renewed(Head(lines), ice) + Block(ice.candidates) + Renewed(Tail(lines), ice)
  }

  lemma {:induction false} RenewedConcat(a: seq<string>, b: seq<string>, ice: Ice)
    ensures Renewed(a + b, ice) == Renewed(a, ice) + Renewed(b, ice)
  {
    hide Renew;
    if a == [] {
      assert a + b == b;
    } else {
      assert (a + b)[1..] == a[1..] + b;
      RenewedConcat(a[1..], b, ice);
    }
  }

  lemma {:induction false} RenewedOne(line: string, ice: Ice)
    ensures Renewed([line], ice) == Renew(line, ice)
  {
    hide Renew;
    assert [line][1..] == [];
  }

  /** What becomes of a line: new credentials, the next origin, no old candidates, the rest as it was. */
  lemma {:induction false} RenewMeans(line: string, ice: Ice)
    ensures Renew(line, ice) ==
            if "a=ice-ufrag:" <= line then ["a=ice-ufrag:" + ice.ufrag]
            else if "a=ice-pwd:" <= line then ["a=ice-pwd:" + ice.pwd]
            else if "a=candidate:" <= line || line == "a=end-of-candidates" then []
            else if "o=" <= line then [Bump(line)] else [line]
  {
    KindMeans(line);
    hide KindOf, Bump;
  }

  /** Line by line, where there were no candidates: the same lines in the same places. */
  lemma {:induction false} RenewedAt(lines: seq<string>, ice: Ice, i: nat)
    requires i < |lines|
    requires forall j :: 0 <= j < |lines| ==> KindOf(lines[j]) != Candidate && KindOf(lines[j]) != EndOfCandidates
    ensures |Renewed(lines, ice)| == |lines| && Renew(lines[i], ice) == [Renewed(lines, ice)[i]]
  {
    hide KindOf, Bump;
    assert |Renew(lines[0], ice)| == 1;
    if |lines| > 1 { RenewedAt(lines[1..], ice, if i > 0 then i - 1 else 0); }
  }

  /** And old candidates go without a trace. */
  function WithoutCandidates(lines: seq<string>): seq<string> {
    if lines == [] then []
    else (if "a=candidate:" <= lines[0] || lines[0] == "a=end-of-candidates" then [] else [lines[0]]) + WithoutCandidates(lines[1..])
  }

  lemma {:induction false} RenewedDropsCandidates(lines: seq<string>, ice: Ice)
    ensures Renewed(lines, ice) == Renewed(WithoutCandidates(lines), ice)
    ensures forall j :: 0 <= j < |WithoutCandidates(lines)| ==>
              KindOf(WithoutCandidates(lines)[j]) != Candidate && KindOf(WithoutCandidates(lines)[j]) != EndOfCandidates
  {
    hide KindOf, Renew;
    if lines != [] {
      KindMeans(lines[0]);
      RenewMeans(lines[0], ice);
      RenewedDropsCandidates(lines[1..], ice);
      var rest := WithoutCandidates(lines[1..]);
      if WithoutCandidates(lines) != rest {
        assert WithoutCandidates(lines) == [lines[0]] + rest && ([lines[0]] + rest)[1..] == rest;
      }
    }
  }

  /** The new candidates in their order, and a line that closes them if there are any. */
  lemma {:induction false} BlockMeans(candidates: seq<string>)
    ensures |Block(candidates)| == if candidates == [] then 0 else |candidates| + 1
    ensures forall i :: 0 <= i < |candidates| ==> Block(candidates)[i] == "a=candidate:" + candidates[i]
    ensures candidates != [] ==> Block(candidates)[|candidates|] == "a=end-of-candidates"
  {
    CandidateLinesAt(candidates);
  }

  lemma {:induction false} CandidateLinesAt(candidates: seq<string>)
    ensures |CandidateLines(candidates)| == |candidates|
    ensures forall i :: 0 <= i < |candidates| ==> CandidateLines(candidates)[i] == "a=candidate:" + candidates[i]
  {
    if candidates != [] { CandidateLinesAt(candidates[..|candidates| - 1]); }
  }

  // ---------------------------------------------------------------- the loop that writes it

  /** What has been written after `i` lines: the candidates go in on the way out of the first section. */
  function Written(lines: seq<string>, ice: Ice, i: nat): seq<string>
    requires i <= |lines|
  {
    var k := MediaAfter(lines, 1);
    if i <= k then Renewed(lines[..i], ice)
    else Renewed(lines[..k], ice) + Block(ice.candidates) + Renewed(lines[k..i], ice)
  }

  lemma {:induction false} RenewedNext(lines: seq<string>, ice: Ice, k: nat, i: nat)
    requires k <= i < |lines|
    ensures Renewed(lines[k..i + 1], ice) == Renewed(lines[k..i], ice) + Renew(lines[i], ice)
  {
    hide Renew, Renewed;
    assert lines[k..i + 1] == lines[k..i] + [lines[i]];
    RenewedConcat(lines[k..i], [lines[i]], ice);
    RenewedOne(lines[i], ice);
  }

  lemma {:induction false} WrittenNext(lines: seq<string>, ice: Ice, i: nat)
    requires i < |lines|
    ensures Written(lines, ice, i + 1) ==
            Written(lines, ice, i) + (if i == MediaAfter(lines, 1) then Block(ice.candidates) else []) + Renew(lines[i], ice)
  {
    hide Renew, Renewed, Block;
    var k := MediaAfter(lines, 1);
    if i < k {
      RenewedNext(lines, ice, 0, i);
      assert lines[..i] == lines[0..i] && lines[..i + 1] == lines[0..i + 1];
    } else {
      RenewedNext(lines, ice, k, i);
      if i == k { NothingRenewed(lines, k, ice); }
    }
  }

  lemma {:induction false} NothingRenewed(lines: seq<string>, k: nat, ice: Ice)
    requires k <= |lines|
    ensures Renewed(lines[k..k], ice) == []
  {}

  lemma {:induction false} WrittenAll(lines: seq<string>, ice: Ice)
    ensures Written(lines, ice, |lines|) + (if MediaCount(lines) <= 1 then Block(ice.candidates) else []) == Rewritten(lines, ice)
  {
    hide Renew, Block, MediaCount, MediaAfter;
    MediaAfterCounts(lines, 1, |lines|);
    assert lines[..|lines|] == lines;
    var k := MediaAfter(lines, 1);
    assert lines[k..|lines|] == lines[k..];
    if k == |lines| { assert lines[k..] == []; }
  }

  /** The candidates go in exactly when a media line closes the first section. */
  lemma {:induction false} LeavingFirst(lines: seq<string>, i: nat)
    requires i < |lines|
    ensures i == MediaAfter(lines, 1) <==> KindOf(lines[i]) == Media && MediaCount(lines[..i]) == 1
  {
    hide KindOf, MediaCount, MediaAfter;
    CountNext(lines, i);
    MediaAfterCounts(lines, 1, i);
    MediaAfterCounts(lines, 1, i + 1);
    MediaAfterIsMedia(lines, 1);
  }

  method AppendCandidates(before: seq<string>, candidates: seq<string>) returns (out: seq<string>)
    ensures out == before + Block(candidates)
  {
    out := before;
    for i := 0 to |candidates|
      invariant out == before + CandidateLines(candidates[..i])
    {
      assert candidates[..i + 1][..i] == candidates[..i];
      out := out + [CANDIDATE + candidates[i]];
    }
    assert candidates[..|candidates|] == candidates;
    if |candidates| > 0 {
      out := out + [END_OF_CANDIDATES];
    }
  }

  method AppendRenewed(before: seq<string>, line: string, ice: Ice) returns (out: seq<string>)
    ensures out == before + Renew(line, ice)
  {
    out := before;
    if MEDIA <= line {
      out := out + [line];
    } else if ORIGIN <= line {
      out := out + [Bump(line)];
    } else if UFRAG <= line {
      out := out + [UFRAG + ice.ufrag];
    } else if PWD <= line {
      out := out + [PWD + ice.pwd];
    } else if CANDIDATE <= line || line == END_OF_CANDIDATES {
      // The previous generation, dropped.
    } else {
      out := out + [line];
    }
  }

  method RewriteLines(lines: seq<string>, ice: Ice) returns (out: seq<string>)
    ensures out == Rewritten(lines, ice)
  {
    hide Written, Rewritten, Renew, Block, MediaAfter, MediaCount;
    out := [];
    var mediaIndex := -1;
    var inserted := false;
    WrittenNone(lines, ice);
    for i := 0 to |lines|
      invariant mediaIndex == MediaCount(lines[..i]) - 1
      invariant inserted == (mediaIndex >= 1)
      invariant out == Written(lines, ice, i)
    {
      WrittenNext(lines, ice, i);
      LeavingFirst(lines, i);
      CountNext(lines, i);
      if MEDIA <= lines[i] {
        if mediaIndex == 0 {
          out := AppendCandidates(out, ice.candidates);
          inserted := true;
        }
        mediaIndex := mediaIndex + 1;
      }
      out := AppendRenewed(out, lines[i], ice);
    }
    WrittenAll(lines, ice);
    assert lines[..|lines|] == lines;
    if !inserted {
      out := AppendCandidates(out, ice.candidates);
    }
  }

  lemma {:induction false} WrittenNone(lines: seq<string>, ice: Ice)
    ensures Written(lines, ice, 0) == [] && MediaCount(lines[..0]) == 0
  {}

  function RewrittenText(sdp: string, ice: Ice): string {
    Text(Rewritten(Lines(sdp), ice))
  }

  method RewriteIceForRestart(sdp: string, ice: Ice) returns (r: string)
    ensures r == RewrittenText(sdp, ice)
  {
    hide Lines, Rewritten, Ended;
    var lines := SplitLines(sdp);
    var out := RewriteLines(lines, ice);
    r := if out == [] then "\r\n" else Ended(out);
  }

  // ---------------------------------------------------------------- what a rewrite keeps and replaces

  /** Lines a restart has no business with: neither the origin nor ICE. */
  predicate Untouched(kind: Kind) {
    kind == Media || kind == Mid || kind == Other
  }

  function Others(lines: seq<string>): seq<string> {
    if lines == [] then []
    else (if Untouched(KindOf(lines[0])) then [lines[0]] else []) + Others(lines[1..])
  }

  lemma {:induction false} OthersConcat(a: seq<string>, b: seq<string>)
    ensures Others(a + b) == Others(a) + Others(b)
  {
    hide KindOf, Untouched;
    if a == [] {
      assert a + b == b;
    } else {
      assert (a + b)[1..] == a[1..] + b;
      OthersConcat(a[1..], b);
    }
  }

  lemma {:induction false} OthersOne(line: string)
    ensures Others([line]) == if Untouched(KindOf(line)) then [line] else []
  {
    hide KindOf, Untouched;
    assert [line][1..] == [];
  }

  lemma {:induction false} BumpStaysOrigin(line: string)
    requires KindOf(line) == Origin
    ensures KindOf(Bump(line)) == Origin
  {
    hide Bump;
    BumpMeans(line);
    assert Bump(line)[0] == ORIGIN[0];
  }

  /** What a line becomes keeps its kind, and only old candidates disappear. */
  lemma {:induction false} RenewKeepsKind(line: string, ice: Ice)
    ensures var r := Renew(line, ice);
            if KindOf(line) == Candidate || KindOf(line) == EndOfCandidates then r == []
            else |r| == 1 && KindOf(r[0]) == KindOf(line)
  {
    hide KindOf, Bump;
    match KindOf(line)
    case Origin => BumpStaysOrigin(line);
    case Ufrag => MadeLine(Ufrag, ice.ufrag);
    case Pwd => MadeLine(Pwd, ice.pwd);
    case _ =>
  }

  lemma {:induction false} RenewKeepsOthers(line: string, ice: Ice)
    ensures Others(Renew(line, ice)) == Others([line])
  {
    OthersOne(line);
    RenewKeepsKind(line, ice);
    hide KindOf, Bump;
    if Renew(line, ice) != [] {
      OthersOne(Renew(line, ice)[0]);
      assert Renew(line, ice) == [Renew(line, ice)[0]];
    }
  }

  lemma {:induction false} RenewedKeepsOthers(lines: seq<string>, ice: Ice)
    ensures Others(Renewed(lines, ice)) == Others(lines)
  {
    hide KindOf, Renew, Untouched;
    if lines != [] {
      RenewKeepsOthers(lines[0], ice);
      RenewedKeepsOthers(lines[1..], ice);
      OthersConcat(Renew(lines[0], ice), Renewed(lines[1..], ice));
      OthersConcat([lines[0]], lines[1..]);
      assert [lines[0]] + lines[1..] == lines;
    }
  }

  lemma {:induction false} BlockHasNoOthers(candidates: seq<string>)
    ensures Others(Block(candidates)) == []
  {
    EndLineKind();
    OthersOne(END_OF_CANDIDATES);
    CandidateLinesHaveNoOthers(candidates);
    hide KindOf, CandidateLines;
    OthersConcat(CandidateLines(candidates), [END_OF_CANDIDATES]);
    assert CandidateLines(candidates) + [] == CandidateLines(candidates);
  }

  lemma {:induction false} CandidateLinesHaveNoOthers(candidates: seq<string>)
    ensures Others(CandidateLines(candidates)) == []
  {
    hide KindOf;
    if candidates != [] {
      var most, c := candidates[..|candidates| - 1], candidates[|candidates| - 1];
      CandidateLinesHaveNoOthers(most);
      MadeLine(Candidate, c);
      OthersOne(CANDIDATE + c);
      OthersConcat(CandidateLines(most), [CANDIDATE + c]);
    }
  }

  /** Everything that is neither ICE nor the origin keeps its content and its order. */
  lemma {:induction false} RewriteKeepsOthers(lines: seq<string>, ice: Ice)
    ensures Others(Rewritten(lines, ice)) == Others(lines)
  {
    hide Others, Renewed, Block, Head, Tail;
    PartsOf(lines);
    RenewedKeepsOthers(Head(lines), ice);
    RenewedKeepsOthers(Tail(lines), ice);
    BlockHasNoOthers(ice.candidates);
    OthersConcat(Head(lines), Tail(lines));
    OthersConcat(Renewed(Head(lines), ice), Block(ice.candidates));
    OthersConcat(Renewed(Head(lines), ice) + Block(ice.candidates), Renewed(Tail(lines), ice));
  }

  // ---------------------------------------------------------------- rewriting what was rewritten

  /** The offer with its origin moved on, and nothing else changed. */
  function BumpOrigin(line: string): string {
    if KindOf(line) == Origin then Bump(line) else line
  }

  function Bumped(lines: seq<string>): (r: seq<string>)
    ensures |r| == |lines|
  {
    if lines == [] then [] else [BumpOrigin(lines[0])] + Bumped(lines[1..])
  }

  lemma {:induction false} BumpOriginKeepsKind(line: string)
    ensures KindOf(BumpOrigin(line)) == KindOf(line)
  {
    hide KindOf, Bump;
    if KindOf(line) == Origin { BumpStaysOrigin(line); }
  }

  lemma {:induction false} BumpedConcat(a: seq<string>, b: seq<string>)
    ensures Bumped(a + b) == Bumped(a) + Bumped(b)
  {
    hide BumpOrigin;
    if a == [] {
      assert a + b == b;
    } else {
      assert (a + b)[1..] == a[1..] + b;
      BumpedConcat(a[1..], b);
    }
  }

  lemma {:induction false} BumpedKeepsMedia(lines: seq<string>)
    ensures MediaCount(Bumped(lines)) == MediaCount(lines)
    ensures lines != [] ==> KindOf(Bumped(lines)[0]) == KindOf(lines[0])
  {
    hide BumpOrigin, KindOf;
    if lines != [] {
      BumpOriginKeepsKind(lines[0]);
      BumpedKeepsMedia(lines[1..]);
    }
  }

  lemma {:induction false} BumpedParts(lines: seq<string>)
    ensures Head(Bumped(lines)) == Bumped(Head(lines)) && Tail(Bumped(lines)) == Bumped(Tail(lines))
  {
    hide Bumped, KindOf, MediaCount, Head, Tail;
    PartsOf(lines);
    BumpedConcat(Head(lines), Tail(lines));
    BumpedKeepsMedia(Head(lines));
    BumpedKeepsMedia(Tail(lines));
    HeadOfParts(Bumped(Head(lines)), Bumped(Tail(lines)));
  }

  lemma {:induction false} RenewTwice(line: string, a: Ice, b: Ice)
    ensures Renewed(Renew(line, a), b) == Renew(BumpOrigin(line), b)
  {
    RenewKeepsKind(line, a);
    BumpOriginKeepsKind(line);
    hide KindOf, Bump;
    if Renew(line, a) != [] {
      RenewedOne(Renew(line, a)[0], b);
      assert Renew(line, a) == [Renew(line, a)[0]];
    }
  }

  lemma {:induction false} RenewedTwice(lines: seq<string>, a: Ice, b: Ice)
    ensures Renewed(Renewed(lines, a), b) == Renewed(Bumped(lines), b)
  {
    hide Renew, BumpOrigin;
    if lines != [] {
      RenewTwice(lines[0], a, b);
      RenewedTwice(lines[1..], a, b);
      RenewedConcat(Renew(lines[0], a), Renewed(lines[1..], a), b);
      assert Bumped(lines)[1..] == Bumped(lines[1..]);
    }
  }

  lemma {:induction false} RenewKeepsMedia(line: string, ice: Ice)
    ensures MediaCount(Renew(line, ice)) == if KindOf(line) == Media then 1 else 0
  {
    RenewKeepsKind(line, ice);
    hide KindOf;
    var r := Renew(line, ice);
    if r != [] { assert r[1..] == []; }
  }

  lemma {:induction false} RenewedKeepsMedia(lines: seq<string>, ice: Ice)
    ensures MediaCount(Renewed(lines, ice)) == MediaCount(lines)
    ensures lines != [] && KindOf(lines[0]) == Media ==> Renewed(lines, ice) != [] && Renewed(lines, ice)[0] == lines[0]
  {
    hide Renew, KindOf;
    if lines != [] {
      RenewKeepsMedia(lines[0], ice);
      RenewedKeepsMedia(lines[1..], ice);
      CountConcat(Renew(lines[0], ice), Renewed(lines[1..], ice));
      if KindOf(lines[0]) == Media { RenewMedia(lines[0], ice); }
    }
  }

  lemma {:induction false} RenewMedia(line: string, ice: Ice)
    requires KindOf(line) == Media
    ensures Renew(line, ice) == [line]
  {}

  /** No line of the new candidates starts a section or would survive another restart. */
  lemma {:induction false} BlockIsTransient(candidates: seq<string>, b: Ice)
    ensures MediaCount(Block(candidates)) == 0 && Renewed(Block(candidates), b) == []
  {
    EndLineKind();
    CandidateLinesAreTransient(candidates, b);
    RenewKeepsMedia(END_OF_CANDIDATES, b);
    RenewKeepsKind(END_OF_CANDIDATES, b);
    RenewedOne(END_OF_CANDIDATES, b);
    hide KindOf, Renewed, CandidateLines, Renew;
    RenewedConcat(CandidateLines(candidates), [END_OF_CANDIDATES], b);
    CountConcat(CandidateLines(candidates), [END_OF_CANDIDATES]);
    assert [END_OF_CANDIDATES][1..] == [];
    assert CandidateLines(candidates) + [] == CandidateLines(candidates);
  }

  lemma {:induction false} CandidateLinesAreTransient(candidates: seq<string>, b: Ice)
    ensures MediaCount(CandidateLines(candidates)) == 0 && Renewed(CandidateLines(candidates), b) == []
  {
    hide KindOf, Renew;
    if candidates != [] {
      var most, c := candidates[..|candidates| - 1], candidates[|candidates| - 1];
      CandidateLinesAreTransient(most, b);
      MadeLine(Candidate, c);
      RenewKeepsKind(CANDIDATE + c, b);
      RenewedOne(CANDIDATE + c, b);
      RenewedConcat(CandidateLines(most), [CANDIDATE + c], b);
      CountConcat(CandidateLines(most), [CANDIDATE + c]);
      assert [CANDIDATE + c][1..] == [];
    }
  }

  /** The sections of a rewritten offer: its first one ends with the new candidates. */
  lemma {:induction false} RewrittenParts(lines: seq<string>, ice: Ice)
    ensures Head(Rewritten(lines, ice)) == Renewed(Head(lines), ice) + Block(ice.candidates)
    ensures Tail(Rewritten(lines, ice)) == Renewed(Tail(lines), ice)
  {
    hide Renewed, Block, KindOf, MediaCount, Head, Tail;
    var head, tail := Head(lines), Tail(lines);
    PartsOf(lines);
    RenewedKeepsMedia(head, ice);
    RenewedKeepsMedia(tail, ice);
    BlockIsTransient(ice.candidates, ice);
    CountConcat(Renewed(head, ice), Block(ice.candidates));
    if tail == [] { RenewedNothing(ice); }
    HeadOfParts(Renewed(head, ice) + Block(ice.candidates), Renewed(tail, ice));
  }

  lemma {:induction false} RenewedNothing(ice: Ice)
    ensures Renewed([], ice) == []
  {}

  /** Rewriting a rewritten offer is rewriting the original with the last values, except that the
      origin has moved on twice. */
  lemma {:induction false} RewrittenTwice(lines: seq<string>, a: Ice, b: Ice)
    ensures Rewritten(Rewritten(lines, a), b) == Rewritten(Bumped(lines), b)
  {
    RewrittenParts(lines, a);
    BumpedParts(lines);
    hide Renewed, Block, Rewritten, Head, Tail, Bumped;
    var head, tail := Head(lines), Tail(lines);
    var once := Rewritten(lines, a);
    RenewedTwice(head, a, b);
    RenewedTwice(tail, a, b);
    RenewedConcat(Renewed(head, a), Block(a.candidates), b);
    BlockIsTransient(a.candidates, b);
    RewrittenBy(once, b);
    RewrittenBy(Bumped(lines), b);
  }

  lemma {:induction false} RewrittenBy(lines: seq<string>, ice: Ice)
    ensures Rewritten(lines, ice) == Renewed(Head(lines), ice) + Block(ice.candidates) + Renewed(Tail(lines), ice)
  {}

  /** A whole session of restarts. */
  function Restarts(lines: seq<string>, ices: seq<Ice>): seq<string> {
    if ices == [] then lines else Rewritten(Restarts(lines, ices[..|ices| - 1]), ices[|ices| - 1])
  }

  function BumpedTimes(lines: seq<string>, n: nat): seq<string>
    decreases n
  {
    if n == 0 then lines else BumpedTimes(Bumped(lines), n - 1)
  }

  /** However many restarts there have been, the offer is the original with the last one folded in:
      candidates and credentials never accumulate, and the origin counts the restarts. */
  lemma {:induction false} RestartsAreTheLast(lines: seq<string>, ices: seq<Ice>)
    requires ices != []
    ensures Restarts(lines, ices) == Rewritten(BumpedTimes(lines, |ices| - 1), ices[|ices| - 1])
  {
    hide Rewritten, Bumped;
    var most, last := ices[..|ices| - 1], ices[|ices| - 1];
    if most != [] {
      RestartsAreTheLast(lines, most);
      RewrittenTwice(BumpedTimes(lines, |most| - 1), most[|most| - 1], last);
      BumpedNext(lines, |most| - 1, |most|);
    }
  }

  lemma {:induction false} BumpedNext(lines: seq<string>, n: nat, m: nat)
    requires m == n + 1
    ensures Bumped(BumpedTimes(lines, n)) == BumpedTimes(lines, m)
    decreases n
  {
    hide Bumped;
    if n > 0 { BumpedNext(Bumped(lines), n - 1, m - 1); }
  }

  /** Line by line, `n` bumps of an offer are `n` bumps of its origin. */
  lemma {:induction false} BumpedTimesAt(lines: seq<string>, n: nat, i: nat)
    requires i < |lines|
    ensures |BumpedTimes(lines, n)| == |lines|
    ensures BumpedTimes(lines, n)[i] == if KindOf(lines[i]) == Origin then BumpTimes(lines[i], n) else lines[i]
    decreases n
  {
    hide KindOf, Bump;
    if n > 0 {
      BumpedNext(lines, n - 1, n);
      BumpedTimesAt(lines, n - 1, i);
      BumpedAt(BumpedTimes(lines, n - 1), i);
      if KindOf(lines[i]) == Origin { BumpTimesStaysOrigin(lines[i], n - 1); }
    }
  }

  lemma {:induction false} BumpTimesStaysOrigin(line: string, n: nat)
    requires KindOf(line) == Origin
    ensures KindOf(BumpTimes(line, n)) == Origin
  {
    hide Bump;
    if n > 0 {
      BumpTimesStaysOrigin(line, n - 1);
      BumpStaysOrigin(BumpTimes(line, n - 1));
    }
  }

  lemma {:induction false} BumpedAt(lines: seq<string>, i: nat)
    requires i < |lines|
    ensures Bumped(lines)[i] == BumpOrigin(lines[i])
  {
    hide BumpOrigin;
    if i > 0 { BumpedAt(lines[1..], i - 1); }
  }
}
