/** Writing an ICE restart into an offer and reading it out again, and restarts on the text itself
    (internal/peer/icerestart.go; sections 4.4.1 and 4.4.2 of RFC 9725).

    The fragment a server replies with is written from its own description, by the same function; the
    round trip here composes that function with the rewriting of the client's offer. */
module IceRoundTrip {
  import opened SdpLines
  import opened SdpOrigin
  import opened SdpSections
  import opened IceRestart
  import opened IceFragments

  // ---------------------------------------------------------------- reading a rewritten section

  function NewValue(ice: Ice, kind: Kind): string {
    if kind == Ufrag then ice.ufrag else if kind == Pwd then ice.pwd else ""
  }

  lemma {:induction false} HasCons(lines: seq<string>, kind: Kind)
    requires lines != []
    ensures Has(lines, kind) <==> KindOf(lines[0]) == kind || Has(lines[1..], kind)
  {
    hide KindOf;
    if Has(lines[1..], kind) {
      var i :| 0 <= i < |lines[1..]| && KindOf(lines[1..][i]) == kind;
      assert KindOf(lines[i + 1]) == kind;
    }
    if Has(lines, kind) && KindOf(lines[0]) != kind {
      var i :| 0 <= i < |lines| && KindOf(lines[i]) == kind;
      assert lines[1..][i - 1] == lines[i];
    }
  }

  lemma {:induction false} RenewReads(line: string, ice: Ice, kind: Kind)
    requires kind == Ufrag || kind == Pwd
    ensures FirstValue(Renew(line, ice), kind) == if KindOf(line) == kind then NewValue(ice, kind) else ""
    ensures Candidates(Renew(line, ice)) == []
  {
    RenewKeepsKind(line, ice);
    MadeLine(Ufrag, ice.ufrag);
    MadeLine(Pwd, ice.pwd);
    hide KindOf, ValueOf, Bump;
    var r := Renew(line, ice);
    if r != [] {
      FirstValueOne(r[0], kind);
      CandidatesOne(r[0]);
      assert r == [r[0]];
    }
  }

  lemma {:induction false} RenewedReads(lines: seq<string>, ice: Ice, kind: Kind)
    requires kind == Ufrag || kind == Pwd
    ensures FirstValue(Renewed(lines, ice), kind) == if Has(lines, kind) then NewValue(ice, kind) else ""
    ensures Candidates(Renewed(lines, ice)) == []
  {
    hide KindOf, ValueOf, Renew;
    if lines != [] {
      RenewReads(lines[0], ice, kind);
      RenewedReads(lines[1..], ice, kind);
      HasCons(lines, kind);
      FirstValueConcat(Renew(lines[0], ice), Renewed(lines[1..], ice), kind);
      CandidatesConcat(Renew(lines[0], ice), Renewed(lines[1..], ice));
    }
  }

  lemma {:induction false} CandidateLineReads(c: string, kind: Kind)
    requires kind == Ufrag || kind == Pwd
    ensures FirstValue([CANDIDATE + c], kind) == "" && Candidates([CANDIDATE + c]) == [c]
  {
    MadeLine(Candidate, c);
    hide KindOf, ValueOf;
    FirstValueOne(CANDIDATE + c, kind);
    CandidatesOne(CANDIDATE + c);
  }

  lemma {:induction false} NothingReads(kind: Kind)
    ensures FirstValue([], kind) == "" && Candidates([]) == []
  {}

  lemma {:induction false} CandidateLinesRead(candidates: seq<string>, kind: Kind)
    requires kind == Ufrag || kind == Pwd
    ensures FirstValue(CandidateLines(candidates), kind) == "" && Candidates(CandidateLines(candidates)) == candidates
  {
    hide KindOf, ValueOf, FirstValue, Candidates;
    NothingReads(kind);
    if candidates != [] {
      var most, c := candidates[..|candidates| - 1], candidates[|candidates| - 1];
      CandidateLinesRead(most, kind);
      CandidateLineReads(c, kind);
      FirstValueConcat(CandidateLines(most), [CANDIDATE + c], kind);
      CandidatesConcat(CandidateLines(most), [CANDIDATE + c]);
    }
  }

  lemma {:induction false} ClosedRead(candidates: seq<string>, kind: Kind)
    requires kind == Ufrag || kind == Pwd
    ensures var closed := CandidateLines(candidates) + [END_OF_CANDIDATES];
            FirstValue(closed, kind) == "" && Candidates(closed) == candidates
  {
    EndLineKind();
    hide KindOf, ValueOf, CandidateLines;
    CandidateLinesRead(candidates, kind);
    FirstValueOne(END_OF_CANDIDATES, kind);
    CandidatesOne(END_OF_CANDIDATES);
    FirstValueConcat(CandidateLines(candidates), [END_OF_CANDIDATES], kind);
    CandidatesConcat(CandidateLines(candidates), [END_OF_CANDIDATES]);
  }

  lemma {:induction false} BlockReads(candidates: seq<string>, kind: Kind)
    requires kind == Ufrag || kind == Pwd
    ensures FirstValue(Block(candidates), kind) == "" && Candidates(Block(candidates)) == candidates
  {
    hide FirstValue, Candidates;
    if candidates == [] {
      CandidateLinesRead(candidates, kind);
      assert CandidateLines([]) + [] == CandidateLines([]);
    } else {
      ClosedRead(candidates, kind);
    }
  }

  /** The first section of a rewritten offer reads as the new values, wherever it had old ones. */
  lemma {:induction false} RewrittenReads(lines: seq<string>, ice: Ice, kind: Kind)
    requires kind == Ufrag || kind == Pwd
    ensures var head := Head(Rewritten(lines, ice));
            && FirstValue(head, kind) == (if Has(Head(lines), kind) then NewValue(ice, kind) else "")
            && Candidates(head) == ice.candidates
  {
    hide FirstValue, Candidates, Renewed, Block, Head, Tail, Rewritten, Has;
    RewrittenParts(lines, ice);
    RenewedReads(Head(lines), ice, kind);
    BlockReads(ice.candidates, kind);
    FirstValueConcat(Renewed(Head(lines), ice), Block(ice.candidates), kind);
    CandidatesConcat(Renewed(Head(lines), ice), Block(ice.candidates));
  }

  // ---------------------------------------------------------------- reading a fragment back

  lemma {:induction false} OptionalReads(from: Kind, value: string, kind: Kind)
    requires Attribute(from) && (kind == Ufrag || kind == Pwd)
    ensures FirstValue(Optional(PrefixOf(from), value), kind) == if from == kind then value else ""
    ensures from != Candidate ==> Candidates(Optional(PrefixOf(from), value)) == []
  {
    MadeLine(from, value);
    hide KindOf, ValueOf;
    FirstValueOne(PrefixOf(from) + value, kind);
    CandidatesOne(PrefixOf(from) + value);
  }

  lemma {:induction false} MediaReads(mLine: string, kind: Kind)
    requires (mLine == "" || KindOf(mLine) == Media) && (kind == Ufrag || kind == Pwd)
    ensures FirstValue(Optional("", mLine), kind) == "" && Candidates(Optional("", mLine)) == []
  {
    hide KindOf, ValueOf;
    assert "" + mLine == mLine;
    FirstValueOne(mLine, kind);
    CandidatesOne(mLine);
  }

  lemma {:induction false} RenderedReads(ufrag: string, pwd: string, mLine: string, mid: string, candidates: seq<string>, kind: Kind)
    requires (mLine == "" || KindOf(mLine) == Media) && (kind == Ufrag || kind == Pwd)
    ensures var r := Rendered(ufrag, pwd, mLine, mid, candidates);
            FirstValue(r, kind) == (if kind == Ufrag then ufrag else pwd) && Candidates(r) == candidates
  {
    hide KindOf, ValueOf, FirstValue, Candidates, Optional, CandidateLines;
    var u, p, m, d := Optional(UFRAG, ufrag), Optional(PWD, pwd), Optional("", mLine), Optional(MID, mid);
    var c := CandidateLines(candidates) + [END_OF_CANDIDATES];
    OptionalReads(Ufrag, ufrag, kind);
    OptionalReads(Pwd, pwd, kind);
    MediaReads(mLine, kind);
    OptionalReads(Mid, mid, kind);
    ClosedRead(candidates, kind);
    ReadTwo(u, p, kind);
    ReadTwo(u + p, m, kind);
    ReadTwo(u + p + m, d, kind);
    ReadTwo(u + p + m + d, c, kind);
  }

  lemma {:induction false} ReadTwo(a: seq<string>, b: seq<string>, kind: Kind)
    ensures FirstValue(a + b, kind) == if FirstValue(a, kind) != "" then FirstValue(a, kind) else FirstValue(b, kind)
    ensures Candidates(a + b) == Candidates(a) + Candidates(b)
  {
    FirstValueConcat(a, b, kind);
    CandidatesConcat(a, b);
  }

  lemma {:induction false} FirstMediaIsMedia(lines: seq<string>)
    ensures FirstMedia(lines) == "" || KindOf(FirstMedia(lines)) == Media
  {
    hide KindOf;
    if lines != [] { FirstMediaIsMedia(lines[1..]); }
  }

  /** A fragment written for a description reads as the first section of that description. */
  lemma {:induction false} FragmentReads(lines: seq<string>)
    ensures Parsed(Fragment(lines)) == Parsed(Head(lines))
  {
    hide FirstValue, Candidates, FirstMedia, Head, Rendered, KindOf;
    var head := Head(lines);
    FirstMediaIsMedia(lines);
    RenderedReads(FirstValue(head, Ufrag), FirstValue(head, Pwd), FirstMedia(lines), FirstValue(head, Mid), Candidates(head), Ufrag);
    RenderedReads(FirstValue(head, Ufrag), FirstValue(head, Pwd), FirstMedia(lines), FirstValue(head, Mid), Candidates(head), Pwd);
  }

  // ---------------------------------------------------------------- text that is lines

  /** Empty, or what a line can end with. */
  predicate CleanValue(v: string) {
    v == "" || Clean(v)
  }

  predicate CleanIce(ice: Ice) {
    Clean(ice.ufrag) && Clean(ice.pwd) && forall i :: 0 <= i < |ice.candidates| ==> CleanValue(ice.candidates[i])
  }

  lemma {:induction false} AttributeLine(line: string)
    requires Attribute(KindOf(line))
    ensures PrefixOf(KindOf(line)) + ValueOf(line) == line
  {
    PrefixIsKind(line, KindOf(line));
    hide KindOf, PrefixOf;
    var p := PrefixOf(KindOf(line));
    assert line == p + line[|p|..];
  }

  lemma {:induction false} ValueIsClean(line: string)
    requires Clean(line) && Attribute(KindOf(line))
    ensures CleanValue(ValueOf(line))
  {
    AttributeLine(line);
    hide KindOf, ValueOf;
    var p, v := PrefixOf(KindOf(line)), ValueOf(line);
    forall i | 0 <= i < |v| ensures v[i] != '\n' { assert line[|p| + i] == v[i]; }
    if v != "" { assert line[|line| - 1] == v[|v| - 1]; }
  }

  lemma {:induction false} FirstValueIsClean(lines: seq<string>, kind: Kind)
    requires AllClean(lines) && Attribute(kind)
    ensures CleanValue(FirstValue(lines, kind))
  {
    hide KindOf, ValueOf, Clean;
    if lines != [] {
      if KindOf(lines[0]) == kind { ValueIsClean(lines[0]); }
      FirstValueIsClean(lines[1..], kind);
    }
  }

  lemma {:induction false} CandidatesAreClean(lines: seq<string>)
    requires AllClean(lines)
    ensures forall i :: 0 <= i < |Candidates(lines)| ==> CleanValue(Candidates(lines)[i])
  {
    hide KindOf, ValueOf, Clean, CleanValue;
    if lines != [] {
      if KindOf(lines[0]) == Candidate { ValueIsClean(lines[0]); }
      CandidatesAreClean(lines[1..]);
    }
  }

  /** Whatever a client sends, what is parsed from it can be written into an offer and read again. */
  lemma {:induction false} ParsedIsClean(fragment: string)
    ensures Parsed(Lines(fragment)).Ok? ==> CleanIce(Parsed(Lines(fragment)).value)
  {
    hide KindOf, ValueOf, FirstValue, Candidates, Lines;
    var lines := Lines(fragment);
    LinesAreClean(fragment);
    FirstValueIsClean(lines, Ufrag);
    FirstValueIsClean(lines, Pwd);
    CandidatesAreClean(lines);
  }

  lemma {:induction false} LinePrefixed(kind: Kind, value: string)
    requires kind != Other && CleanValue(value)
    ensures Clean(PrefixOf(kind) + value)
  {
    var p := PrefixOf(kind);
    assert NoFeed(p) && p[|p| - 1] != '\r';
    PrefixIsClean(p, value);
  }

  lemma {:induction false} RenewIsClean(line: string, ice: Ice)
    requires Clean(line) && CleanIce(ice)
    ensures AllClean(Renew(line, ice))
  {
    LinePrefixed(Ufrag, ice.ufrag);
    LinePrefixed(Pwd, ice.pwd);
    if KindOf(line) == Origin { BumpIsClean(line); }
    hide Bump, Clean;
  }

  lemma {:induction false} RenewedIsClean(lines: seq<string>, ice: Ice)
    requires AllClean(lines) && CleanIce(ice)
    ensures AllClean(Renewed(lines, ice))
  {
    hide Renew, Clean, CleanIce;
    if lines != [] {
      RenewIsClean(lines[0], ice);
      RenewedIsClean(lines[1..], ice);
    }
  }

  lemma {:induction false} CandidateLinesAreClean(candidates: seq<string>)
    requires forall i :: 0 <= i < |candidates| ==> CleanValue(candidates[i])
    ensures AllClean(CandidateLines(candidates)) && AllClean(CandidateLines(candidates) + [END_OF_CANDIDATES])
  {
    LinePrefixed(EndOfCandidates, "");
    assert END_OF_CANDIDATES + "" == END_OF_CANDIDATES;
    hide Clean, CleanValue;
    if candidates != [] {
      CandidateLinesAreClean(candidates[..|candidates| - 1]);
      LinePrefixed(Candidate, candidates[|candidates| - 1]);
    }
  }

  lemma {:induction false} RewrittenIsClean(lines: seq<string>, ice: Ice)
    requires AllClean(lines) && CleanIce(ice)
    ensures AllClean(Rewritten(lines, ice))
  {
    hide Renewed, CandidateLines, Clean, CleanValue, MediaAfter;
    RenewedIsClean(Head(lines), ice);
    RenewedIsClean(Tail(lines), ice);
    CandidateLinesAreClean(ice.candidates);
  }

  lemma {:induction false} OptionalIsClean(kind: Kind, value: string)
    requires kind != Other && CleanValue(value)
    ensures AllClean(Optional(PrefixOf(kind), value))
  {
    LinePrefixed(kind, value);
    hide Clean;
  }

  lemma {:induction false} FirstMediaIsClean(lines: seq<string>)
    requires AllClean(lines)
    ensures CleanValue(FirstMedia(lines))
  {
    hide KindOf, Clean;
    if lines != [] { FirstMediaIsClean(lines[1..]); }
  }

  lemma {:induction false} FragmentIsClean(lines: seq<string>)
    requires AllClean(lines)
    ensures AllClean(Fragment(lines))
  {
    hide KindOf, ValueOf, FirstValue, Candidates, FirstMedia, CandidateLines, Clean, MediaAfter, Optional;
    var head := Head(lines);
    FirstValueIsClean(head, Ufrag);
    FirstValueIsClean(head, Pwd);
    FirstValueIsClean(head, Mid);
    FirstMediaIsClean(lines);
    OptionalIsClean(Ufrag, FirstValue(head, Ufrag));
    OptionalIsClean(Pwd, FirstValue(head, Pwd));
    OptionalIsClean(Mid, FirstValue(head, Mid));
    MediaLineIsClean(FirstMedia(lines));
    CandidatesAreClean(head);
    CandidateLinesAreClean(Candidates(head));
  }

  lemma {:induction false} MediaLineIsClean(mLine: string)
    requires CleanValue(mLine)
    ensures AllClean(Optional("", mLine))
  {
    hide Clean;
    assert "" + mLine == mLine;
  }

  // ---------------------------------------------------------------- the round trip on text

  /** Folding what a client sent into its offer, and reading the fragment of that offer, gives back
      exactly what the client sent if the offer has both credential lines before its second media
      section, and is refused otherwise. */
  lemma {:induction false} RestartRoundTrip(sdp: string, fragment: string)
    requires Parsed(Lines(fragment)).Ok?
    ensures var sent := Parsed(Lines(fragment));
            var written := Text(Fragment(Lines(RewrittenText(sdp, sent.value))));
            var head := Head(Lines(sdp));
            Parsed(Lines(written)) == if Has(head, Ufrag) && Has(head, Pwd) then sent else NoCredentials
  {
    hide Lines, Text, Fragment, Head, FirstValue, Candidates, Rewritten, Has, AllClean;
    var sent, lines := Parsed(Lines(fragment)), Lines(sdp);
    ParsedIsClean(fragment);
    LinesAreClean(sdp);
    RewrittenIsClean(lines, sent.value);
    TextRoundTrip(Rewritten(lines, sent.value));
    FragmentIsClean(Rewritten(lines, sent.value));
    TextRoundTrip(Fragment(Rewritten(lines, sent.value)));
    FragmentReads(Rewritten(lines, sent.value));
    RewrittenReads(lines, sent.value, Ufrag);
    RewrittenReads(lines, sent.value, Pwd);
  }

  /** On text too, a second restart leaves no trace of the first but the origin's version. */
  lemma {:induction false} SecondRestart(sdp: string, a: Ice, b: Ice)
    requires CleanIce(a)
    ensures RewrittenText(RewrittenText(sdp, a), b) == Text(Rewritten(Bumped(Lines(sdp)), b))
  {
    hide Lines, Text, Rewritten, AllClean, CleanIce, Bumped;
    LinesAreClean(sdp);
    RewrittenIsClean(Lines(sdp), a);
    TextRoundTrip(Rewritten(Lines(sdp), a));
    RewrittenTwice(Lines(sdp), a, b);
  }

  /** And on text everything that is neither ICE nor the origin keeps its content and its order. */
  lemma {:induction false} RewriteKeepsTheRest(sdp: string, ice: Ice)
    requires CleanIce(ice)
    ensures Others(Lines(RewrittenText(sdp, ice))) == Others(Lines(sdp))
  {
    hide Lines, Text, Rewritten, AllClean, CleanIce, Others;
    LinesAreClean(sdp);
    RewrittenIsClean(Lines(sdp), ice);
    TextRoundTrip(Rewritten(Lines(sdp), ice));
    RewriteKeepsOthers(Lines(sdp), ice);
  }
}
