/** The sdpfrag bodies of an ICE restart: read from the client, written for the server
    (ParseICEFragment and iceFragmentFromSDP of internal/peer/icerestart.go; RFC 8840). */
module IceFragments {
  import opened SdpLines
  import opened SdpOrigin
  import opened SdpSections
  import opened IceRestart

  // ---------------------------------------------------------------- reading

  /** The first credentials that are not empty and all candidates; both credentials are needed. */
  function Parsed(lines: seq<string>): Result<Ice> {
    var ufrag, pwd := FirstValue(lines, Ufrag), FirstValue(lines, Pwd);
    if ufrag == "" || pwd == "" then NoCredentials else Ok(Ice(ufrag, pwd, Candidates(lines)))
  }

  lemma {:induction false} ReadNext(lines: seq<string>, i: nat)
    requires i < |lines|
    ensures forall kind :: FirstValue(lines[..i + 1], kind) ==
                           if FirstValue(lines[..i], kind) != "" then FirstValue(lines[..i], kind)
                           else if KindOf(lines[i]) == kind then ValueOf(lines[i]) else ""
    ensures Candidates(lines[..i + 1]) ==
            Candidates(lines[..i]) + if KindOf(lines[i]) == Candidate then [ValueOf(lines[i])] else []
  {
    hide KindOf, ValueOf, FirstValue, Candidates;
    assert lines[..i + 1] == lines[..i] + [lines[i]];
    forall kind
      ensures FirstValue(lines[..i + 1], kind) ==
              if FirstValue(lines[..i], kind) != "" then FirstValue(lines[..i], kind)
              else if KindOf(lines[i]) == kind then ValueOf(lines[i]) else ""
    {
      FirstValueConcat(lines[..i], [lines[i]], kind);
      FirstValueOne(lines[i], kind);
    }
    CandidatesConcat(lines[..i], [lines[i]]);
    CandidatesOne(lines[i]);
  }

  lemma {:induction false} ReadNone(lines: seq<string>)
    ensures forall kind :: FirstValue(lines[..0], kind) == ""
    ensures Candidates(lines[..0]) == [] && MediaCount(lines[..0]) == 0 && FirstMedia(lines[..0]) == ""
  {}

  lemma {:induction false} Prefixed(line: string)
    ensures UFRAG <= line <==> KindOf(line) == Ufrag
    ensures PWD <= line <==> KindOf(line) == Pwd
    ensures CANDIDATE <= line <==> KindOf(line) == Candidate
    ensures MID <= line <==> KindOf(line) == Mid
    ensures MEDIA <= line <==> KindOf(line) == Media
    ensures UFRAG <= line ==> ValueOf(line) == line[|UFRAG|..]
    ensures PWD <= line ==> ValueOf(line) == line[|PWD|..]
    ensures CANDIDATE <= line ==> ValueOf(line) == line[|CANDIDATE|..]
    ensures MID <= line ==> ValueOf(line) == line[|MID|..]
  {
    PrefixIsKind(line, Ufrag);
    PrefixIsKind(line, Pwd);
    PrefixIsKind(line, Candidate);
    PrefixIsKind(line, Mid);
  }

  method ParseLines(lines: seq<string>) returns (r: Result<Ice>)
    ensures r == Parsed(lines)
  {
    hide KindOf, ValueOf, FirstValue, Candidates;
    ReadNone(lines);
    var ufrag, pwd := "", "";
    var candidates := [];
    for i := 0 to |lines|
      invariant ufrag == FirstValue(lines[..i], Ufrag)
      invariant pwd == FirstValue(lines[..i], Pwd)
      invariant candidates == Candidates(lines[..i])
    {
      var line := lines[i];
      ReadNext(lines, i);
      Prefixed(line);
      if UFRAG <= line {
        if ufrag == "" {
          ufrag := line[|UFRAG|..];
        }
      } else if PWD <= line {
        if pwd == "" {
          pwd := line[|PWD|..];
        }
      } else if CANDIDATE <= line {
        candidates := candidates + [line[|CANDIDATE|..]];
      }
    }
    assert lines[..|lines|] == lines;
    r := if ufrag == "" || pwd == "" then NoCredentials else Ok(Ice(ufrag, pwd, candidates));
  }

  method ParseIceFragment(fragment: string) returns (r: Result<Ice>)
    ensures r == Parsed(Lines(fragment))
  {
    hide Lines, Parsed;
    var lines := SplitLines(fragment);
    r := ParseLines(lines);
  }

  // ---------------------------------------------------------------- writing

  function Optional(prefix: string, value: string): seq<string> {
    if value == "" then [] else [prefix + value]
  }

  /** Credentials, the first media line with its mid, and the candidates of the first section. */
  function Rendered(ufrag: string, pwd: string, mLine: string, mid: string, candidates: seq<string>): seq<string> {
    Optional(UFRAG, ufrag) + Optional(PWD, pwd) + Optional("", mLine) + Optional(MID, mid)
    + (CandidateLines(candidates) + [END_OF_CANDIDATES])
  }

  function Fragment(lines: seq<string>): seq<string> {
    var head := Head(lines);
    Rendered(FirstValue(head, Ufrag), FirstValue(head, Pwd), FirstMedia(lines), FirstValue(head, Mid), Candidates(head))
  }

  /** The fragment of a description: credentials and mid if its first section has them, its first media
      line, all candidates of that section, and the line that closes them. */
  lemma {:induction false} FragmentMeans(lines: seq<string>)
    ensures var head := Head(lines);
            var u, p, d, c := FirstValue(head, Ufrag), FirstValue(head, Pwd), FirstValue(head, Mid), Candidates(head);
            Fragment(lines) ==
            (if u == "" then [] else ["a=ice-ufrag:" + u]) + (if p == "" then [] else ["a=ice-pwd:" + p])
            + (if FirstMedia(head) == "" then [] else [FirstMedia(head)]) + (if d == "" then [] else ["a=mid:" + d])
            + (seq(|c|, i requires 0 <= i < |c| => "a=candidate:" + c[i]) + ["a=end-of-candidates"])
  {
    hide FirstValue, Candidates, Head, FirstMedia, CandidateLines;
    var c := Candidates(Head(lines));
    MediaInHead(lines);
    CandidateLinesAt(c);
    assert CandidateLines(c) == seq(|c|, i requires 0 <= i < |c| => "a=candidate:" + c[i]);
    var m := FirstMedia(lines);
    assert "" + m == m;
  }

  lemma {:induction false} MediaInHead(lines: seq<string>)
    ensures FirstMedia(Head(lines)) == FirstMedia(lines)
  {
    hide KindOf;
    PartsOf(lines);
    FirstMediaIn(Head(lines), Tail(lines));
  }

  lemma {:induction false} FirstMediaIn(a: seq<string>, b: seq<string>)
    requires b == [] || MediaCount(a) == 1
    ensures FirstMedia(a + b) == FirstMedia(a)
  {
    hide KindOf;
    if a == [] {
      assert a + b == b;
    } else if KindOf(a[0]) != Media {
      assert (a + b)[1..] == a[1..] + b;
      FirstMediaIn(a[1..], b);
    }
  }

  /** The first media line is the first line that starts a section. */
  lemma {:induction false} FirstMediaMeans(lines: seq<string>)
    ensures if exists i :: 0 <= i < |lines| && "m=" <= lines[i]
            then exists i :: 0 <= i < |lines| && "m=" <= lines[i] && FirstMedia(lines) == lines[i]
                             && forall j :: 0 <= j < i ==> !("m=" <= lines[j])
            else FirstMedia(lines) == ""
  {
    if lines != [] {
      KindMeans(lines[0]);
      hide KindOf;
      FirstMediaMeans(lines[1..]);
      if KindOf(lines[0]) != Media {
        if i :| 0 <= i < |lines[1..]| && "m=" <= lines[1..][i] && FirstMedia(lines[1..]) == lines[1..][i]
                && forall j :: 0 <= j < i ==> !("m=" <= lines[1..][j])
        {
          assert lines[i + 1] == lines[1..][i];
          assert forall j :: 1 <= j < i + 1 ==> lines[j] == lines[1..][j - 1];
        } else {
          assert forall j :: 1 <= j < |lines| ==> lines[j] == lines[1..][j - 1];
        }
      }
    }
  }

  method AppendOptional(before: seq<string>, prefix: string, value: string) returns (out: seq<string>)
    ensures out == before + Optional(prefix, value)
  {
    out := before;
    if value != "" {
      out := out + [prefix + value];
    }
  }

  method AppendAll(before: seq<string>, candidates: seq<string>) returns (out: seq<string>)
    ensures out == before + CandidateLines(candidates)
  {
    out := before;
    for i := 0 to |candidates|
      invariant out == before + CandidateLines(candidates[..i])
    {
      assert candidates[..i + 1][..i] == candidates[..i];
      out := out + [CANDIDATE + candidates[i]];
    }
    assert candidates[..|candidates|] == candidates;
  }

  method Render(ufrag: string, pwd: string, mLine: string, mid: string, candidates: seq<string>) returns (out: seq<string>)
    ensures out == Rendered(ufrag, pwd, mLine, mid, candidates)
  {
    hide Optional, CandidateLines;
    out := AppendOptional([], UFRAG, ufrag);
    out := AppendOptional(out, PWD, pwd);
    out := AppendOptional(out, "", mLine);
    out := AppendOptional(out, MID, mid);
    out := AppendAll(out, candidates);
    out := out + [END_OF_CANDIDATES];
  }

  /** The lines of the first section among the first `i`. */
  function HeadUpTo(lines: seq<string>, i: nat): seq<string>
    requires i <= |lines|
  {
    lines[..if i < MediaAfter(lines, 1) then i else MediaAfter(lines, 1)]
  }

  lemma {:induction false} FirstMediaNext(lines: seq<string>, i: nat)
    requires i < |lines|
    ensures FirstMedia(lines[..i + 1]) ==
            if MediaCount(lines[..i]) > 0 then FirstMedia(lines[..i])
            else if KindOf(lines[i]) == Media then lines[i] else ""
    ensures MediaCount(lines[..i]) == 0 ==> FirstMedia(lines[..i]) == ""
  {
    hide KindOf;
    assert lines[..i + 1][0] == lines[0];
    assert i > 0 ==> lines[..i + 1][1..] == lines[1..][..i];
    if i == 0 {
      assert lines[..1][1..] == [];
    } else {
      assert lines[..i][1..] == lines[1..][..i - 1];
      FirstMediaNext(lines[1..], i - 1);
    }
  }

  /** What the reading loop knows after `i` lines. */
  ghost predicate Seen(lines: seq<string>, i: nat, mediaIndex: int, ufrag: string, pwd: string, mLine: string, mid: string,
                       candidates: seq<string>)
    requires i <= |lines|
  {
    var head := HeadUpTo(lines, i);
    && mediaIndex == MediaCount(lines[..i]) - 1
    && ufrag == FirstValue(head, Ufrag) && pwd == FirstValue(head, Pwd) && mid == FirstValue(head, Mid)
    && mLine == FirstMedia(lines[..i]) && candidates == Candidates(head)
  }

  /** A line that is not a media line belongs to the head exactly while at most one has gone by. */
  lemma {:induction false} HeadNext(lines: seq<string>, i: nat)
    requires i < |lines|
    ensures MediaCount(lines[..i]) <= 1 && KindOf(lines[i]) != Media ==> HeadUpTo(lines, i) == lines[..i] && HeadUpTo(lines, i + 1) == lines[..i + 1]
    ensures MediaCount(lines[..i]) == 0 ==> HeadUpTo(lines, i) == lines[..i] && HeadUpTo(lines, i + 1) == lines[..i + 1]
    ensures MediaCount(lines[..i]) > 1 || (MediaCount(lines[..i]) == 1 && KindOf(lines[i]) == Media) ==> HeadUpTo(lines, i + 1) == HeadUpTo(lines, i)
  {
    hide KindOf, MediaCount, MediaAfter;
    CountNext(lines, i);
    MediaAfterCounts(lines, 1, i);
    MediaAfterCounts(lines, 1, i + 1);
  }

  method ReadOne(line: string, ufrag: string, pwd: string, mid: string, candidates: seq<string>)
    returns (ufrag': string, pwd': string, mid': string, candidates': seq<string>)
    ensures ufrag' == if ufrag == "" && KindOf(line) == Ufrag then ValueOf(line) else ufrag
    ensures pwd' == if pwd == "" && KindOf(line) == Pwd then ValueOf(line) else pwd
    ensures mid' == if mid == "" && KindOf(line) == Mid then ValueOf(line) else mid
    ensures candidates' == candidates + if KindOf(line) == Candidate then [ValueOf(line)] else []
  {
    hide KindOf, ValueOf;
    Prefixed(line);
    ufrag', pwd', mid', candidates' := ufrag, pwd, mid, candidates;
    if UFRAG <= line {
      if ufrag == "" {
        ufrag' := line[|UFRAG|..];
      }
    } else if PWD <= line {
      if pwd == "" {
        pwd' := line[|PWD|..];
      }
    } else if MID <= line {
      if mid == "" {
        mid' := line[|MID|..];
      }
    } else if CANDIDATE <= line {
      candidates' := candidates + [line[|CANDIDATE|..]];
    }
  }

  method FragmentOfLines(lines: seq<string>) returns (out: seq<string>)
    ensures out == Fragment(lines)
  {
    hide KindOf, ValueOf, FirstValue, Candidates, FirstMedia, HeadUpTo, MediaCount, Rendered;
    var ufrag, pwd, mLine, mid := "", "", "", "";
    var candidates := [];
    var mediaIndex := -1;
    ReadNone(lines);
    HeadAtEnds(lines);
    for i := 0 to |lines|
      invariant Seen(lines, i, mediaIndex, ufrag, pwd, mLine, mid, candidates)
    {
      var line := lines[i];
      ReadNext(lines, i);
      CountNext(lines, i);
      HeadNext(lines, i);
      FirstMediaNext(lines, i);
      Prefixed(line);
      if MEDIA <= line {
        mediaIndex := mediaIndex + 1;
        if mediaIndex == 0 {
          mLine := line;
        }
        continue;
      }
      if mediaIndex > 0 {
        continue;
      }
      ufrag, pwd, mid, candidates := ReadOne(line, ufrag, pwd, mid, candidates);
    }
    out := Render(ufrag, pwd, mLine, mid, candidates);
  }

  lemma {:induction false} HeadAtEnds(lines: seq<string>)
    ensures HeadUpTo(lines, 0) == lines[..0] && HeadUpTo(lines, |lines|) == Head(lines) && lines[..|lines|] == lines
  {}

  method IceFragmentFromSdp(sdp: string) returns (r: string)
    ensures r == Text(Fragment(Lines(sdp)))
  {
    hide Lines, Fragment, Ended;
    var lines := SplitLines(sdp);
    var out := FragmentOfLines(lines);
    r := if out == [] then "\r\n" else Ended(out);
  }
}
