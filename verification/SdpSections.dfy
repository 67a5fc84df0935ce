/** Kinds of SDP lines and the sections they fall into (internal/peer/icerestart.go). */
module SdpSections {
  import opened SdpLines
  import opened SdpOrigin

  const MEDIA: string := "m="
  const UFRAG: string := "a=ice-ufrag:"
  const PWD: string := "a=ice-pwd:"
  const CANDIDATE: string := "a=candidate:"
  const MID: string := "a=mid:"
  const END_OF_CANDIDATES: string := "a=end-of-candidates"

  datatype Kind = Media | Origin | Ufrag | Pwd | Candidate | EndOfCandidates | Mid | Other

  function KindOf(line: string): Kind {
    if MEDIA <= line then Media
    else if ORIGIN <= line then Origin
    else if UFRAG <= line then Ufrag
    else if PWD <= line then Pwd
    else if CANDIDATE <= line then Candidate
    else if line == END_OF_CANDIDATES then EndOfCandidates
    else if MID <= line then Mid
    else Other
  }

  function PrefixOf(kind: Kind): string {
    match kind
    case Media => MEDIA
    case Origin => ORIGIN
    case Ufrag => UFRAG
    case Pwd => PWD
    case Candidate => CANDIDATE
    case EndOfCandidates => END_OF_CANDIDATES
    case Mid => MID
    case Other => ""
  }

  /** What follows the prefix that makes the line one of its kind. */
  function ValueOf(line: string): string {
    if PrefixOf(KindOf(line)) <= line then line[|PrefixOf(KindOf(line))|..] else ""
  }

  /** A kind that carries a value, so that a line is its prefix followed by it. */
  predicate Attribute(kind: Kind) {
    kind == Ufrag || kind == Pwd || kind == Candidate || kind == Mid
  }

  /** No line is of two kinds, so the order in which the prefixes are tried does not matter. */
  lemma {:induction false} PrefixIsKind(line: string, kind: Kind)
    requires Attribute(kind)
    ensures PrefixOf(kind) <= line <==> KindOf(line) == kind
  {
    if PrefixOf(kind) <= line {
      var p := PrefixOf(kind);
      assert line[0] == p[0] && line[1] == p[1] && line[2] == p[2] && line[3] == p[3];
      assert |p| > 6 ==> line[6] == p[6];
    }
  }

  lemma {:induction false} MadeLine(kind: Kind, value: string)
    requires Attribute(kind)
    ensures KindOf(PrefixOf(kind) + value) == kind && ValueOf(PrefixOf(kind) + value) == value
  {
    PrefixIsKind(PrefixOf(kind) + value, kind);
    hide KindOf;
  }

  lemma {:induction false} EndLineKind()
    ensures KindOf(END_OF_CANDIDATES) == EndOfCandidates
  {
    var e := END_OF_CANDIDATES;
    assert e[0] == 'a' && e[2] == 'e';
  }

  /** What the kinds are. */
  lemma {:induction false} KindMeans(line: string)
    ensures KindOf(line) == Media <==> "m=" <= line
    ensures KindOf(line) == Origin <==> "o=" <= line
    ensures KindOf(line) == Ufrag <==> "a=ice-ufrag:" <= line
    ensures KindOf(line) == Pwd <==> "a=ice-pwd:" <= line
    ensures KindOf(line) == Candidate <==> "a=candidate:" <= line
    ensures KindOf(line) == Mid <==> "a=mid:" <= line
    ensures KindOf(line) == EndOfCandidates <==> line == "a=end-of-candidates"
  {
    PrefixIsKind(line, Ufrag);
    PrefixIsKind(line, Pwd);
    PrefixIsKind(line, Candidate);
    PrefixIsKind(line, Mid);
    if line == END_OF_CANDIDATES { EndLineKind(); }
    assert "m=" <= line ==> line[0] == 'm';
    assert "o=" <= line ==> line[0] == 'o';
  }

  /** And what an attribute's value is. */
  lemma {:induction false} ValueMeans(v: string)
    ensures ValueOf("a=ice-ufrag:" + v) == v && ValueOf("a=ice-pwd:" + v) == v
    ensures ValueOf("a=candidate:" + v) == v && ValueOf("a=mid:" + v) == v
  {
    MadeLine(Ufrag, v);
    MadeLine(Pwd, v);
    MadeLine(Candidate, v);
    MadeLine(Mid, v);
    hide ValueOf;
    assert UFRAG + v == "a=ice-ufrag:" + v && PWD + v == "a=ice-pwd:" + v;
    assert CANDIDATE + v == "a=candidate:" + v && MID + v == "a=mid:" + v;
  }

  // ---------------------------------------------------------------- reading values

  /** The first value of a kind that is not empty; empty when there is none. */
  function FirstValue(lines: seq<string>, kind: Kind): string {
    if lines == [] then ""
    else if KindOf(lines[0]) == kind && ValueOf(lines[0]) != "" then ValueOf(lines[0])
    else FirstValue(lines[1..], kind)
  }

  function Candidates(lines: seq<string>): seq<string> {
    if lines == [] then []
    else (if KindOf(lines[0]) == Candidate then [ValueOf(lines[0])] else []) + Candidates(lines[1..])
  }

  function FirstMedia(lines: seq<string>): string {
    if lines == [] then "" else if KindOf(lines[0]) == Media then lines[0] else FirstMedia(lines[1..])
  }

  predicate Has(lines: seq<string>, kind: Kind) {
    exists i :: 0 <= i < |lines| && KindOf(lines[i]) == kind
  }

  lemma {:induction false} FirstValueConcat(a: seq<string>, b: seq<string>, kind: Kind)
    ensures FirstValue(a + b, kind) == if FirstValue(a, kind) != "" then FirstValue(a, kind) else FirstValue(b, kind)
  {
    hide KindOf, ValueOf;
    if a == [] {
      assert a + b == b;
    } else {
      assert (a + b)[1..] == a[1..] + b;
      FirstValueConcat(a[1..], b, kind);
    }
  }

  lemma {:induction false} CandidatesConcat(a: seq<string>, b: seq<string>)
    ensures Candidates(a + b) == Candidates(a) + Candidates(b)
  {
    hide KindOf, ValueOf;
    if a == [] {
      assert a + b == b;
    } else {
      assert (a + b)[1..] == a[1..] + b;
      CandidatesConcat(a[1..], b);
    }
  }

  lemma {:induction false} FirstValueOne(line: string, kind: Kind)
    ensures FirstValue([line], kind) == if KindOf(line) == kind then ValueOf(line) else ""
  {
    hide KindOf, ValueOf;
    assert [line][1..] == [];
  }

  lemma {:induction false} CandidatesOne(line: string)
    ensures Candidates([line]) == if KindOf(line) == Candidate then [ValueOf(line)] else []
  {
    hide KindOf, ValueOf;
    assert [line][1..] == [];
  }

  // ---------------------------------------------------------------- sections

  function MediaCount(lines: seq<string>): nat {
    if lines == [] then 0 else (if KindOf(lines[0]) == Media then 1 else 0) + MediaCount(lines[1..])
  }

  /** Where the media section after the first `skip` of them begins; the end when there is none. */
  function MediaAfter(lines: seq<string>, skip: nat): (k: nat)
    ensures k <= |lines|
  {
    if lines == [] then 0
    else if KindOf(lines[0]) != Media then 1 + MediaAfter(lines[1..], skip)
    else if skip == 0 then 0
    else 1 + MediaAfter(lines[1..], skip - 1)
  }

  /** The session level and the first media section, which a bundled offer puts its transport in. */
  function Head(lines: seq<string>): seq<string> {
    lines[..MediaAfter(lines, 1)]
  }

  function Tail(lines: seq<string>): seq<string> {
    lines[MediaAfter(lines, 1)..]
  }

  lemma {:induction false} CountConcat(a: seq<string>, b: seq<string>)
    ensures MediaCount(a + b) == MediaCount(a) + MediaCount(b)
  {
    hide KindOf;
    if a == [] {
      assert a + b == b;
    } else {
      assert (a + b)[1..] == a[1..] + b;
      CountConcat(a[1..], b);
    }
  }

  lemma {:induction false} CountNext(lines: seq<string>, i: nat)
    requires i < |lines|
    ensures MediaCount(lines[..i + 1]) == MediaCount(lines[..i]) + if KindOf(lines[i]) == Media then 1 else 0
  {
    hide KindOf;
    assert lines[..i + 1] == lines[..i] + [lines[i]];
    CountConcat(lines[..i], [lines[i]]);
    assert [lines[i]][1..] == [];
  }

  lemma {:induction false} MediaAfterCounts(lines: seq<string>, skip: nat, i: nat)
    requires i <= |lines|
    ensures i <= MediaAfter(lines, skip) <==> MediaCount(lines[..i]) <= skip
  {
    hide KindOf;
    if i == 0 {
    } else {
      assert lines[..i][1..] == lines[1..][..i - 1];
      if KindOf(lines[0]) != Media {
        MediaAfterCounts(lines[1..], skip, i - 1);
      } else if skip > 0 {
        MediaAfterCounts(lines[1..], skip - 1, i - 1);
      }
    }
  }

  lemma {:induction false} MediaAfterIsMedia(lines: seq<string>, skip: nat)
    ensures var k := MediaAfter(lines, skip); k < |lines| ==> KindOf(lines[k]) == Media && MediaCount(lines[..k]) == skip
  {
    hide KindOf;
    if lines != [] {
      var k := MediaAfter(lines, skip);
      if KindOf(lines[0]) != Media {
        MediaAfterIsMedia(lines[1..], skip);
        assert k > 0 && (k < |lines| ==> lines[..k][1..] == lines[1..][..k - 1]);
      } else if skip > 0 {
        MediaAfterIsMedia(lines[1..], skip - 1);
        assert k > 0 && (k < |lines| ==> lines[..k][1..] == lines[1..][..k - 1]);
      }
    }
  }

  /** A head that holds the only media line before a tail that starts with one is the head. */
  lemma {:induction false} HeadOfParts(a: seq<string>, b: seq<string>)
    requires MediaCount(a) <= 1
    requires b == [] || (MediaCount(a) == 1 && KindOf(b[0]) == Media)
    ensures Head(a + b) == a && Tail(a + b) == b
  {
    hide KindOf;
    var all, k := a + b, |a|;
    assert all[..k] == a && all[k..] == b;
    MediaAfterCounts(all, 1, k);
    if b != [] {
      assert all[k] == b[0];
      CountNext(all, k);
      MediaAfterCounts(all, 1, k + 1);
    }
  }

  /** And those are what a description falls into. */
  lemma {:induction false} PartsOf(lines: seq<string>)
    ensures lines == Head(lines) + Tail(lines)
    ensures MediaCount(Head(lines)) <= 1
    ensures Tail(lines) == [] || (MediaCount(Head(lines)) == 1 && KindOf(Tail(lines)[0]) == Media)
  {
    hide KindOf;
    MediaAfterCounts(lines, 1, MediaAfter(lines, 1));
    MediaAfterIsMedia(lines, 1);
  }
}
