/** SDP text as lines (splitSDPLines and the joins of internal/peer/icerestart.go). */
module SdpLines {

  // ---------------------------------------------------------------- splitting

  /** The pieces between line feeds, as a split on "\n" gives them: always at least one. */
  function Pieces(s: string): (r: seq<string>)
    ensures |r| >= 1
  {
    if s == "" then [""]
    else
      var rest := Pieces(s[1..]);
      if s[0] == '\n' then [""] + rest else [[s[0]] + rest[0]] + rest[1..]
  }

  function TrimReturns(l: string): (r: string)
    ensures |r| <= |l|
  {
    if l != "" && l[|l| - 1] == '\r' then TrimReturns(l[..|l| - 1]) else l
  }

  /** The lines worth keeping, without their carriage returns. */
  function Kept(pieces: seq<string>): seq<string> {
    if pieces == [] then []
    else
      var l := TrimReturns(pieces[|pieces| - 1]);
      Kept(pieces[..|pieces| - 1]) + if l == "" then [] else [l]
  }

  function Lines(sdp: string): seq<string> {
    Kept(Pieces(sdp))
  }

  method SplitLines(sdp: string) returns (lines: seq<string>)
    ensures lines == Lines(sdp)
  {
    var raw := Pieces(sdp);
    lines := [];
    for i := 0 to |raw|
      invariant lines == Kept(raw[..i])
    {
      assert raw[..i + 1][..i] == raw[..i];
      var line := TrimReturns(raw[i]);
      if line == "" {
        continue;
      }
      lines := lines + [line];
    }
    assert raw[..|raw|] == raw;
  }

  // ---------------------------------------------------------------- joining

  /** A line that survives being written and read back. */
  predicate Clean(l: string) {
    l != "" && l[|l| - 1] != '\r' && NoFeed(l)
  }

  predicate NoFeed(l: string) {
    forall i :: 0 <= i < |l| ==> l[i] != '\n'
  }

  predicate AllClean(ls: seq<string>) {
    forall i :: 0 <= i < |ls| ==> Clean(ls[i])
  }

  function Ended(ls: seq<string>): string {
    if ls == [] then "" else ls[0] + "\r\n" + Ended(ls[1..])
  }

  /** Joined by "\r\n", with one more at the end even when there is nothing to join. */
  function Text(ls: seq<string>): string {
    if ls == [] then "\r\n" else Ended(ls)
  }

  lemma {:induction false} PiecesOfLine(l: string, rest: string)
    requires NoFeed(l)
    ensures Pieces(l + "\n" + rest) == [l] + Pieces(rest)
  {
    var s := l + "\n" + rest;
    if l == "" {
      assert s[1..] == rest;
    } else {
      assert s[1..] == l[1..] + "\n" + rest;
      PiecesOfLine(l[1..], rest);
      assert [s[0]] + l[1..] == l;
      assert ([l[1..]] + Pieces(rest))[1..] == Pieces(rest);
    }
  }

  lemma {:induction false} KeptCons(l: string, rest: seq<string>)
    ensures Kept([l] + rest) == (if TrimReturns(l) == "" then [] else [TrimReturns(l)]) + Kept(rest)
  {
    hide TrimReturns;
    var all := [l] + rest;
    if rest == [] {
      assert all == [l] && all[..0] == [];
    } else {
      assert all[..|all| - 1] == [l] + rest[..|rest| - 1];
      KeptCons(l, rest[..|rest| - 1]);
    }
  }

  lemma {:induction false} TrimOne(l: string)
    requires l != "" && l[|l| - 1] != '\r'
    ensures TrimReturns(l + "\r") == l
  {
    assert (l + "\r")[..|l|] == l;
  }

  lemma {:induction false} EndedRoundTrip(ls: seq<string>)
    requires AllClean(ls)
    ensures Lines(Ended(ls)) == ls
  {
    if ls == [] {
      assert Pieces("") == [""];
      assert Kept([""]) == [] by { assert [""][..0] == []; }
    } else {
      var l, rest := ls[0], ls[1..];
      assert Clean(l);
      EndedRoundTrip(rest);
      LineRoundTrip(l, Ended(rest));
    }
  }

  lemma {:induction false} LineRoundTrip(l: string, rest: string)
    requires Clean(l)
    ensures Lines(l + "\r\n" + rest) == [l] + Lines(rest)
  {
    hide Pieces, Kept, TrimReturns;
    assert l + "\r\n" + rest == (l + "\r") + "\n" + rest;
    PiecesOfLine(l + "\r", rest);
    KeptCons(l + "\r", Pieces(rest));
    TrimOne(l);
  }

  /** Writing lines and splitting the text again gives the lines back. */
  lemma {:induction false} TextRoundTrip(ls: seq<string>)
    requires AllClean(ls)
    ensures Lines(Text(ls)) == ls
  {
    hide Pieces, Kept, TrimReturns, Clean;
    if ls == [] {
      EmptyText();
    } else {
      EndedRoundTrip(ls);
    }
  }

  lemma {:induction false} EmptyText()
    ensures Lines("\r\n") == []
  {
    assert "\r\n" == "\r" + "\n" + "";
    PiecesOfLine("\r", "");
    KeptCons("\r", [""]);
    KeptCons("", []);
    assert [""] + [] == [""] && "\r"[..0] == "";
    assert TrimReturns("\r") == TrimReturns("");
  }

  // ---------------------------------------------------------------- what comes out of a split is clean

  lemma {:induction false} PiecesHaveNoFeed(s: string)
    ensures forall i :: 0 <= i < |Pieces(s)| ==> NoFeed(Pieces(s)[i])
  {
    if s != "" {
      PiecesHaveNoFeed(s[1..]);
      var rest := Pieces(s[1..]);
      assert NoFeed(rest[0]);
    }
  }

  lemma {:induction false} TrimmedIsClean(l: string)
    requires NoFeed(l)
    ensures TrimReturns(l) == "" || Clean(TrimReturns(l))
  {
    if l != "" && l[|l| - 1] == '\r' { TrimmedIsClean(l[..|l| - 1]); }
  }

  lemma {:induction false} KeptIsClean(pieces: seq<string>)
    requires forall i :: 0 <= i < |pieces| ==> NoFeed(pieces[i])
    ensures AllClean(Kept(pieces))
  {
    hide NoFeed, TrimReturns, Clean;
    if pieces != [] {
      KeptIsClean(pieces[..|pieces| - 1]);
      TrimmedIsClean(pieces[|pieces| - 1]);
    }
  }

  /** Every line of a split text could be written and read back. */
  lemma {:induction false} LinesAreClean(s: string)
    ensures AllClean(Lines(s))
  {
    hide Pieces, Kept, NoFeed;
    PiecesHaveNoFeed(s);
    KeptIsClean(Pieces(s));
  }
}
