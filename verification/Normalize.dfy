/** NormalizePartial (internal/plugin/manifest.go): lower case, punctuation gone, white space
    collapsed. One pass over the text with a `space` flag, proved to keep exactly the words. */
module Normalize {
  import opened Phrases
  import opened Whitespace
  import opened PhraseSearch

  /** Case folding and the letters, digits and apostrophes a word is made of. */
  datatype Alphabet = Alphabet(lower: char -> char, wordy: char -> bool) {
    ghost predicate Valid() {
      && (forall c :: wordy(c) ==> !IsSpace(c)) && lower(' ') == ' '
      && (forall c :: lower(lower(c)) == lower(c))
    }
  }

  function Lower(a: Alphabet, t: string): (l: string)
    ensures |l| == |t|
    ensures forall i :: 0 <= i < |t| ==> l[i] == a.lower(t[i])
  {
    seq(|t|, i requires 0 <= i < |t| => a.lower(t[i]))
  }

  predicate AllWordy(a: Alphabet, w: string) {
    forall i :: 0 <= i < |w| ==> a.wordy(w[i])
  }

  function RunLen(a: Alphabet, t: string): (k: nat)
    ensures k <= |t| && AllWordy(a, t[..k])
    ensures k < |t| ==> !a.wordy(t[k])
  {
    if t == "" || !a.wordy(t[0]) then 0
    else
      assert t[..1 + RunLen(a, t[1..])][1..] == t[1..][..RunLen(a, t[1..])];
      1 + RunLen(a, t[1..])
  }

  /** The maximal runs of word characters, in order. */
  function Runs(a: Alphabet, t: string): seq<string>
    decreases |t|
  {
    if t == "" then []
    else if !a.wordy(t[0]) then Runs(a, t[1..])
    else
      var k := RunLen(a, t);
      [t[..k]] + Runs(a, t[k..])
  }

  /** The normal form: the runs of the lower-cased text, separated by single spaces. */
  function Normalized(a: Alphabet, t: string): string {
    JoinSpaces(Runs(a, Lower(a, t)))
  }

  lemma {:induction false} RunLenOf(a: Alphabet, w: string, rest: string)
    requires AllWordy(a, w) && (rest == "" || !a.wordy(rest[0]))
    ensures RunLen(a, w + rest) == |w|
  {
    if w == "" {
      assert w + rest == rest;
    } else {
      assert (w + rest)[1..] == w[1..] + rest;
      RunLenOf(a, w[1..], rest);
    }
  }

  /** A run is closed by the end of the text or by a character that is not part of a word. */
  lemma {:induction false} RunClosed(a: Alphabet, w: string, rest: string)
    requires w != "" && AllWordy(a, w) && (rest == "" || !a.wordy(rest[0]))
    ensures Runs(a, w + rest) == [w] + Runs(a, if rest == "" then "" else rest[1..])
  {
    RunLenOf(a, w, rest);
    assert (w + rest)[..|w|] == w && (w + rest)[|w|..] == rest;
  }

  lemma {:induction false} RunsAreWords(a: Alphabet, t: string)
    requires a.Valid()
    ensures AllWords(Runs(a, t))
    ensures forall k :: 0 <= k < |Runs(a, t)| ==> AllWordy(a, Runs(a, t)[k])
    decreases |t|
  {
    if t != "" {
      if !a.wordy(t[0]) {
        RunsAreWords(a, t[1..]);
      } else {
        RunsAreWords(a, t[RunLen(a, t)..]);
      }
    }
  }

  // ---------------------------------------------------------------- the loop

  /** What the builder holds: the finished runs and the one being written; `space` says that no
      run is open. */
  ghost predicate Built(a: Alphabet, out: string, space: bool, done: seq<string>, cur: string) {
    && space == (cur == "")
    && AllWordy(a, cur)
    && out == if cur != "" then JoinSpaces(done + [cur]) else if done == [] then "" else JoinSpaces(done) + " "
  }

  lemma {:induction false} JoinSnoc(ws: seq<string>, w: string)
    ensures JoinSpaces(ws + [w]) == if ws == [] then w else JoinSpaces(ws) + " " + w
  {
    if ws == [] { assert ws + [w] == [w]; } else { JoinSplit(ws, [w]); }
  }

  lemma {:induction false} JoinGrow(ws: seq<string>, w: string, c: char)
    ensures JoinSpaces(ws + [w + [c]]) == JoinSpaces(ws + [w]) + [c]
  {
    JoinSnoc(ws, w);
    JoinSnoc(ws, w + [c]);
  }

  method NormalizePartial(a: Alphabet, text: string) returns (n: string)
    requires a.Valid()
    ensures n == Normalized(a, text)
  {
    hide Runs, JoinSpaces, TrimSpace, Built, Left;
    var lowered := Lower(a, text);
    var out, space := "", true;
    ghost var done: seq<string>, cur: string := [], "";
    Start(a, lowered);
    for i := 0 to |lowered|
      invariant Built(a, out, space, done, cur)
      invariant Left(a, lowered, i, done, cur)
    {
      var r := lowered[i];
      if a.wordy(r) {
        WordyStep(a, lowered, i, out, space, done, cur);
        out := out + [r];
        space := false;
        cur := cur + [r];
      } else if !space {
        CloseStep(a, lowered, i, out, done, cur);
        out := out + " ";
        space := true;
        done, cur := done + [cur], "";
      } else {
        SkipStep(a, lowered, i, out, done, cur);
      }
    }
    Finish(a, lowered, out, space, done, cur);
    n := TrimSpace(out);
  }

  /** From character `i` on, the text still holds the rest of the open run and the runs behind. */
  ghost predicate Left(a: Alphabet, t: string, i: nat, done: seq<string>, cur: string)
    requires i <= |t|
  {
    Runs(a, t) == done + Runs(a, cur + t[i..])
  }

  lemma {:induction false} Start(a: Alphabet, t: string)
    ensures Built(a, "", true, [], "") && Left(a, t, 0, [], "")
  {
    assert "" + t[0..] == t;
  }

  lemma {:induction false} WordyStep(a: Alphabet, t: string, i: nat, out: string, space: bool, done: seq<string>, cur: string)
    requires i < |t| && a.wordy(t[i]) && Built(a, out, space, done, cur) && Left(a, t, i, done, cur)
    ensures Built(a, out + [t[i]], false, done, cur + [t[i]])
    ensures Left(a, t, i + 1, done, cur + [t[i]])
  {
    JoinSnoc(done, "" + [t[i]]);
    JoinGrow(done, cur, t[i]);
    assert "" + [t[i]] == [t[i]];
    assert cur + t[i..] == (cur + [t[i]]) + t[i + 1..];
  }

  lemma {:induction false} CloseStep(a: Alphabet, t: string, i: nat, out: string, done: seq<string>, cur: string)
    requires i < |t| && !a.wordy(t[i]) && Built(a, out, false, done, cur) && Left(a, t, i, done, cur)
    ensures Built(a, out + " ", true, done + [cur], "")
    ensures Left(a, t, i + 1, done + [cur], "")
  {
    RunClosed(a, cur, t[i..]);
    assert t[i..][1..] == t[i + 1..];
    assert "" + t[i + 1..] == t[i + 1..];
  }

  lemma {:induction false} SkipStep(a: Alphabet, t: string, i: nat, out: string, done: seq<string>, cur: string)
    requires i < |t| && !a.wordy(t[i]) && Built(a, out, true, done, cur) && Left(a, t, i, done, cur)
    ensures Left(a, t, i + 1, done, cur)
  {
    assert cur + t[i..] == t[i..] && t[i..][1..] == t[i + 1..] && cur + t[i + 1..] == t[i + 1..];
  }

  lemma {:induction false} Finish(a: Alphabet, lowered: string, out: string, space: bool, done: seq<string>, cur: string)
    requires a.Valid() && Built(a, out, space, done, cur)
    requires Left(a, lowered, |lowered|, done, cur)
    ensures TrimSpace(out) == JoinSpaces(Runs(a, lowered))
  {
    RunsAreWords(a, lowered);
    var ws := Runs(a, lowered);
    assert cur + lowered[|lowered|..] == cur + "";
    if cur != "" {
      RunClosed(a, cur, "");
      assert ws == done + [cur];
    } else {
      assert cur + "" == "";
      assert ws == done;
    }
    WordsOfJoin(ws);
    TrimJoined(ws, out);
  }

  lemma {:induction false} TrimJoined(ws: seq<string>, out: string)
    requires AllWords(ws)
    requires out == JoinSpaces(ws) || (ws != [] && out == JoinSpaces(ws) + " ")
    ensures TrimSpace(out) == JoinSpaces(ws)
  {
    var j := JoinSpaces(ws);
    if ws != [] { JoinIsTrimmed(ws); }
    hide IsSpace;
    if ws == [] {
    } else if out == j {
      assert TrimLeft(out) == out;
    } else {
      assert TrimLeft(out) == out;
      assert out[..|out| - 1] == j && IsSpace(' ') by { SpaceIsSpace(); }
      assert TrimRight(out) == TrimRight(j) == j;
    }
  }

  lemma {:induction false} SpaceIsSpace()
    ensures IsSpace(' ')
  {}

  // ---------------------------------------------------------------- what it gives

  /** The normal form is made of words separated by single spaces, and they are the runs. */
  lemma {:induction false} NormalizedIsNormal(a: Alphabet, t: string)
    requires a.Valid()
    ensures Normal(Normalized(a, t)) && Words(Normalized(a, t)) == Runs(a, Lower(a, t))
  {
    RunsAreWords(a, Lower(a, t));
    WordsOfJoin(Runs(a, Lower(a, t)));
  }

  lemma {:induction false} NoRunsIff(a: Alphabet, t: string)
    ensures Runs(a, t) == [] <==> forall i :: 0 <= i < |t| ==> !a.wordy(t[i])
    decreases |t|
  {
    if t != "" && !a.wordy(t[0]) {
      NoRunsIff(a, t[1..]);
      assert forall i :: 0 < i < |t| ==> t[i] == t[1..][i - 1];
    }
  }

  /** A phrase normalises to nothing exactly if it has no letter, digit or apostrophe. */
  lemma {:induction false} NothingSaidIff(a: Alphabet, t: string)
    requires a.Valid()
    ensures Normalized(a, t) == "" <==> forall i :: 0 <= i < |t| ==> !a.wordy(a.lower(t[i]))
  {
    var l := Lower(a, t);
    NoRunsIff(a, l);
    RunsAreWords(a, l);
    WordsOfJoin(Runs(a, l));
  }

  /** The manifest's check for blank phrases lets such a phrase through. */
  lemma {:induction false} PunctuationIsNotBlank(a: Alphabet)
    requires a.Valid() && !a.wordy(a.lower('!'))
    ensures TrimSpace("!") != "" && Normalized(a, "!") == ""
  {
    NothingSaidIff(a, "!");
    assert TrimLeft("!") == "!";
  }

  lemma {:induction false} RunsOfJoin(a: Alphabet, ws: seq<string>)
    requires a.Valid() && AllWords(ws) && forall k :: 0 <= k < |ws| ==> AllWordy(a, ws[k])
    ensures Runs(a, JoinSpaces(ws)) == ws
  {
    if |ws| == 1 {
      RunClosed(a, ws[0], "");
      assert ws[0] + "" == ws[0];
    } else if |ws| > 1 {
      var rest := JoinSpaces(ws[1..]);
      RunClosed(a, ws[0], " " + rest);
      assert (" " + rest)[1..] == rest;
      assert JoinSpaces(ws) == ws[0] + (" " + rest);
      RunsOfJoin(a, ws[1..]);
    }
  }

  /** The text with a space in place of every character that is not part of a word. */
  function Blanked(a: Alphabet, t: string): string {
    if t == "" then "" else [if a.wordy(t[0]) then t[0] else ' '] + Blanked(a, t[1..])
  }

  /** The runs are what splitting that at white space gives. */
  lemma {:induction false} RunsAreFields(a: Alphabet, t: string)
    requires a.Valid()
    ensures Runs(a, t) == Fields(Blanked(a, t))
    decreases |t|
  {
    SpaceIsSpace();
    hide IsSpace;
    if t != "" {
      if !a.wordy(t[0]) {
        RunsAreFields(a, t[1..]);
      } else {
        var k := RunLen(a, t);
        BlankedRun(a, t, k);
        RunsAreFields(a, t[k..]);
        var b := Blanked(a, t);
        assert b[..k] == t[..k] && b[k..] == Blanked(a, t[k..]);
        assert !IsSpace(b[0]);
      }
    }
  }

  lemma {:induction false} BlankedRun(a: Alphabet, t: string, k: nat)
    requires a.Valid() && k == RunLen(a, t)
    ensures |Blanked(a, t)| == |t| && Blanked(a, t)[..k] == t[..k] && Blanked(a, t)[k..] == Blanked(a, t[k..])
    ensures WordLength(Blanked(a, t)) == k
  {
    SpaceIsSpace();
    hide IsSpace, AllWordy;
    if t != "" {
      BlankedRun(a, t[1..], RunLen(a, t[1..]));
      var b := Blanked(a, t);
      assert b[1..] == Blanked(a, t[1..]);
      if a.wordy(t[0]) {
        assert t[1..][k - 1..] == t[k..] && b[k..] == b[1..][k - 1..];
        assert b[..k] == [b[0]] + b[1..][..k - 1] && t[..k] == [t[0]] + t[1..][..k - 1];
      } else {
        assert b[0..] == b && t[0..] == t;
      }
    }
  }

  /** So a text is normalised by folding it, blanking out what is not part of a word, and putting one
      space between the words that are left. */
  lemma {:induction false} NormalizedMeans(a: Alphabet, t: string)
    requires a.Valid()
    ensures Normalized(a, t) == JoinSpaces(Fields(Blanked(a, Lower(a, t))))
  {
    RunsAreFields(a, Lower(a, t));
  }

  /** Every character of the normal form is a space or already folded. */
  lemma {:induction false} RunsFolded(a: Alphabet, t: string)
    requires forall i :: 0 <= i < |t| ==> a.lower(t[i]) == t[i]
    ensures forall k, i :: 0 <= k < |Runs(a, t)| && 0 <= i < |Runs(a, t)[k]| ==> a.lower(Runs(a, t)[k][i]) == Runs(a, t)[k][i]
    decreases |t|
  {
    if t != "" {
      if !a.wordy(t[0]) { RunsFolded(a, t[1..]); } else { RunsFolded(a, t[RunLen(a, t)..]); }
    }
  }

  lemma {:induction false} JoinFolded(a: Alphabet, ws: seq<string>)
    requires a.Valid()
    requires forall k, i :: 0 <= k < |ws| && 0 <= i < |ws[k]| ==> a.lower(ws[k][i]) == ws[k][i]
    ensures Lower(a, JoinSpaces(ws)) == JoinSpaces(ws)
  {
    if |ws| == 1 {
    } else if |ws| > 1 {
      JoinFolded(a, ws[1..]);
      var head, rest := ws[0], JoinSpaces(ws[1..]);
      assert JoinSpaces(ws) == head + " " + rest;
      assert forall i :: 0 <= i < |rest| ==> Lower(a, rest)[i] == rest[i];
    }
  }

  /** Normalising twice changes nothing. */
  lemma {:induction false} NormalizedTwice(a: Alphabet, t: string)
    requires a.Valid()
    ensures Normalized(a, Normalized(a, t)) == Normalized(a, t)
  {
    var ws := Runs(a, Lower(a, t));
    RunsAreWords(a, Lower(a, t));
    RunsFolded(a, Lower(a, t));
    JoinFolded(a, ws);
    RunsOfJoin(a, ws);
  }
}
