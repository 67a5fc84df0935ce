/** Matching spoken phrases (internal/pipeline/partial.go, internal/plugin/manifest.go).

    Transcripts and manifest phrases are normalised to words separated by single spaces and then
    compared character by character. This module shows the character loops decide a question about
    words: does the phrase occur as a run of whole words, and where. */
module Phrases {
  import opened Whitespace

  // ---------------------------------------------------------------- words

  /** The length of the text up to the first space. */
  function WordLen(t: string): (k: nat)
    ensures k <= |t|
    ensures forall i :: 0 <= i < k ==> t[i] != ' '
    ensures k < |t| ==> t[k] == ' '
  {
    if t == "" || t[0] == ' ' then 0 else 1 + WordLen(t[1..])
  }

  function Words(t: string): (ws: seq<string>)
    decreases |t|
  {
    if t == "" then []
    else
      var k := WordLen(t);
      if k == |t| then [t] else [t[..k]] + Words(t[k + 1..])
  }

  /** Words separated by single spaces. */
  predicate Normal(t: string) {
    AllWords(Words(t)) && (t != "" ==> t[|t| - 1] != ' ')
  }

  lemma {:induction false} WordLenOf(w: string, rest: string)
    requires IsWord(w) && (rest == "" || rest[0] == ' ')
    ensures WordLen(w + rest) == |w|
    decreases |w|
  {
    if |w| == 1 {
      assert (w + rest)[1..] == rest;
    } else {
      assert (w + rest)[1..] == w[1..] + rest;
      WordLenOf(w[1..], rest);
    }
  }

  lemma {:induction false} WordsCons(w: string, rest: string)
    requires IsWord(w)
    ensures Words(w) == [w]
    ensures Words(w + " " + rest) == [w] + Words(rest)
  {
    WordLenOf(w, "");
    assert w + "" == w;
    WordLenOf(w, " " + rest);
    var t := w + " " + rest;
    assert t == w + (" " + rest);
    assert t[..|w|] == w && t[|w| + 1..] == rest;
  }

  lemma {:induction false} WordsOfJoin(ws: seq<string>)
    requires AllWords(ws)
    ensures Words(JoinSpaces(ws)) == ws
    ensures JoinSpaces(ws) == "" <==> ws == []
    ensures ws != [] ==> JoinSpaces(ws)[|JoinSpaces(ws)| - 1] != ' ' && JoinSpaces(ws)[0] != ' '
    ensures Normal(JoinSpaces(ws))
  {
    hide Words;
    if |ws| == 0 {
      NoWords();
    } else if |ws| == 1 {
      WordsCons(ws[0], "");
    } else {
      WordsCons(ws[0], JoinSpaces(ws[1..]));
      WordsOfJoin(ws[1..]);
      assert ws == [ws[0]] + ws[1..];
    }
  }

  lemma {:induction false} NoWords()
    ensures Words("") == [] && Normal("")
  {}

  lemma {:induction false} JoinOfWords(t: string)
    requires Normal(t)
    ensures JoinSpaces(Words(t)) == t
    decreases |t|
  {
    if t != "" {
      var k := WordLen(t);
      if k < |t| {
        var rest := t[k + 1..];
        assert t == t[..k] + " " + rest;
        NormalTail(t);
        JoinOfWords(rest);
        hide Words, Normal;
        TextHasWords(rest);
        JoinCons(t[..k], Words(rest));
      }
    }
  }

  lemma {:induction false} JoinCons(w: string, ws: seq<string>)
    requires ws != []
    ensures JoinSpaces([w] + ws) == w + " " + JoinSpaces(ws)
  {}

  lemma {:induction false} WordsStep(t: string)
    requires WordLen(t) < |t|
    ensures var k := WordLen(t); Words(t) == [t[..k]] + Words(t[k + 1..])
  {}

  lemma {:induction false} NormalTail(t: string)
    requires Normal(t) && WordLen(t) < |t|
    ensures var k := WordLen(t); k > 0 && Normal(t[k + 1..]) && t[k + 1..] != "" && IsWord(t[..k])
    ensures var k := WordLen(t); Words(t) == [t[..k]] + Words(t[k + 1..])
  {
    hide Words;
    var k := WordLen(t);
    var rest := t[k + 1..];
    WordsStep(t);
    assert Words(t)[0] == t[..k];
    assert forall i :: 0 <= i < |Words(rest)| ==> Words(rest)[i] == Words(t)[i + 1];
    assert t[k] == ' ' && t[|t| - 1] != ' ';
    assert rest[|rest| - 1] == t[|t| - 1];
  }

  lemma {:induction false} SingleWord(t: string)
    requires Normal(t) && t != "" && WordLen(t) == |t|
    ensures IsWord(t) && Words(t) == [t]
  {
    assert IsWord(Words(t)[0]);
  }

  lemma {:induction false} JoinSplit(a: seq<string>, b: seq<string>)
    requires a != [] && b != []
    ensures JoinSpaces(a + b) == JoinSpaces(a) + " " + JoinSpaces(b)
  {
    if |a| == 1 {
      assert (a + b)[1..] == b;
    } else {
      assert (a + b)[1..] == a[1..] + b;
      JoinSplit(a[1..], b);
    }
  }

  // ---------------------------------------------------------------- matches

  /** The phrase's words stand at word `i`. */
  predicate RunAt(ws: seq<string>, phrase: seq<string>, i: nat) {
    i + |phrase| <= |ws| && ws[i..i + |phrase|] == phrase
  }

  /** The phrase's characters stand at `s`. */
  predicate Occurs(t: string, p: string, s: nat) {
    s + |p| <= |t| && t[s..s + |p|] == p
  }

  /** The phrase occurs at character `s`, between word boundaries. */
  predicate MatchAt(t: string, p: string, s: nat) {
    Occurs(t, p, s)
    && (s == 0 || t[s - 1] == ' ') && (s + |p| == |t| || t[s + |p|] == ' ')
  }

  /** The character at which word `i` starts. */
  function Offset(t: string, i: nat): nat
    decreases i
  {
    if i == 0 then 0
    else
      var k := WordLen(t);
      if k == |t| then |t| + i else k + 1 + Offset(t[k + 1..], i - 1)
  }

  lemma {:induction false} OffsetGrows(t: string, i: nat, j: nat)
    requires i < j
    ensures Offset(t, i) < Offset(t, j)
    decreases j
  {
    var k := WordLen(t);
    if i > 0 && k < |t| { OffsetGrows(t[k + 1..], i - 1, j - 1); }
  }

  /** A phrase at the front: the text continues with the words behind it. */
  lemma {:induction false} RunFirst(t: string, p: string)
    requires Normal(t) && Normal(p) && p != ""
    ensures MatchAt(t, p, 0) <==> RunAt(Words(t), Words(p), 0)
    ensures MatchAt(t, p, 0) ==> Behind(t, |p|) == JoinSpaces(Words(t)[|Words(p)|..])
  {
    hide Words, Normal, JoinSpaces, WordLen;
    JoinOfWords(t);
    JoinOfWords(p);
    if RunAt(Words(t), Words(p), 0) {
      TextHasWords(p);
      RunIsPrefix(Words(t), Words(p));
    }
    if MatchAt(t, p, 0) {
      if |p| < |t| {
        FirstWords(t, p);
        TailNormal(t, Words(p), t[|p| + 1..]);
        JoinOfWords(t[|p| + 1..]);
        assert (Words(p) + Words(t[|p| + 1..]))[|Words(p)|..] == Words(t[|p| + 1..]);
      } else {
        assert t == p;
        EmptyJoin(Words(t)[|Words(p)|..]);
      }
    }
  }

  lemma {:induction false} EmptyJoin(ws: seq<string>)
    requires ws == []
    ensures JoinSpaces(ws) == ""
  {}

  /** What follows a match that ends at `e`: nothing, or the text after the separating space. */
  function Behind(t: string, e: nat): string
    requires e <= |t|
  {
    if e == |t| then "" else t[e + 1..]
  }

  lemma {:induction false} RunIsPrefix(wt: seq<string>, wp: seq<string>)
    requires RunAt(wt, wp, 0) && wp != []
    ensures JoinSpaces(wt) == JoinSpaces(wp) || (|JoinSpaces(wp)| < |JoinSpaces(wt)| && JoinSpaces(wt)[..|JoinSpaces(wp)|] == JoinSpaces(wp) && JoinSpaces(wt)[|JoinSpaces(wp)|] == ' ')
  {
    var rest := wt[|wp|..];
    assert wt == wp + rest;
    if rest == [] {
      assert wt == wp;
    } else {
      JoinSplit(wp, rest);
      assert JoinSpaces(wt) == JoinSpaces(wp) + " " + JoinSpaces(rest);
    }
  }

  lemma {:induction false} TailNormal(t: string, front: seq<string>, rest: string)
    requires Normal(t) && Words(t) == front + Words(rest)
    requires |rest| < |t| && rest == t[|t| - |rest|..]
    ensures Normal(rest)
  {
    hide Words;
    assert forall i :: 0 <= i < |Words(rest)| ==> Words(rest)[i] == Words(t)[|front| + i];
  }

  /** A phrase followed by a space takes whole words off the front. */
  lemma {:induction false} FirstWords(t: string, p: string)
    requires Normal(p) && p != "" && |p| < |t| && t[..|p|] == p && t[|p|] == ' '
    ensures Words(t) == Words(p) + Words(t[|p| + 1..])
    decreases |p|
  {
    hide Words, Normal;
    var k := WordLen(p);
    var rest := t[|p| + 1..];
    if k == |p| {
      SingleWord(p);
      assert t == p + " " + rest;
      WordsCons(p, rest);
    } else {
      NormalTail(p);
      var more := t[k + 1..];
      assert t == p[..k] + " " + more;
      WordsCons(p[..k], more);
      assert more[..|p| - k - 1] == p[k + 1..];
      assert more[|p| - k..] == rest;
      FirstWords(more, p[k + 1..]);
    }
  }

  /** A phrase stands at word `i` exactly when it matches at the character where word `i` starts,
      and what follows the match is the words behind it. */
  lemma {:induction false} RunIffMatch(t: string, p: string, i: nat)
    requires Normal(t) && Normal(p) && p != ""
    ensures RunAt(Words(t), Words(p), i) <==> MatchAt(t, p, Offset(t, i))
    ensures MatchAt(t, p, Offset(t, i)) ==> Behind(t, Offset(t, i) + |p|) == JoinSpaces(Words(t)[i + |Words(p)|..])
    decreases i, 1
  {
    TextHasWords(p);
    if i == 0 {
      RunFirst(t, p);
    } else {
      var k := WordLen(t);
      if k == |t| {
        assert Offset(t, i) == |t| + i;
        assert |Words(t)| <= 1;
      } else {
        RunIffMatchTail(t, p, i, k);
      }
    }
  }

  lemma {:induction false} OffsetStep(t: string, i: nat)
    requires i > 0 && WordLen(t) < |t|
    ensures Offset(t, i) == WordLen(t) + 1 + Offset(t[WordLen(t) + 1..], i - 1)
  {}

  lemma {:induction false} RunIffMatchTail(t: string, p: string, i: nat, k: nat)
    requires Normal(t) && Normal(p) && p != "" && |Words(p)| >= 1
    requires i > 0 && k == WordLen(t) < |t|
    ensures RunAt(Words(t), Words(p), i) <==> MatchAt(t, p, Offset(t, i))
    ensures MatchAt(t, p, Offset(t, i)) ==> Behind(t, Offset(t, i) + |p|) == JoinSpaces(Words(t)[i + |Words(p)|..])
    decreases i, 0
  {
    hide Words, Normal, JoinSpaces, MatchAt, RunAt, Offset, WordLen, Behind;
    OffsetStep(t, i);
    var rest := t[k + 1..];
    NormalTail(t);
    RunIffMatch(rest, p, i - 1);
    ShiftMatch(t, p, k, Offset(rest, i - 1));
    ShiftRun(t[..k], Words(rest), Words(p), i - 1);
  }

  lemma {:induction false} TextHasWords(t: string)
    requires t != ""
    ensures |Words(t)| >= 1
  {}

  lemma {:induction false} ShiftMatch(t: string, p: string, k: nat, s: nat)
    requires k < |t| && t[k] == ' ' && p != ""
    ensures MatchAt(t, p, k + 1 + s) <==> MatchAt(t[k + 1..], p, s)
    ensures MatchAt(t, p, k + 1 + s) ==>
              k + 1 + s + |p| <= |t| && s + |p| <= |t[k + 1..]|
              && Behind(t, k + 1 + s + |p|) == Behind(t[k + 1..], s + |p|)
  {
    var rest := t[k + 1..];
    if s + |p| <= |rest| {
      assert t[k + 1 + s..k + 1 + s + |p|] == rest[s..s + |p|];
    }
  }

  lemma {:induction false} ShiftRun(w: string, ws: seq<string>, phrase: seq<string>, i: nat)
    ensures RunAt([w] + ws, phrase, i + 1) <==> RunAt(ws, phrase, i)
    ensures RunAt(ws, phrase, i) ==> i + |phrase| <= |ws| && ([w] + ws)[i + 1 + |phrase|..] == ws[i + |phrase|..]
  {
    if i + |phrase| <= |ws| {
      assert ([w] + ws)[i + 1..i + 1 + |phrase|] == ws[i..i + |phrase|];
    }
  }

  /** Every boundary match starts a word. */
  lemma {:induction false} MatchStartsWord(t: string, p: string, s: nat) returns (i: nat)
    requires Normal(t) && Normal(p) && p != "" && MatchAt(t, p, s)
    ensures i < |Words(t)| && s == Offset(t, i)
    decreases |t|
  {
    hide Words, Normal, MatchAt, Offset, WordLen;
    SpaceBefore(t, p, s);
    if s == 0 {
      i := 0;
      TextHasWords(t);
      OffsetFirst(t);
    } else {
      var k := WordLen(t);
      NormalTail(t);
      ShiftMatch(t, p, k, s - k - 1);
      var j := MatchStartsWord(t[k + 1..], p, s - k - 1);
      i := j + 1;
      OffsetStep(t, i);
    }
  }

  lemma {:induction false} SpaceBefore(t: string, p: string, s: nat)
    requires MatchAt(t, p, s) && p != ""
    ensures t != "" && (s > 0 ==> WordLen(t) < s < |t|)
  {
    if s > 0 { assert t[s - 1] == ' '; }
  }

  lemma {:induction false} OffsetFirst(t: string)
    ensures Offset(t, 0) == 0
  {}
}
