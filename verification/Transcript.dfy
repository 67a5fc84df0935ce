/** Joining the overlapping chunks a streaming recogniser sends (internal/stt/transcript.go).

    How a platform folds case is a parameter: two words match when they fold to the same one. */
module Transcript {
  import opened Whitespace

  datatype Lang = Lang(fold: string -> string, lower: string -> string)

  const SPOKEN_DIGITS: set<string> := {
    "0", "1", "2", "3", "4", "5", "6", "7", "8", "9",
    "zero", "oh", "o", "one", "two", "three", "four", "five", "six", "seven", "eight", "nine"
  }

  predicate IsSpokenDigit(l: Lang, word: string) {
    l.lower(TrimSpace(word)) in SPOKEN_DIGITS
  }

  // ---------------------------------------------------------------- the overlap

  /** The last `k` words of `base` are the first `k` of `next`, up to case. */
  predicate Matches(l: Lang, base: seq<string>, next: seq<string>, k: nat)
    requires k <= |base| && k <= |next|
  {
    forall i :: 0 <= i < k ==> l.fold(base[|base| - k + i]) == l.fold(next[i])
  }

  /** The longest overlap of at most `k` words. */
  function Longest(l: Lang, base: seq<string>, next: seq<string>, k: nat): (n: nat)
    requires k <= |base| && k <= |next|
    ensures n <= k
  {
    if k == 0 || Matches(l, base, next, k) then k else Longest(l, base, next, k - 1)
  }

  /** A single digit repeated where two dictated digit runs meet is speech, not overlap. */
  predicate DigitBoundary(l: Lang, base: seq<string>, next: seq<string>, overlap: nat) {
    if overlap != 1 || |base| < 2 || |next| < 2 then false
    else
      var word := l.lower(base[|base| - 1]);
      word == l.lower(next[0]) && IsSpokenDigit(l, word)
      && IsSpokenDigit(l, base[|base| - 2]) && IsSpokenDigit(l, next[1])
  }

  function Shorter(a: nat, b: nat): (m: nat)
    ensures m <= a && m <= b && (m == a || m == b)
  {
    if a < b then a else b
  }

  function Overlap(l: Lang, base: seq<string>, next: seq<string>): (k: nat)
    ensures k <= |base| && k <= |next|
  {
    var k := Longest(l, base, next, Shorter(|base|, |next|));
    if DigitBoundary(l, base, next, k) then 0 else k
  }

  function MergedWords(l: Lang, base: seq<string>, next: seq<string>): seq<string> {
    if base == [] then next
    else if next == [] then base
    else
      var k := Overlap(l, base, next);
      if k == |next| then base
      else if k == |base| then next
      else base + next[k..]
  }

  lemma {:induction false} LongestIsLongest(l: Lang, base: seq<string>, next: seq<string>, k: nat)
    requires k <= |base| && k <= |next|
    ensures Matches(l, base, next, Longest(l, base, next, k))
    ensures forall j: nat :: Longest(l, base, next, k) < j <= k ==> !Matches(l, base, next, j)
  {
    if k > 0 && !Matches(l, base, next, k) {
      hide Matches;
      LongestIsLongest(l, base, next, k - 1);
    }
  }

  function Folded(l: Lang, words: seq<string>): (r: seq<string>)
    ensures |r| == |words| && forall i :: 0 <= i < |r| ==> r[i] == l.fold(words[i])
  {
    if words == [] then [] else [l.fold(words[0])] + Folded(l, words[1..])
  }

  lemma {:induction false} OverlapMatches(l: Lang, base: seq<string>, next: seq<string>)
    ensures Matches(l, base, next, Overlap(l, base, next))
  {
    hide Longest, DigitBoundary;
    LongestIsLongest(l, base, next, Shorter(|base|, |next|));
  }

  /** Up to case, the result is the base followed by what the next chunk adds after the overlap. */
  lemma {:induction false} MergeIsBaseThenRest(l: Lang, base: seq<string>, next: seq<string>)
    ensures var k := Overlap(l, base, next);
            Folded(l, MergedWords(l, base, next)) == Folded(l, base) + Folded(l, next[k..])
  {
    OverlapMatches(l, base, next);
    hide Overlap;
    var k, merged := Overlap(l, base, next), MergedWords(l, base, next);
    var both := Folded(l, base) + Folded(l, next[k..]);
    assert |merged| == |base| + |next| - k;
    forall i | 0 <= i < |merged| ensures Folded(l, merged)[i] == both[i] {
      if i < |base| {
        if k == |base| { assert l.fold(base[|base| - k + i]) == l.fold(next[i]); }
      } else {
        assert both[i] == l.fold(next[k..][i - |base|]);
      }
    }
  }

  /** What the merge ends with is the chunk it was given, up to case, so all of it overlaps again. */
  lemma {:induction false} MergeEndsWithNext(l: Lang, base: seq<string>, next: seq<string>)
    ensures var merged := MergedWords(l, base, next); |next| <= |merged| && Matches(l, merged, next, |next|)
  {
    OverlapMatches(l, base, next);
    hide Overlap;
    var k, merged := Overlap(l, base, next), MergedWords(l, base, next);
    var shift := |merged| - |next|;
    forall i | 0 <= i < |next| ensures l.fold(merged[shift + i]) == l.fold(next[i]) {
      if base != [] && next != [] && k != |next| && k != |base| && i < k {
        assert merged[shift + i] == base[|base| - k + i];
      }
    }
  }

  /** A chunk delivered twice is absorbed. */
  lemma {:induction false} RedeliveryIsAbsorbed(l: Lang, base: seq<string>, next: seq<string>)
    ensures MergedWords(l, MergedWords(l, base, next), next) == MergedWords(l, base, next)
  {
    var merged := MergedWords(l, base, next);
    MergeEndsWithNext(l, base, next);
    hide Matches;
    if next != [] {
      assert Shorter(|merged|, |next|) == |next|;
      assert !DigitBoundary(l, merged, next, |next|);
    }
  }

  /** Where two digit runs meet on a repeated digit nothing is dropped. */
  lemma {:induction false} DictationIsKept(l: Lang, base: seq<string>, next: seq<string>)
    requires DigitBoundary(l, base, next, Longest(l, base, next, Shorter(|base|, |next|)))
    ensures MergedWords(l, base, next) == base + next
  {
    hide Longest;
  }

  /** The digits of a dictated number, as recognisers write them. */
  predicate SaysDigit(l: Lang, word: string) {
    l.lower(TrimSpace(word)) in ["0", "1", "2", "3", "4", "5", "6", "7", "8", "9", "zero", "oh", "o",
                                 "one", "two", "three", "four", "five", "six", "seven", "eight", "nine"]
  }

  /** What is dropped from the next chunk: as many words as repeat, except one digit that is repeated in
      the middle of dictation. */
  lemma {:induction false} OverlapMeans(l: Lang, base: seq<string>, next: seq<string>)
    requires base != [] && next != []
    ensures var k := Longest(l, base, next, Shorter(|base|, |next|));
            var last := l.lower(base[|base| - 1]);
            Overlap(l, base, next) ==
            if k == 1 && |base| >= 2 && |next| >= 2 && last == l.lower(next[0]) && SaysDigit(l, last)
               && SaysDigit(l, base[|base| - 2]) && SaysDigit(l, next[1]) then 0 else k
  {
    hide Longest, TrimSpace;
  }

  /** And what the result is spelled like: as in the base where they overlap, unless all of it does. */
  lemma {:induction false} MergeSpelling(l: Lang, base: seq<string>, next: seq<string>)
    ensures var k, merged := Overlap(l, base, next), MergedWords(l, base, next);
            if base == [] || (next != [] && k == |base| && k < |next|) then merged == next
            else merged == base + next[k..]
  {
    hide Longest, DigitBoundary;
  }

  /** Two recognisers' chunks: an overlap of two words is dropped, a digit dictated twice is not. */
  lemma {:induction false} KnownMerges(l: Lang)
    requires forall w: string :: l.fold(w) == w && l.lower(w) == w
    ensures MergedWords(l, ["book", "a", "table"], ["a", "table", "for", "two"]) == ["book", "a", "table", "for", "two"]
    ensures MergedWords(l, ["five", "oh"], ["oh", "seven"]) == ["five", "oh", "oh", "seven"]
    ensures MergedWords(l, ["call", "seven"], ["seven", "one"]) == ["call", "seven", "one"]
  {
    var a, b := ["book", "a", "table"], ["a", "table", "for", "two"];
    assert !Matches(l, a, b, 3) by { assert l.fold(a[0]) == "book" && l.fold(b[0]) == "a"; }
    assert Matches(l, a, b, 2);
    assert Longest(l, a, b, 3) == Longest(l, a, b, 2) == 2;
    hide Longest, TrimSpace;
    DictatedTwice(l);
    OneDigitOnly(l);
  }

  lemma {:induction false} DictatedTwice(l: Lang)
    requires forall w: string :: l.fold(w) == w && l.lower(w) == w
    ensures MergedWords(l, ["five", "oh"], ["oh", "seven"]) == ["five", "oh", "oh", "seven"]
  {
    hide TrimSpace;
    var c, d := ["five", "oh"], ["oh", "seven"];
    OneRepeats(l, c, d);
    Trims("five");
    Trims("oh");
    Trims("seven");
  }

  lemma {:induction false} OneDigitOnly(l: Lang)
    requires forall w: string :: l.fold(w) == w && l.lower(w) == w
    ensures MergedWords(l, ["call", "seven"], ["seven", "one"]) == ["call", "seven", "one"]
  {
    hide TrimSpace;
    var e, f := ["call", "seven"], ["seven", "one"];
    OneRepeats(l, e, f);
    Trims("call");
  }

  lemma {:induction false} OneRepeats(l: Lang, a: seq<string>, b: seq<string>)
    requires |a| == |b| == 2 && l.fold(a[0]) != l.fold(b[0]) && l.fold(a[1]) == l.fold(b[0])
    ensures Longest(l, a, b, 2) == 1
  {
    assert !Matches(l, a, b, 2);
    assert Matches(l, a, b, 1);
    assert Longest(l, a, b, 2) == Longest(l, a, b, 1);
  }

  lemma {:induction false} Trims(w: string)
    requires w in ["five", "oh", "seven", "call"]
    ensures TrimSpace(w) == w
  {
    TrimmedStays(w);
  }

  // ---------------------------------------------------------------- on text

  function MergedText(l: Lang, base: string, next: string): string {
    var b, n := TrimSpace(base), TrimSpace(next);
    if b == "" then n
    else if n == "" then b
    else JoinSpaces(MergedWords(l, Fields(b), Fields(n)))
  }

  method FindOverlap(l: Lang, base: seq<string>, next: seq<string>) returns (overlap: nat)
    ensures overlap == Longest(l, base, next, Shorter(|base|, |next|))
  {
    hide Matches;
    var k := Shorter(|base|, |next|);
    while k >= 1
      invariant 0 <= k <= |base| && k <= |next|
      invariant Longest(l, base, next, k) == Longest(l, base, next, Shorter(|base|, |next|))
    {
      var matched := MatchesAt(l, base, next, k);
      if matched {
        return k;
      }
      k := k - 1;
    }
    overlap := 0;
  }

  method MatchesAt(l: Lang, base: seq<string>, next: seq<string>, k: nat) returns (matched: bool)
    requires k <= |base| && k <= |next|
    ensures matched == Matches(l, base, next, k)
  {
    for i := 0 to k
      invariant forall j :: 0 <= j < i ==> l.fold(base[|base| - k + j]) == l.fold(next[j])
    {
      if l.fold(base[|base| - k + i]) != l.fold(next[i]) {
        return false;
      }
    }
    return true;
  }

  method MergeWords(l: Lang, baseWords: seq<string>, nextWords: seq<string>) returns (merged: seq<string>)
    requires baseWords != [] && nextWords != []
    ensures merged == MergedWords(l, baseWords, nextWords)
  {
    hide Longest, DigitBoundary;
    var overlap := FindOverlap(l, baseWords, nextWords);
    if DigitBoundary(l, baseWords, nextWords, overlap) {
      overlap := 0;
    }
    if overlap == |nextWords| {
      return baseWords;
    }
    if overlap == |baseWords| && |nextWords| >= |baseWords| {
      return nextWords;
    }
    merged := baseWords + nextWords[overlap..];
  }

  method MergeTranscriptChunks(l: Lang, base: string, next: string) returns (r: string)
    ensures r == MergedText(l, base, next)
  {
    hide MergedWords, Fields, TrimSpace, JoinSpaces;
    var b, n := TrimSpace(base), TrimSpace(next);
    if b == "" {
      return n;
    }
    if n == "" {
      return b;
    }
    TrimSpaceTrims(base);
    TrimSpaceTrims(next);
    TrimmedHasFields(b);
    TrimmedHasFields(n);
    var merged := MergeWords(l, Fields(b), Fields(n));
    r := JoinSpaces(merged);
  }

  lemma {:induction false} MergedAreWords(l: Lang, base: seq<string>, next: seq<string>)
    requires AllWords(base) && AllWords(next)
    ensures AllWords(MergedWords(l, base, next))
    ensures base != [] || next != [] ==> MergedWords(l, base, next) != []
  {
    hide Overlap, IsWord;
  }

  /** The words of the merged text are the merge of the words. */
  lemma {:induction false} MergedTextWords(l: Lang, base: string, next: string)
    ensures Fields(MergedText(l, base, next)) == MergedWords(l, Fields(base), Fields(next))
  {
    FieldsOfTrim(base);
    FieldsOfTrim(next);
    FieldsAreWords(base);
    FieldsAreWords(next);
    FieldsOfNothing();
    TrimSpaceTrims(base);
    TrimSpaceTrims(next);
    if TrimSpace(base) != "" { TrimmedHasFields(TrimSpace(base)); }
    if TrimSpace(next) != "" { TrimmedHasFields(TrimSpace(next)); }
    hide Fields, TrimSpace, JoinSpaces, Overlap, Trimmed;
    MergedAreWords(l, Fields(base), Fields(next));
    FieldsOfJoin(MergedWords(l, Fields(base), Fields(next)));
  }

  lemma {:induction false} FieldsOfNothing()
    ensures Fields("") == []
  {}

  /** The merge of chunks that say something says something, and needs no trimming. */
  lemma {:induction false} MergedTextIsTrimmed(l: Lang, base: string, next: string)
    requires TrimSpace(next) != ""
    ensures Trimmed(MergedText(l, base, next))
  {
    TrimSpaceTrims(base);
    TrimSpaceTrims(next);
    var b, n := TrimSpace(base), TrimSpace(next);
    FieldsAreWords(b);
    FieldsAreWords(n);
    TrimmedHasFields(n);
    hide Fields, TrimSpace, JoinSpaces, MergedWords, Trimmed;
    MergedAreWords(l, Fields(b), Fields(n));
    JoinIsTrimmed(MergedWords(l, Fields(b), Fields(n)));
  }

  /** All white space is the space character, and none follows another. */
  predicate SingleSpaced(s: string) {
    forall i :: 0 <= i < |s| && IsSpace(s[i]) ==> s[i] == ' ' && (i + 1 < |s| ==> !IsSpace(s[i + 1]))
  }

  /** Of trimmed text that is what splitting and joining leaves alone. */
  lemma {:induction false} SingleSpacedIff(s: string)
    requires s == "" || Trimmed(s)
    ensures SingleSpaced(s) <==> JoinSpaces(Fields(s)) == s
    decreases |s|
  {
    hide IsSpace, Fields, SingleSpaced, JoinSpaces, NoSpace, Trimmed;
    if s == "" {
      NothingToSpace();
    } else {
      var k := WordLength(s);
      WordLengthIsWord(s);
      FieldsCut(s);
      if k == |s| {
        OneWordSpacing(s);
      } else {
        var w, tail := s[..k], s[k + 1..];
        assert s == w + [s[k]] + tail;
        WordLengthStops(s);
        FieldsAreWords(tail);
        TailSpacing(s, k);
        if IsSpace(tail[0]) {
          JoinStarts(Fields(tail), tail);
        } else {
          TailTrimmed(s, k + 1);
          SingleSpacedIff(tail);
        }
        JoinBehind(w, s[k], tail);
      }
    }
  }

  lemma {:induction false} NothingToSpace()
    ensures SingleSpaced("") && JoinSpaces(Fields("")) == ""
  {}

  lemma {:induction false} OneWordSpacing(s: string)
    requires NoSpace(s[..|s|])
    ensures SingleSpaced(s) && JoinSpaces([s]) == s
  {
    assert s[..|s|] == s;
  }

  lemma {:induction false} TailTrimmed(s: string, k: nat)
    requires Trimmed(s) && k < |s| && !IsSpace(s[k])
    ensures Trimmed(s[k..])
  {
    hide IsSpace;
    assert s[k..][|s| - k - 1] == s[|s| - 1];
  }

  /** The first word, and the words behind it. */
  lemma {:induction false} FieldsCut(s: string)
    requires Trimmed(s)
    ensures var k := WordLength(s);
            && k > 0 && (k == |s| ==> Fields(s) == [s])
            && (k < |s| ==> k + 1 < |s| && Fields(s) == [s[..k]] + Fields(s[k + 1..]) && Fields(s[k + 1..]) != [])
  {
    var k := WordLength(s);
    WordLengthStops(s);
    hide IsSpace;
    if k == |s| {
      assert s[..k] == s && s[k..] == "";
    } else {
      assert s[k..][1..] == s[k + 1..];
      LastIsWord(s[k + 1..]);
    }
  }

  lemma {:induction false} LastIsWord(s: string)
    requires s != "" && !IsSpace(s[|s| - 1])
    ensures Fields(s) != []
    decreases |s|
  {
    hide IsSpace;
    if IsSpace(s[0]) { LastIsWord(s[1..]); }
  }

  lemma {:induction false} TailSpacing(s: string, k: nat)
    requires k + 1 < |s| && NoSpace(s[..k]) && IsSpace(s[k])
    ensures SingleSpaced(s) <==> s[k] == ' ' && !IsSpace(s[k + 1]) && SingleSpaced(s[k + 1..])
  {
    hide IsSpace;
    var tail := s[k + 1..];
    assert forall i :: 0 <= i < |tail| ==> tail[i] == s[k + 1 + i];
    assert forall i :: 0 <= i < k ==> s[i] == s[..k][i];
    if s[k] == ' ' && !IsSpace(s[k + 1]) && SingleSpaced(tail) {
      forall i | 0 <= i < |s| && IsSpace(s[i]) ensures s[i] == ' ' && (i + 1 < |s| ==> !IsSpace(s[i + 1])) {
        if i > k { assert tail[i - k - 1] == s[i]; }
      }
    }
  }

  lemma {:induction false} JoinStarts(fs: seq<string>, s: string)
    requires AllWords(fs) && fs != [] && s != "" && IsSpace(s[0])
    ensures JoinSpaces(fs) != s
  {
    JoinIsTrimmed(fs);
  }

  lemma {:induction false} JoinBehind(w: string, c: char, tail: string)
    requires Fields(tail) != []
    ensures JoinSpaces([w] + Fields(tail)) == w + [c] + tail <==> c == ' ' && JoinSpaces(Fields(tail)) == tail
  {
    hide Fields;
    var joined := w + " " + JoinSpaces(Fields(tail));
    assert ([w] + Fields(tail))[1..] == Fields(tail);
    var s := w + [c] + tail;
    assert joined[|w|] == ' ' && s[|w|] == c;
    assert joined[|w| + 1..] == JoinSpaces(Fields(tail)) && s[|w| + 1..] == tail;
  }

  /** The first chunk of an utterance keeps its spaces, and a second delivery of it does not. */
  lemma {:induction false} RedeliveryChangesSpacing(l: Lang)
    ensures MergedText(l, "", "a  b") == "a  b" && MergedText(l, "a  b", "a  b") == "a b"
  {
    var t := "a  b";
    assert Trimmed(t);
    TrimmedStays(t);
    TrimmedStaysEmpty();
    FieldsOfTwo();
    var ws := ["a", "b"];
    assert Longest(l, ws, ws, 2) == 2;
    assert MergedWords(l, ws, ws) == ws;
    assert JoinSpaces(ws) == "a" + " " + JoinSpaces(["b"]);
  }

  lemma {:induction false} TrimmedStaysEmpty()
    ensures TrimSpace("") == ""
  {}

  lemma {:induction false} FieldsOfTwo()
    ensures Fields("a  b") == ["a", "b"]
  {
    var t := "a  b";
    assert t[1..] == "  b" && t[1..][1..] == " b" && t[1..][1..][1..] == "b";
    FieldsCons("b", "");
    assert "b" + "" == "b";
    FieldsCons("a", "  b");
    assert "a" + "  b" == t;
    assert "  b"[1..] == " b" && " b"[1..] == "b";
    assert Fields("  b") == Fields(" b") == Fields("b") == ["b"] + Fields("");
  }

  /** On text, a second delivery leaves the result as it is exactly when there was a base, or the first
      chunk of the utterance came with single spaces: irregular ones are put right only by a merge. */
  lemma {:induction false} TextAbsorbedIff(l: Lang, base: string, next: string)
    ensures MergedText(l, MergedText(l, base, next), next) == MergedText(l, base, next)
            <==> TrimSpace(base) != "" || SingleSpaced(TrimSpace(next))
  {
    var once := MergedText(l, base, next);
    if TrimSpace(next) == "" {
      TrimTwice(base);
      FieldsOfNothing();
      hide Fields, TrimSpace;
    } else {
      MergedTextIsTrimmed(l, base, next);
      TrimmedStays(once);
      MergedTextWords(l, base, next);
      FieldsOfTrim(next);
      RedeliveryIsAbsorbed(l, Fields(base), Fields(next));
      hide MergedWords, Fields, TrimSpace, JoinSpaces, IsSpace;
      assert MergedText(l, once, next) == JoinSpaces(Fields(once));
      MergedTextSpacing(l, base, next);
    }
  }

  lemma {:induction false} TrimTwice(s: string)
    ensures TrimSpace(TrimSpace(s)) == TrimSpace(s)
  {
    TrimSpaceTrims(s);
    hide IsSpace;
    if TrimSpace(s) != "" { TrimmedStays(TrimSpace(s)); }
  }

  lemma {:induction false} MergedTextSpacing(l: Lang, base: string, next: string)
    requires TrimSpace(next) != ""
    ensures JoinSpaces(Fields(MergedText(l, base, next))) == MergedText(l, base, next)
            <==> TrimSpace(base) != "" || SingleSpaced(TrimSpace(next))
  {
    TrimSpaceTrims(next);
    SingleSpacedIff(TrimSpace(next));
    var b, n := TrimSpace(base), TrimSpace(next);
    FieldsAreWords(b);
    FieldsAreWords(n);
    hide Fields, TrimSpace, JoinSpaces, MergedWords;
    if b != "" {
      MergedAreWords(l, Fields(b), Fields(n));
      FieldsOfJoin(MergedWords(l, Fields(b), Fields(n)));
    }
  }
}
