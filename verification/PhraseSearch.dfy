/** The search loops of internal/pipeline/partial.go and NormalizePartial of
    internal/plugin/manifest.go, against what they mean on words. */
module PhraseSearch {
  import opened Phrases
  import opened Whitespace
  import opened Wrappers

  // ---------------------------------------------------------------- searching

  /** strings.Index on the text from `offset`, as a position in the whole text; -1 for absent. */
  function IndexFrom(t: string, p: string, offset: nat): (r: int)
    requires offset <= |t|
    ensures r == -1 || (offset <= r && Occurs(t, p, r))
    ensures forall s: nat :: offset <= s && Occurs(t, p, s) ==> r != -1 && r <= s
    decreases |t| - offset
  {
    if Occurs(t, p, offset) then offset
    else if offset == |t| then -1
    else IndexFrom(t, p, offset + 1)
  }

  predicate GoodPhrases(phrases: seq<string>) {
    forall k :: 0 <= k < |phrases| ==> Normal(phrases[k]) && phrases[k] != ""
  }

  /** The words of `p` are a contiguous run of the words of `t`. */
  ghost predicate SaysPhrase(t: string, p: string) {
    exists i: nat :: i <= |Words(t)| && RunAt(Words(t), Words(p), i)
  }

  lemma {:induction false} SaysWhenMatched(t: string, p: string, s: nat)
    requires Normal(t) && Normal(p) && p != "" && MatchAt(t, p, s)
    ensures SaysPhrase(t, p)
  {
    var i := MatchStartsWord(t, p, s);
    RunIffMatch(t, p, i);
  }

  lemma {:induction false} MatchedWhenSays(t: string, p: string) returns (s: nat)
    requires Normal(t) && Normal(p) && p != "" && SaysPhrase(t, p)
    ensures MatchAt(t, p, s)
  {
    var i: nat :| i <= |Words(t)| && RunAt(Words(t), Words(p), i);
    RunIffMatch(t, p, i);
    s := Offset(t, i);
  }

  /** The phrase stands somewhere in the text, between word boundaries. */
  ghost predicate Found(t: string, p: string) {
    exists s: nat :: MatchAt(t, p, s)
  }

  /** In normal text that is to say its words. */
  lemma {:induction false} FoundIsSaid(t: string, phrases: seq<string>)
    requires Normal(t) && GoodPhrases(phrases)
    ensures forall k :: 0 <= k < |phrases| ==> (Found(t, phrases[k]) <==> SaysPhrase(t, phrases[k]))
  {
    hide SaysPhrase, Normal, MatchAt;
    forall k | 0 <= k < |phrases| ensures Found(t, phrases[k]) <==> SaysPhrase(t, phrases[k]) {
      if Found(t, phrases[k]) {
        var s: nat :| MatchAt(t, phrases[k], s);
        SaysWhenMatched(t, phrases[k], s);
      }
      if SaysPhrase(t, phrases[k]) {
        var s := MatchedWhenSays(t, phrases[k]);
      }
    }
  }

  /** Normal text has no boundary on both sides of nothing. */
  lemma {:induction false} NothingIsNotFound(t: string)
    requires Normal(t) && t != ""
    ensures !Found(t, "")
  {
    forall s: nat ensures !MatchAt(t, "", s) { NothingDoesNotMatch(t, s); }
  }

  lemma {:induction false} NothingDoesNotMatch(t: string, s: nat)
    requires Normal(t) && t != ""
    ensures !MatchAt(t, "", s)
    decreases |t|
  {
    hide Words;
    var k := WordLen(t);
    if k == |t| {
      SingleWord(t);
    } else {
      NormalTail(t);
      if s > k { NothingDoesNotMatch(t[k + 1..], s - k - 1); }
    }
  }

  /** Whole words only, anywhere in the text. A search for the empty phrase steps past the end of
      a text without it, and slicing there panics: that is None. */
  method ContainsPhrase(t: string, phrases: seq<string>) returns (found: Option<bool>)
    ensures found == None <==>
            exists k :: 0 <= k < |phrases| && phrases[k] == "" && forall l :: 0 <= l <= k ==> !Found(t, phrases[l])
    ensures found == Some(false) <==> forall k :: 0 <= k < |phrases| ==> phrases[k] != "" && !Found(t, phrases[k])
  {
    hide Found;
    for k := 0 to |phrases|
      invariant forall l :: 0 <= l < k ==> phrases[l] != "" && !Found(t, phrases[l])
    {
      var phrase := phrases[k];
      var offset := 0;
      while true
        invariant offset <= |t| || (phrase == "" && offset == |t| + 1)
        invariant forall s :: 0 <= s < offset ==> !MatchAt(t, phrase, s)
        decreases |t| + 1 - offset
      {
        if offset > |t| {
          NoMatchBefore(t, phrase, offset);
          return None;
        }
        var start := IndexFrom(t, phrase, offset);
        if start < 0 { break; }
        var end := start + |phrase|;
        if (start == 0 || t[start - 1] == ' ') && (end == |t| || t[end] == ' ') {
          FoundAt(t, phrase, start);
          return Some(true);
        }
        offset := start + 1;
      }
      NoMatchBefore(t, phrase, |t| + 1);
    }
    return Some(false);
  }

  lemma {:induction false} FoundAt(t: string, p: string, s: nat)
    requires MatchAt(t, p, s)
    ensures Found(t, p)
  {}

  lemma {:induction false} NoMatchBefore(t: string, p: string, offset: nat)
    requires offset > |t| && forall s :: 0 <= s < offset ==> !MatchAt(t, p, s)
    ensures !Found(t, p)
  {}

  lemma {:induction false} OpensWith(t: string, p: string)
    ensures MatchAt(t, p, 0) <==> t == p || (|p| < |t| && t[..|p| + 1] == p + " ")
  {
    if |p| < |t| { assert t[..|p| + 1] == t[..|p|] + [t[|p|]]; }
  }

  /** The utterance opens with one of the phrases. */
  method HasPrefixPhrase(t: string, phrases: seq<string>) returns (found: bool)
    ensures found <==> exists k :: 0 <= k < |phrases| && MatchAt(t, phrases[k], 0)
  {
    hide MatchAt;
    for k := 0 to |phrases|
      invariant forall l :: 0 <= l < k ==> !MatchAt(t, phrases[l], 0)
    {
      var phrase := phrases[k];
      OpensWith(t, phrase);
      var spaced := phrase + " ";
      if t == phrase || (|spaced| <= |t| && t[..|spaced|] == spaced) {
        return true;
      }
    }
    return false;
  }

  /** In normal text that is to open with its words. */
  lemma {:induction false} OpensInWords(t: string, phrases: seq<string>)
    requires Normal(t) && GoodPhrases(phrases)
    ensures forall k :: 0 <= k < |phrases| ==> (MatchAt(t, phrases[k], 0) <==> RunAt(Words(t), Words(phrases[k]), 0))
  {
    hide Normal, Words, RunAt, MatchAt;
    forall k | 0 <= k < |phrases| ensures MatchAt(t, phrases[k], 0) <==> RunAt(Words(t), Words(phrases[k]), 0) {
      RunFirst(t, phrases[k]);
    }
  }

  // ---------------------------------------------------------------- capturing

  datatype Capture = NoAnchor | Anchored(rest: string, count: nat)

  /** Some anchor stands at word `i` and ends before word `e`. */
  ghost predicate AnchorAt(ws: seq<string>, anchors: seq<string>, i: nat, e: nat) {
    exists k :: 0 <= k < |anchors| && RunAt(ws, Words(anchors[k]), i) && e == i + |Words(anchors[k])|
  }

  ghost predicate AnchorStandsAt(ws: seq<string>, anchors: seq<string>, i: nat) {
    exists k :: 0 <= k < |anchors| && RunAt(ws, Words(anchors[k]), i)
  }

  /** The words at which some anchor stands. */
  ghost function AnchorWords(ws: seq<string>, anchors: seq<string>): set<nat> {
    set i: nat | i < |ws| && AnchorStandsAt(ws, anchors, i)
  }

  /** The furthest word at which an anchor ends. */
  ghost predicate FurthestEnd(ws: seq<string>, anchors: seq<string>, e: nat) {
    && (exists i: nat :: AnchorAt(ws, anchors, i, e))
    && (forall i: nat, f: nat :: AnchorAt(ws, anchors, i, f) ==> f <= e)
  }

  /** What a capture means: how many words start an anchor, and what was said after the last. */
  ghost predicate Captures(t: string, anchors: seq<string>, c: Capture) {
    var ws := Words(t);
    match c
    case NoAnchor => AnchorWords(ws, anchors) == {}
    case Anchored(rest, count) =>
      count == |AnchorWords(ws, anchors)| && count > 0
      && exists e: nat :: FurthestEnd(ws, anchors, e) && e <= |ws| && rest == JoinSpaces(ws[e..])
  }

  /** The meaning determines the capture. */
  lemma {:induction false} CaptureUnique(t: string, anchors: seq<string>, c: Capture, d: Capture)
    requires Captures(t, anchors, c) && Captures(t, anchors, d)
    ensures c == d
  {}

  lemma {:induction false} FurthestFrom(ws: seq<string>, anchors: seq<string>, bound: nat) returns (e: nat)
    requires exists i: nat, f: nat :: AnchorAt(ws, anchors, i, f)
    requires forall i: nat, f: nat :: AnchorAt(ws, anchors, i, f) ==> f <= bound
    ensures FurthestEnd(ws, anchors, e) && e <= bound
  {
    if exists i: nat :: AnchorAt(ws, anchors, i, bound) {
      e := bound;
    } else {
      e := FurthestFrom(ws, anchors, bound - 1);
    }
  }

  /** Every text captures something or has no anchor. */
  lemma {:induction false} CaptureExists(t: string, anchors: seq<string>) returns (c: Capture)
    requires GoodPhrases(anchors)
    ensures Captures(t, anchors, c)
  {
    hide Words;
    var ws := Words(t);
    if AnchorWords(ws, anchors) == {} {
      c := NoAnchor;
    } else {
      var i :| i in AnchorWords(ws, anchors);
      var k :| 0 <= k < |anchors| && RunAt(ws, Words(anchors[k]), i);
      assert AnchorAt(ws, anchors, i, i + |Words(anchors[k])|);
      var e := FurthestFrom(ws, anchors, |ws|);
      c := Anchored(JoinSpaces(ws[e..]), |AnchorWords(ws, anchors)|);
    }
  }

  /** One of the first `n` anchors matches at character `s` and ends at `e`. */
  ghost predicate MatchEnds(t: string, anchors: seq<string>, n: nat, s: nat, e: nat)
    requires n <= |anchors|
  {
    exists k :: 0 <= k < n && MatchAt(t, anchors[k], s) && e == s + |anchors[k]|
  }

  ghost predicate MatchStarts(t: string, anchors: seq<string>, s: nat) {
    exists k :: 0 <= k < |anchors| && MatchAt(t, anchors[k], s)
  }

  /** The characters at which some anchor matches. */
  ghost function AnchorStarts(t: string, anchors: seq<string>): set<nat> {
    set s: nat | s < |t| && MatchStarts(t, anchors, s)
  }

  /** `longestAt` records, for the first `n` anchors, where matches start and how far they reach. */
  ghost predicate Recorded(t: string, anchors: seq<string>, n: nat, longestAt: map<nat, nat>)
    requires n <= |anchors|
  {
    && (forall s: nat :: s in longestAt ==> MatchEnds(t, anchors, n, s, longestAt[s]))
    && (forall s: nat, e: nat :: MatchEnds(t, anchors, n, s, e) ==> s in longestAt && e <= longestAt[s])
  }

  /** The same, with anchor `n` searched up to `offset`. */
  ghost predicate RecordedUpTo(t: string, anchors: seq<string>, n: nat, offset: nat, longestAt: map<nat, nat>)
    requires n < |anchors|
  {
    && (forall s: nat :: s in longestAt ==> MatchEnds(t, anchors, n + 1, s, longestAt[s]))
    && (forall s: nat, e: nat :: MatchEnds(t, anchors, n, s, e) ==> s in longestAt && e <= longestAt[s])
    && (forall s: nat :: s < offset && MatchAt(t, anchors[n], s) ==> s in longestAt && s + |anchors[n]| <= longestAt[s])
  }

  lemma {:induction false} MatchEndsStep(t: string, anchors: seq<string>, n: nat, m: nat)
    requires m == n + 1 <= |anchors|
    ensures forall s: nat, e: nat :: MatchEnds(t, anchors, m, s, e)
              <==> MatchEnds(t, anchors, n, s, e) || (MatchAt(t, anchors[n], s) && e == s + |anchors[n]|)
  {
    forall s: nat, e: nat | MatchEnds(t, anchors, n, s, e) || (MatchAt(t, anchors[n], s) && e == s + |anchors[n]|)
      ensures MatchEnds(t, anchors, m, s, e)
    {
      if MatchEnds(t, anchors, n, s, e) {
        var k :| 0 <= k < n && MatchAt(t, anchors[k], s) && e == s + |anchors[k]|;
        assert MatchAt(t, anchors[k], s);
      } else {
        assert MatchAt(t, anchors[n], s);
      }
    }
    forall s: nat, e: nat | MatchEnds(t, anchors, m, s, e)
      ensures MatchEnds(t, anchors, n, s, e) || (MatchAt(t, anchors[n], s) && e == s + |anchors[n]|)
    {
      var k :| 0 <= k < n + 1 && MatchAt(t, anchors[k], s) && e == s + |anchors[k]|;
      if k < n { assert MatchAt(t, anchors[k], s); }
    }
  }

  /** Adds the matches of anchor `n`. A search for the empty anchor never ends inside the text. */
  method SearchAnchor(t: string, anchors: seq<string>, n: nat, before: map<nat, nat>) returns (longestAt: Option<map<nat, nat>>)
    requires n < |anchors| && Recorded(t, anchors, n, before)
    ensures longestAt == None <==> anchors[n] == ""
    ensures longestAt.Some? ==> Recorded(t, anchors, n + 1, longestAt.value)
  {
    hide Recorded, RecordedUpTo;
    var found := before;
    var anchor := anchors[n];
    var offset := 0;
    SearchBegins(t, anchors, n, before);
    while true
      invariant offset <= |t| || (anchor == "" && offset == |t| + 1)
      invariant anchor != "" ==> RecordedUpTo(t, anchors, n, offset, found)
      decreases |t| + 1 - offset
    {
      if offset > |t| { return None; }
      var start := IndexFrom(t, anchor, offset);
      if start < 0 { break; }
      var end := start + |anchor|;
      var atBoundary := (start == 0 || t[start - 1] == ' ') && (end == |t| || t[end] == ' ');
      found := RecordMatch(t, anchors, n, offset, found, start, atBoundary);
      offset := start + 1;
    }
    SearchDone(t, anchors, n, offset, found);
    return Some(found);
  }

  lemma {:induction false} SearchBegins(t: string, anchors: seq<string>, n: nat, longestAt: map<nat, nat>)
    requires n < |anchors| && Recorded(t, anchors, n, longestAt)
    ensures RecordedUpTo(t, anchors, n, 0, longestAt)
  {
    MatchEndsStep(t, anchors, n, n + 1);
  }

  lemma {:induction false} SearchDone(t: string, anchors: seq<string>, n: nat, offset: nat, longestAt: map<nat, nat>)
    requires n < |anchors| && RecordedUpTo(t, anchors, n, offset, longestAt)
    requires forall s: nat :: offset <= s ==> !MatchAt(t, anchors[n], s)
    ensures Recorded(t, anchors, n + 1, longestAt)
  {
    var m := n + 1;
    MatchEndsStep(t, anchors, n, m);
    forall s: nat, e: nat | MatchEnds(t, anchors, m, s, e)
      ensures s in longestAt && e <= longestAt[s]
    {
      if MatchEnds(t, anchors, n, s, e) {
      } else {
        assert MatchAt(t, anchors[n], s);
      }
    }
  }

  method RecordMatch(t: string, anchors: seq<string>, n: nat, ghost offset: nat, before: map<nat, nat>,
                     start: nat, atBoundary: bool) returns (longestAt: map<nat, nat>)
    requires n < |anchors| && (anchors[n] != "" ==> RecordedUpTo(t, anchors, n, offset, before))
    requires offset <= start && atBoundary == MatchAt(t, anchors[n], start)
    requires forall s: nat :: offset <= s < start ==> !MatchAt(t, anchors[n], s)
    ensures anchors[n] != "" ==> RecordedUpTo(t, anchors, n, start + 1, longestAt)
  {
    hide MatchAt;
    MatchEndsStep(t, anchors, n, n + 1);
    longestAt := before;
    var end := start + |anchors[n]|;
    var longest := if start in longestAt then longestAt[start] else 0;
    if atBoundary && end > longest {
      longestAt := longestAt[start := end];
    }
  }

  method FurthestOf(longestAt: map<nat, nat>) returns (lastEnd: nat)
    requires longestAt != map[]
    ensures exists s :: s in longestAt && lastEnd == longestAt[s]
    ensures forall s :: s in longestAt ==> longestAt[s] <= lastEnd
  {
    lastEnd := 0;
    var left := longestAt.Keys;
    var first :| first in longestAt;
    while left != {}
      invariant left <= longestAt.Keys
      invariant forall s :: s in longestAt && s !in left ==> longestAt[s] <= lastEnd
      invariant lastEnd > 0 ==> exists s :: s in longestAt && lastEnd == longestAt[s]
      decreases left
    {
      var s :| s in left;
      if longestAt[s] > lastEnd {
        lastEnd := longestAt[s];
      }
      left := left - {s};
    }
    if lastEnd == 0 { assert longestAt[first] == 0; }
  }

  /** What a capture is in characters: how many places start an anchor, and what is behind the
      last end of one, trimmed. */
  ghost predicate CapturesText(t: string, anchors: seq<string>, c: Capture) {
    match c
    case NoAnchor => AnchorStarts(t, anchors) == {}
    case Anchored(rest, count) =>
      count == |AnchorStarts(t, anchors)| && count > 0
      && exists end: nat :: LastEnd(t, anchors, end) && end <= |t| && rest == TrimSpace(t[end..])
  }

  /** An empty anchor is searched for past the end of the text, whatever the text: None is the
      panic of slicing there. */
  method CaptureAfterAnchor(t: string, anchors: seq<string>) returns (c: Option<Capture>)
    ensures c == None <==> "" in anchors
    ensures c.Some? ==> CapturesText(t, anchors, c.value)
  {
    hide Recorded, LastEnd, AnchorStarts;
    var longestAt: map<nat, nat> := map[];
    NothingRecorded(t, anchors);
    for n := 0 to |anchors|
      invariant "" !in anchors[..n]
      invariant Recorded(t, anchors, n, longestAt)
    {
      var found := SearchAnchor(t, anchors, n, longestAt);
      if found == None { return None; }
      assert anchors[..n + 1] == anchors[..n] + [anchors[n]];
      longestAt := found.value;
    }
    assert anchors[..|anchors|] == anchors;
    RecordedStarts(t, anchors, longestAt);
    assert |longestAt| == |longestAt.Keys|;
    if |longestAt| == 0 {
      return Some(NoAnchor);
    }
    var lastEnd := FurthestOf(longestAt);
    RecordedEnds(t, anchors, longestAt, lastEnd);
    LastEndInside(t, anchors, lastEnd);
    return Some(Anchored(TrimSpace(t[lastEnd..]), |longestAt|));
  }

  lemma {:induction false} NothingRecorded(t: string, anchors: seq<string>)
    ensures Recorded(t, anchors, 0, map[])
  {}

  lemma {:induction false} RecordedStarts(t: string, anchors: seq<string>, longestAt: map<nat, nat>)
    requires Recorded(t, anchors, |anchors|, longestAt) && "" !in anchors
    ensures longestAt.Keys == AnchorStarts(t, anchors)
  {
    forall s | s in longestAt ensures s in AnchorStarts(t, anchors) {
      assert MatchEnds(t, anchors, |anchors|, s, longestAt[s]);
      assert MatchStarts(t, anchors, s);
    }
    forall s | s in AnchorStarts(t, anchors) ensures s in longestAt {
      var k :| 0 <= k < |anchors| && MatchAt(t, anchors[k], s);
      assert MatchEnds(t, anchors, |anchors|, s, s + |anchors[k]|);
    }
  }

  /** `end` is where some anchor match ends, and none ends further. */
  ghost predicate LastEnd(t: string, anchors: seq<string>, end: nat) {
    && (exists s: nat :: MatchEnds(t, anchors, |anchors|, s, end))
    && (forall s: nat, e: nat :: MatchEnds(t, anchors, |anchors|, s, e) ==> e <= end)
  }

  lemma {:induction false} RecordedEnds(t: string, anchors: seq<string>, longestAt: map<nat, nat>, end: nat)
    requires Recorded(t, anchors, |anchors|, longestAt)
    requires exists s :: s in longestAt && end == longestAt[s]
    requires forall s :: s in longestAt ==> longestAt[s] <= end
    ensures LastEnd(t, anchors, end)
  {}

  lemma {:induction false} LastEndInside(t: string, anchors: seq<string>, end: nat)
    requires LastEnd(t, anchors, end)
    ensures end <= |t|
  {}

  // ---------------------------------------------------------------- characters and words

  /** Start characters and start words are in bijection. */
  lemma {:induction false} StartsAreWords(t: string, anchors: seq<string>)
    requires Normal(t) && GoodPhrases(anchors)
    ensures |AnchorStarts(t, anchors)| == |AnchorWords(Words(t), anchors)|
  {
    hide Words, Offset, Normal, RunAt, MatchAt;
    var starts, words := AnchorStarts(t, anchors), AnchorWords(Words(t), anchors);
    forall i | i in words ensures Offset(t, i) in starts {
      var k :| 0 <= k < |anchors| && RunAt(Words(t), Words(anchors[k]), i);
      RunIffMatch(t, anchors[k], i);
      MatchInside(t, anchors[k], Offset(t, i));
    }
    forall s | s in starts ensures exists i: nat :: i in words && Offset(t, i) == s {
      var k :| 0 <= k < |anchors| && MatchAt(t, anchors[k], s);
      var i := MatchStartsWord(t, anchors[k], s);
      RunIffMatch(t, anchors[k], i);
      assert i in words;
    }
    OffsetImage(t, words, starts);
  }

  lemma {:induction false} MatchInside(t: string, p: string, s: nat)
    requires MatchAt(t, p, s) && p != ""
    ensures s < |t| && s + |p| <= |t| && (s + |p| == |t| || t[s + |p|] == ' ')
  {}

  lemma {:induction false} OffsetImage(t: string, words: set<nat>, starts: set<nat>)
    requires forall i: nat :: i in words ==> Offset(t, i) in starts
    requires forall s: nat :: s in starts ==> exists i: nat :: i in words && Offset(t, i) == s
    ensures |starts| == |words|
    decreases words
  {
    if words == {} {
      assert starts == {};
    } else {
      var i :| i in words;
      forall j: nat | j in words - {i} ensures Offset(t, j) in starts - {Offset(t, i)} {
        if j < i { OffsetGrows(t, j, i); } else { OffsetGrows(t, i, j); }
      }
      forall s: nat | s in starts - {Offset(t, i)} ensures exists j: nat :: j in words - {i} && Offset(t, j) == s {
        var j: nat :| j in words && Offset(t, j) == s;
        assert j in words - {i};
      }
      OffsetImage(t, words - {i}, starts - {Offset(t, i)});
    }
  }

  lemma {:induction false} JoinShrinks(ws: seq<string>, a: nat, b: nat)
    requires AllWords(ws) && a < b <= |ws|
    ensures |JoinSpaces(ws[b..])| < |JoinSpaces(ws[a..])|
    decreases b - a
  {
    assert ws[a..][1..] == ws[a + 1..];
    assert IsWord(ws[a]);
    if a + 1 < b { JoinShrinks(ws, a + 1, b); }
  }

  /** A match that ends further in characters ends further in words. */
  lemma {:induction false} FurthestInWords(t: string, anchors: seq<string>, end: nat) returns (e: nat)
    requires Normal(t) && GoodPhrases(anchors) && LastEnd(t, anchors, end)
    ensures end <= |t| && (end == |t| || t[end] == ' ')
    ensures FurthestEnd(Words(t), anchors, e) && e <= |Words(t)| && Behind(t, end) == JoinSpaces(Words(t)[e..])
  {
    hide Words, Normal, MatchAt, RunAt, Offset, JoinSpaces, Behind;
    var ws := Words(t);
    var s: nat :| MatchEnds(t, anchors, |anchors|, s, end);
    var k :| 0 <= k < |anchors| && MatchAt(t, anchors[k], s) && end == s + |anchors[k]|;
    var i := MatchStartsWord(t, anchors[k], s);
    RunIffMatch(t, anchors[k], i);
    MatchInside(t, anchors[k], s);
    RunInside(ws, Words(anchors[k]), i);
    e := i + |Words(anchors[k])|;
    assert AnchorAt(ws, anchors, i, e);
    forall j: nat, f: nat | AnchorAt(ws, anchors, j, f) ensures f <= e {
      var l :| 0 <= l < |anchors| && RunAt(ws, Words(anchors[l]), j) && f == j + |Words(anchors[l])|;
      RunIffMatch(t, anchors[l], j);
      RunInside(ws, Words(anchors[l]), j);
      assert MatchEnds(t, anchors, |anchors|, Offset(t, j), Offset(t, j) + |anchors[l]|);
      EndsAgree(t, e, end, f, Offset(t, j) + |anchors[l]|);
    }
  }

  lemma {:induction false} RunInside(ws: seq<string>, phrase: seq<string>, i: nat)
    requires RunAt(ws, phrase, i)
    ensures i + |phrase| <= |ws|
  {}

  lemma {:induction false} EndsAgree(t: string, e: nat, end: nat, f: nat, fend: nat)
    requires Normal(t) && e <= |Words(t)| && f <= |Words(t)| && fend <= end <= |t|
    requires Behind(t, end) == JoinSpaces(Words(t)[e..]) && Behind(t, fend) == JoinSpaces(Words(t)[f..])
    ensures f <= e
  {
    if e < f { JoinShrinks(Words(t), e, f); }
  }

  lemma {:induction false} TrimBehind(t: string, end: nat)
    requires Normal(t) && end <= |t| && (end == |t| || t[end] == ' ')
    requires Behind(t, end) == "" || Trimmed(Behind(t, end))
    ensures TrimSpace(t[end..]) == Behind(t, end)
  {
    if end < |t| {
      assert t[end..][1..] == t[end + 1..];
      assert t[|t| - 1] != ' ';
      assert Behind(t, end) == t[end + 1..] != "";
      TrimmedStays(t[end + 1..]);
      assert TrimLeft(t[end..]) == TrimLeft(t[end + 1..]);
    }
  }

  lemma {:induction false} CapturedBehind(t: string, anchors: seq<string>, end: nat)
    requires Normal(t) && GoodPhrases(anchors) && LastEnd(t, anchors, end) && AnchorStarts(t, anchors) != {}
    ensures end <= |t|
    ensures Captures(t, anchors, Anchored(TrimSpace(t[end..]), |AnchorStarts(t, anchors)|))
  {
    hide JoinSpaces, FurthestEnd, TrimSpace, LastEnd, AnchorStarts, AnchorWords, Words;
    StartsAreWords(t, anchors);
    var e := FurthestInWords(t, anchors, end);
    if Words(t)[e..] == [] {
      WordsOfJoin([]);
    } else {
      JoinIsTrimmed(Words(t)[e..]);
    }
    TrimBehind(t, end);
  }

  lemma {:induction false} NothingCaptured(t: string, anchors: seq<string>)
    requires Normal(t) && GoodPhrases(anchors) && AnchorStarts(t, anchors) == {}
    ensures Captures(t, anchors, NoAnchor)
  {
    StartsAreWords(t, anchors);
  }

  /** In normal text a capture in characters is one in words. */
  lemma {:induction false} CaptureInWords(t: string, anchors: seq<string>, c: Capture)
    requires Normal(t) && GoodPhrases(anchors) && CapturesText(t, anchors, c)
    ensures Captures(t, anchors, c)
  {
    hide Captures, Normal, AnchorStarts, LastEnd;
    match c
    case NoAnchor => NothingCaptured(t, anchors);
    case Anchored(rest, count) =>
      var end: nat :| LastEnd(t, anchors, end) && end <= |t| && rest == TrimSpace(t[end..]);
      CapturedBehind(t, anchors, end);
  }
}
