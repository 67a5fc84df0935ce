/** White space as Unicode counts it: trimming, splitting into fields and joining them again. */
module Whitespace {

  predicate IsSpace(c: char) {
    || c == ' ' || c == '\t' || c == '\n' || c == '\r' || c == '\U{0B}' || c == '\U{0C}'
    || c == '\U{85}' || c == '\U{A0}' || c == '\U{1680}' || '\U{2000}' <= c <= '\U{200A}'
    || c == '\U{2028}' || c == '\U{2029}' || c == '\U{202F}' || c == '\U{205F}' || c == '\U{3000}'
  }

  /** White space by code point. */
  lemma {:induction false} SpaceMeans(c: char)
    ensures IsSpace(c) <==>
            var n := c as int;
            9 <= n <= 13 || n == 32 || n == 133 || n == 160 || n == 5760 || 8192 <= n <= 8202
            || n in {8232, 8233, 8239, 8287, 12288}
  {}

  function TrimLeft(s: string): string {
    if s != "" && IsSpace(s[0]) then TrimLeft(s[1..]) else s
  }

  function TrimRight(s: string): string {
    if s != "" && IsSpace(s[|s| - 1]) then TrimRight(s[..|s| - 1]) else s
  }

  function TrimSpace(s: string): string {
    TrimRight(TrimLeft(s))
  }

  /** Text that says something and has no space around it. */
  predicate Trimmed(s: string) {
    s != "" && !IsSpace(s[0]) && !IsSpace(s[|s| - 1])
  }

  lemma {:induction false} TrimLeftStarts(s: string)
    ensures TrimLeft(s) == "" || !IsSpace(TrimLeft(s)[0])
  {
    hide IsSpace;
    if s != "" && IsSpace(s[0]) { TrimLeftStarts(s[1..]); }
  }

  lemma {:induction false} TrimRightEnds(s: string)
    ensures TrimRight(s) <= s
    ensures TrimRight(s) == "" || !IsSpace(TrimRight(s)[|TrimRight(s)| - 1])
  {
    hide IsSpace;
    if s != "" && IsSpace(s[|s| - 1]) { TrimRightEnds(s[..|s| - 1]); }
  }

  lemma {:induction false} TrimSpaceTrims(s: string)
    ensures TrimSpace(s) == "" || Trimmed(TrimSpace(s))
  {
    hide IsSpace;
    TrimLeftStarts(s);
    TrimRightEnds(TrimLeft(s));
  }

  /** Trimming takes off white space at both ends, and nothing else. */
  lemma {:induction false} TrimSpaceMeans(s: string) returns (left: string, right: string)
    ensures s == left + TrimSpace(s) + right
    ensures forall i :: 0 <= i < |left| ==> IsSpace(left[i])
    ensures forall i :: 0 <= i < |right| ==> IsSpace(right[i])
  {
    hide IsSpace;
    left := TrimmedLeft(s);
    right := TrimmedRight(TrimLeft(s));
  }

  lemma {:induction false} TrimmedLeft(s: string) returns (left: string)
    ensures s == left + TrimLeft(s) && forall i :: 0 <= i < |left| ==> IsSpace(left[i])
  {
    hide IsSpace;
    left := "";
    if s != "" && IsSpace(s[0]) {
      left := TrimmedLeft(s[1..]);
      left := [s[0]] + left;
    }
  }

  lemma {:induction false} TrimmedRight(s: string) returns (right: string)
    ensures s == TrimRight(s) + right && forall i :: 0 <= i < |right| ==> IsSpace(right[i])
  {
    hide IsSpace;
    right := "";
    if s != "" && IsSpace(s[|s| - 1]) {
      right := TrimmedRight(s[..|s| - 1]);
      right := right + [s[|s| - 1]];
    }
  }

  lemma {:induction false} TrimmedStays(s: string)
    requires Trimmed(s)
    ensures TrimSpace(s) == s
  {
    hide IsSpace;
  }

  // ---------------------------------------------------------------- fields

  function WordLength(s: string): (k: nat)
    ensures k <= |s|
  {
    if s == "" || IsSpace(s[0]) then 0 else 1 + WordLength(s[1..])
  }

  function Fields(s: string): seq<string>
    decreases |s|
  {
    if s == "" then []
    else if IsSpace(s[0]) then Fields(s[1..])
    else
      var k := WordLength(s);
      [s[..k]] + Fields(s[k..])
  }

  function JoinSpaces(fs: seq<string>): string {
    if fs == [] then "" else if |fs| == 1 then fs[0] else fs[0] + " " + JoinSpaces(fs[1..])
  }

  predicate IsWord(w: string) {
    w != "" && NoSpace(w)
  }

  predicate NoSpace(w: string) {
    forall i :: 0 <= i < |w| ==> !IsSpace(w[i])
  }

  predicate AllWords(fs: seq<string>) {
    forall i :: 0 <= i < |fs| ==> IsWord(fs[i])
  }

  lemma {:induction false} WordLengthOf(w: string, rest: string)
    requires NoSpace(w) && (rest == "" || IsSpace(rest[0]))
    ensures WordLength(w + rest) == |w|
  {
    hide IsSpace;
    if w == "" {
      assert w + rest == rest;
    } else {
      assert (w + rest)[1..] == w[1..] + rest;
      WordLengthOf(w[1..], rest);
    }
  }

  lemma {:induction false} WordLengthIsWord(s: string)
    ensures NoSpace(s[..WordLength(s)])
  {
    hide IsSpace;
    if s != "" && !IsSpace(s[0]) {
      WordLengthIsWord(s[1..]);
      assert s[..WordLength(s)] == [s[0]] + s[1..][..WordLength(s[1..])];
    }
  }

  lemma {:induction false} FieldsAreWords(s: string)
    ensures AllWords(Fields(s))
    decreases |s|
  {
    hide IsSpace;
    if s == "" {
    } else if IsSpace(s[0]) {
      FieldsAreWords(s[1..]);
    } else {
      var k := WordLength(s);
      WordLengthIsWord(s);
      FieldsAreWords(s[k..]);
    }
  }

  lemma {:induction false} FieldsCons(w: string, rest: string)
    requires IsWord(w) && (rest == "" || rest[0] == ' ')
    ensures Fields(w + rest) == [w] + Fields(rest)
  {
    WordLengthOf(w, rest);
    assert !IsSpace(w[0]);
    hide IsSpace;
    var s := w + rest;
    assert s[0] == w[0] && s[..|w|] == w && s[|w|..] == rest;
  }

  /** Splitting what was joined gives the words back. */
  lemma {:induction false} FieldsOfJoin(fs: seq<string>)
    requires AllWords(fs)
    ensures Fields(JoinSpaces(fs)) == fs
  {
    hide IsWord;
    if fs == [] {
    } else if |fs| == 1 {
      assert fs == [fs[0]] && fs[0] + "" == fs[0];
      FieldsCons(fs[0], "");
    } else {
      var rest := " " + JoinSpaces(fs[1..]);
      assert fs[0] + " " + JoinSpaces(fs[1..]) == fs[0] + rest;
      FieldsCons(fs[0], rest);
      assert rest[1..] == JoinSpaces(fs[1..]);
      FieldsOfJoin(fs[1..]);
      assert fs == [fs[0]] + fs[1..];
    }
  }

  lemma {:induction false} FieldsIgnoreSpaceAfter(s: string, c: char)
    requires IsSpace(c)
    ensures Fields(s + [c]) == Fields(s)
    decreases |s|
  {
    hide IsSpace;
    var t := s + [c];
    if s == "" {
      assert t[1..] == "";
    } else if IsSpace(s[0]) {
      assert t[1..] == s[1..] + [c];
      FieldsIgnoreSpaceAfter(s[1..], c);
    } else {
      var k := WordLength(s);
      WordLengthIsWord(s);
      WordLengthStops(s);
      WordLengthOf(s[..k], s[k..] + [c]);
      assert t == s[..k] + (s[k..] + [c]) && t[k..] == s[k..] + [c];
      FieldsIgnoreSpaceAfter(s[k..], c);
    }
  }

  lemma {:induction false} WordLengthStops(s: string)
    ensures var k := WordLength(s); k == |s| || IsSpace(s[k])
  {
    hide IsSpace;
    if s != "" && !IsSpace(s[0]) { WordLengthStops(s[1..]); }
  }

  /** Trimming takes nothing from the words. */
  lemma {:induction false} FieldsOfTrim(s: string)
    ensures Fields(TrimSpace(s)) == Fields(s)
  {
    hide IsSpace, Fields;
    FieldsOfTrimLeft(s);
    FieldsOfTrimRight(TrimLeft(s));
  }

  lemma {:induction false} FieldsOfTrimLeft(s: string)
    ensures Fields(TrimLeft(s)) == Fields(s)
  {
    hide IsSpace;
    if s != "" && IsSpace(s[0]) { FieldsOfTrimLeft(s[1..]); }
  }

  lemma {:induction false} FieldsOfTrimRight(s: string)
    ensures Fields(TrimRight(s)) == Fields(s)
  {
    hide IsSpace, Fields;
    if s != "" && IsSpace(s[|s| - 1]) {
      FieldsOfTrimRight(s[..|s| - 1]);
      FieldsIgnoreSpaceAfter(s[..|s| - 1], s[|s| - 1]);
      assert s[..|s| - 1] + [s[|s| - 1]] == s;
    }
  }

  lemma {:induction false} JoinIsTrimmed(fs: seq<string>)
    requires AllWords(fs) && fs != []
    ensures Trimmed(JoinSpaces(fs))
  {
    hide IsSpace;
    assert IsWord(fs[0]);
    if |fs| > 1 { JoinIsTrimmed(fs[1..]); }
  }

  lemma {:induction false} TrimmedHasFields(s: string)
    requires Trimmed(s)
    ensures Fields(s) != []
  {
    hide IsSpace;
  }
}
