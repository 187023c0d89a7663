/** Splitting and joining text the way Python's `str` methods do. */
module Text {
  /** `str.isspace`, for the characters that the texts here can hold. */
  predicate IsSpace(c: char) {
    c == ' ' || '\t' <= c <= '\r' || '\U{1c}' <= c <= '\U{1f}' || c == '\U{85}' || c == '\U{a0}'
  }

  lemma Spaces(c: char)
    ensures IsSpace(c) <==> c in {' ', '\t', '\n', '\U{b}', '\U{c}', '\r', '\U{1c}', '\U{1d}', '\U{1e}', '\U{1f}',
                                  '\U{85}', '\U{a0}'}
  {
  }

  predicate NoSpace(s: string) {
    forall i :: 0 <= i < |s| ==> !IsSpace(s[i])
  }

  function LStrip(s: string): string {
    if s != "" && IsSpace(s[0]) then LStrip(s[1..]) else s
  }

  function RStrip(s: string): string {
    if s != "" && IsSpace(s[|s| - 1]) then RStrip(s[..|s| - 1]) else s
  }

  /** `str.strip()`. */
  function Strip(s: string): string {
    RStrip(LStrip(s))
  }

  lemma {:induction false} LStripEnds(s: string)
    ensures LStrip(s) == "" || !IsSpace(LStrip(s)[0])
    ensures exists k :: 0 <= k <= |s| && LStrip(s) == s[k..]
  {
    if s != "" && IsSpace(s[0]) {
      LStripEnds(s[1..]);
      var k :| 0 <= k <= |s[1..]| && LStrip(s[1..]) == s[1..][k..];
      assert s[1..][k..] == s[k + 1..];
    } else {
      assert s[0..] == s;
    }
  }

  lemma {:induction false} RStripEnds(s: string)
    ensures RStrip(s) == "" || !IsSpace(RStrip(s)[|RStrip(s)| - 1])
    ensures exists k :: 0 <= k <= |s| && RStrip(s) == s[..k]
  {
    if s != "" && IsSpace(s[|s| - 1]) {
      RStripEnds(s[..|s| - 1]);
      var k :| 0 <= k <= |s| - 1 && RStrip(s[..|s| - 1]) == s[..|s| - 1][..k];
      assert s[..|s| - 1][..k] == s[..k];
    } else {
      assert s[..|s|] == s;
    }
  }

  /** Stripped text neither starts nor ends with white space. */
  lemma StripEnds(s: string)
    ensures Strip(s) == "" || (!IsSpace(Strip(s)[0]) && !IsSpace(Strip(s)[|Strip(s)| - 1]))
  {
    LStripEnds(s);
    RStripEnds(LStrip(s));
  }

  /** Text without white space at its ends is its own strip. */
  lemma StripNothing(s: string)
    requires s == "" || (!IsSpace(s[0]) && !IsSpace(s[|s| - 1]))
    ensures Strip(s) == s
  {
  }

  predicate AllSpace(s: string) {
    forall i :: 0 <= i < |s| ==> IsSpace(s[i])
  }

  /** White space around a text that has none at its ends comes off on both sides. */
  lemma StripAround(before: string, s: string, after: string)
    requires AllSpace(before) && AllSpace(after)
    requires s == "" || (!IsSpace(s[0]) && !IsSpace(s[|s| - 1]))
    ensures Strip(before + s + after) == s
  {
    assert before + s + after == before + (s + after);
    if s == "" {
      assert before + (s + after) == before + after;
      LStripSpace(before + after, "");
      assert before + after + "" == before + after;
    } else {
      LStripSpace(before, s + after);
      RStripSpace(s, after);
    }
  }

  lemma {:induction false} LStripSpace(before: string, s: string)
    requires AllSpace(before) && (s == "" || !IsSpace(s[0]))
    ensures LStrip(before + s) == s
  {
    if before == "" {
      assert before + s == s;
    } else {
      assert (before + s)[1..] == before[1..] + s;
      LStripSpace(before[1..], s);
    }
  }

  lemma {:induction false} RStripSpace(s: string, after: string)
    requires AllSpace(after) && (s == "" || !IsSpace(s[|s| - 1]))
    ensures RStrip(s + after) == s
  {
    if after == "" {
      assert s + after == s;
    } else {
      assert (s + after)[..|s + after| - 1] == s + after[..|after| - 1];
      RStripSpace(s, after[..|after| - 1]);
    }
  }

  // ---------- words ----------

  function WordLength(s: string): (k: nat)
    ensures k <= |s| && NoSpace(s[..k]) && (k < |s| ==> IsSpace(s[k]))
  {
    if s == "" || IsSpace(s[0]) then 0
    else
      var k := WordLength(s[1..]);
      assert s[..k + 1] == [s[0]] + s[1..][..k];
      k + 1
  }

  predicate IsWord(w: string) {
    w != "" && NoSpace(w)
  }

  predicate AllWords(ws: seq<string>) {
    forall i :: 0 <= i < |ws| ==> IsWord(ws[i])
  }

  /** `str.split()`. */
  function Words(s: string): (ws: seq<string>)
    ensures AllWords(ws)
    decreases |s|
  {
    if s == "" then []
    else if IsSpace(s[0]) then Words(s[1..])
    else
      var k := WordLength(s);
      [s[..k]] + Words(s[k..])
  }

  /** `" ".join(words)`. */
  function Join(ws: seq<string>): string {
    if ws == [] then "" else if |ws| == 1 then ws[0] else ws[0] + " " + Join(ws[1..])
  }

  lemma {:induction false} WordLengthOf(w: string, rest: string)
    requires NoSpace(w) && (rest == "" || IsSpace(rest[0]))
    ensures WordLength(w + rest) == |w|
  {
    if w == "" {
      assert w + rest == rest;
    } else {
      assert (w + rest)[1..] == w[1..] + rest;
      WordLengthOf(w[1..], rest);
    }
  }

  /** Splitting undoes joining. */
  lemma {:induction false} WordsOfJoin(ws: seq<string>)
    requires AllWords(ws)
    ensures Words(Join(ws)) == ws
  {
    if ws != [] {
      var rest := if |ws| == 1 then "" else " " + Join(ws[1..]);
      WordLengthOf(ws[0], rest);
      assert Join(ws) == ws[0] + rest;
      assert (ws[0] + rest)[..|ws[0]|] == ws[0] && (ws[0] + rest)[|ws[0]|..] == rest;
      WordsOfJoin(ws[1..]);
      if |ws| > 1 {
        assert rest[1..] == Join(ws[1..]);
      }
    }
  }

  /** White space of any kind separates words. */
  lemma WordsAround(a: string, c: char, b: string)
    requires IsSpace(c)
    ensures Words(a + [c] + b) == Words(a) + Words(b)
  {
    hide Words;
    WordsThen(a, [c] + b);
    assert a + [c] + b == a + ([c] + b);
    SpaceFirst(c, b);
  }

  lemma {:induction false} WordsThen(a: string, rest: string)
    requires rest == "" || IsSpace(rest[0])
    ensures Words(a + rest) == Words(a) + Words(rest)
    decreases |a|
  {
    hide Words;
    if a == "" {
      NoWords();
      assert a + rest == rest;
    } else if IsSpace(a[0]) {
      SpaceFirst(a[0], a[1..]);
      SpaceFirst(a[0], a[1..] + rest);
      assert [a[0]] + a[1..] == a && [a[0]] + (a[1..] + rest) == a + rest;
      WordsThen(a[1..], rest);
    } else {
      var k := WordLength(a);
      CutAt(a, k, rest);
      FirstWord(a[..k], a[k..]);
      FirstWord(a[..k], a[k..] + rest);
      WordsThen(a[k..], rest);
    }
  }

  lemma CutAt(a: string, k: nat, rest: string)
    requires k <= |a|
    ensures a == a[..k] + a[k..] && a + rest == a[..k] + (a[k..] + rest)
  {
  }

  lemma NoWords()
    ensures Words("") == []
  {
  }

  lemma SpaceFirst(c: char, rest: string)
    requires IsSpace(c)
    ensures Words([c] + rest) == Words(rest)
  {
    assert ([c] + rest)[1..] == rest;
  }

  lemma FirstWord(w: string, rest: string)
    requires IsWord(w) && (rest == "" || IsSpace(rest[0]))
    ensures Words(w + rest) == [w] + Words(rest)
  {
    WordLengthOf(w, rest);
    assert (w + rest)[..|w|] == w && (w + rest)[|w|..] == rest;
  }

  lemma WordsOfWord(w: string)
    requires IsWord(w)
    ensures Words(w) == [w]
  {
    WordLengthOf(w, "");
    assert w + "" == w && w[..|w|] == w && w[|w|..] == "";
  }

  // ---------- splitting at a separator ----------

  /** `s.split(sep)` for a one-character separator. */
  function Split(s: string, sep: char): (parts: seq<string>)
    ensures parts != []
  {
    if s == "" then [""]
    else
      var rest := Split(s[1..], sep);
      if s[0] == sep then [""] + rest else [[s[0]] + rest[0]] + rest[1..]
  }

  /** A piece without the separator is split off whole. */
  lemma {:induction false} SplitPiece(piece: string, sep: char, rest: string)
    requires sep !in piece
    ensures Split(piece + [sep] + rest, sep) == [piece] + Split(rest, sep)
  {
    if piece == "" {
      assert piece + [sep] + rest == [sep] + rest;
      assert ([sep] + rest)[1..] == rest;
    } else {
      var all := piece + [sep] + rest;
      assert all[1..] == piece[1..] + [sep] + rest;
      SplitPiece(piece[1..], sep, rest);
      assert [piece[0]] + piece[1..] == piece;
    }
  }

  lemma {:induction false} SplitWhole(piece: string, sep: char)
    requires sep !in piece
    ensures Split(piece, sep) == [piece]
  {
    if piece != "" {
      SplitWhole(piece[1..], sep);
      assert [piece[0]] + piece[1..] == piece;
    }
  }

  /** The position of the first `c`, or -1. */
  function IndexOf(s: string, c: char): (i: int)
    ensures -1 <= i < |s|
    ensures i == -1 <==> c !in s
    ensures i >= 0 ==> s[i] == c && c !in s[..i]
  {
    if s == "" then -1
    else if s[0] == c then 0
    else
      var i := IndexOf(s[1..], c);
      assert s == [s[0]] + s[1..];
      assert i >= 0 ==> s[..i + 1] == [s[0]] + s[1..][..i];
      if i == -1 then -1 else i + 1
  }

  lemma IndexOfFirst(front: string, c: char, rest: string)
    requires c !in front
    ensures IndexOf(front + [c] + rest, c) == |front|
  {
    var all := front + [c] + rest;
    var i := IndexOf(all, c);
    assert all[|front|] == c;
    assert forall k :: 0 <= k < |front| ==> all[k] == front[k];
  }
}
