/** The commit-dump parser (penny/penny/changelog_commits.py): records of hash, subject
    and body, read into changelog entries. */
module CommitLog {
  import opened Options
  import opened Decimal
  import opened Text
  import opened Changelog

  const RECORD_SEP := '\U{1e}'
  const FIELD_SEP := '\U{1f}'
  const MAX_ENTRY_TEXT_LENGTH := 300

  // ---------- the title ----------

  /** `^(?P<title>.*) \(#(?P<pr>\d+)\)$` on a text: the title and the number. */
  function PrSuffix(subject: string): Option<(string, nat)> {
    // `$` also matches just before a final newline.
    var s := if subject != "" && subject[|subject| - 1] == '\n' then subject[..|subject| - 1] else subject;
    if s == "" || s[|s| - 1] != ')' then None
    else
      var inner := s[..|s| - 1];
      var k := TrailingDigits(inner);
      var front := inner[..|inner| - k];
      if k > 0 && EndsWith(front, " (#") && '\n' !in front[..|front| - 3]
      then Some((front[..|front| - 3], Value(inner[|inner| - k..])))
      else None
  }

  predicate EndsWith(s: string, tail: string) {
    |tail| <= |s| && s[|s| - |tail|..] == tail
  }

  predicate IsLower(c: char) {
    'a' <= c <= 'z'
  }

  function LowerRun(s: string): (k: nat)
    ensures k <= |s| && (forall i :: 0 <= i < k ==> IsLower(s[i])) && (k < |s| ==> !IsLower(s[k]))
  {
    if s == "" || !IsLower(s[0]) then 0 else LowerRun(s[1..]) + 1
  }

  /** The rest of a title after its `type(scope): ` prefix, if it has one. */
  function AfterPrefix(title: string): Option<string> {
    var k := LowerRun(title);
    if k == 0 then None
    else
      var tail := title[k..];
      var close := IndexOf(tail, ')');
      var after := if tail != "" && tail[0] == '(' && close >= 0 then tail[close + 1..] else tail;
      if ": " <= after && |after| > 2 then Some(after[2..]) else None
  }

  // ---------- the body's first sentence ----------

  predicate IsLineBreak(c: char) {
    '\n' <= c <= '\r' || '\U{1c}' <= c <= '\U{1e}' || c == '\U{85}' || c == '\U{2028}' || c == '\U{2029}'
  }

  /** `str.splitlines()`. */
  function SplitLines(s: string): seq<string> {
    if s == "" then []
    else if "\r\n" <= s then [""] + SplitLines(s[2..])
    else if IsLineBreak(s[0]) then [""] + SplitLines(s[1..])
    else
      var rest := SplitLines(s[1..]);
      if rest == [] then [[s[0]]] else [[s[0]] + rest[0]] + rest[1..]
  }

  function JoinLines(lines: seq<string>): string {
    if lines == [] then "" else if |lines| == 1 then lines[0] else lines[0] + "\n" + JoinLines(lines[1..])
  }

  predicate IsScopeChar(c: char) {
    IsLower(c) || 'A' <= c <= 'Z' || IsDigit(c) || c == '_' || c == '.' || c == '-'
  }

  function ScopeRun(s: string): (k: nat)
    ensures k <= |s| && (forall i :: 0 <= i < k ==> IsScopeChar(s[i])) && (k < |s| ==> !IsScopeChar(s[k]))
  {
    if s == "" || !IsScopeChar(s[0]) then 0 else ScopeRun(s[1..]) + 1
  }

  const KINDS := ["feat", "fix", "perf", "refactor", "test", "chore", "docs"]

  /** `^(kind)\([\w.-]+\):\s` */
  predicate IsEchoOf(kind: string, s: string) {
    kind + "(" <= s &&
    var scoped := s[|kind| + 1..];
    var k := ScopeRun(scoped);
    k > 0 && "):" <= scoped[k..] && |scoped[k..]| > 2 && IsSpace(scoped[k..][2])
  }

  /** A bullet that repeats the title of one squashed commit. */
  predicate IsBulletEcho(line: string) {
    line != "" && line[0] == '*' && exists i :: 0 <= i < |KINDS| && IsEchoOf(KINDS[i], LStrip(line[1..]))
  }

  function LowerCase(s: string): string {
    seq(|s|, i requires 0 <= i < |s| => if 'A' <= s[i] <= 'Z' then (s[i] as int + 32) as char else s[i])
  }

  predicate IsLabel(line: string) {
    var stripped := Strip(line);
    stripped == "" || IsBulletEcho(stripped) || "because:" <= LowerCase(stripped)
  }

  function SkipLabels(lines: seq<string>): seq<string> {
    if lines != [] && IsLabel(lines[0]) then SkipLabels(lines[1..]) else lines
  }

  /** `_skip_label_lines`: the longest suffix that starts at a real line. */
  method SkipLabelLines(lines: seq<string>) returns (rest: seq<string>)
    ensures rest == SkipLabels(lines)
    ensures |rest| <= |lines| && rest == lines[|lines| - |rest|..]
    ensures forall i :: 0 <= i < |lines| - |rest| ==> IsLabel(lines[i])
    ensures rest != [] ==> !IsLabel(rest[0])
  {
    var index := 0;
    assert lines[0..] == lines;
    while index < |lines|
      invariant 0 <= index <= |lines|
      invariant forall i :: 0 <= i < index ==> IsLabel(lines[i])
      invariant SkipLabels(lines) == SkipLabels(lines[index..])
    {
      if !IsLabel(lines[index]) {
        break;
      }
      assert lines[index..][1..] == lines[index + 1..];
      index := index + 1;
    }
    rest := lines[index..];
  }

  predicate EndsSentence(text: string, i: nat)
    requires i < |text|
  {
    (text[i] == '.' || text[i] == '!' || text[i] == '?') && (i + 1 == |text| || IsSpace(text[i + 1]))
  }

  function BlankRun(s: string): (k: nat)
    ensures k <= |s| && (forall i :: 0 <= i < k ==> s[i] == ' ' || s[i] == '\t')
    ensures k < |s| ==> s[k] != ' ' && s[k] != '\t'
  {
    if s == "" || (s[0] != ' ' && s[0] != '\t') then 0 else BlankRun(s[1..]) + 1
  }

  predicate NextIsBlank(rest: string) {
    var k := BlankRun(rest);
    k < |rest| && rest[k] == '\n'
  }

  predicate StartsBlankLine(text: string, i: nat)
    requires i < |text|
  {
    text[i] == '\n' && NextIsBlank(text[i + 1..])
  }

  /** Where the first sentence ends, from a position on: after its final mark, before a
      blank line, or with the text. */
  function SentenceEnd(text: string, from: nat := 0): (end: nat)
    requires from <= |text|
    ensures from <= end <= |text|
    ensures forall i :: from <= i < end - 1 ==> !EndsSentence(text, i)
    ensures forall i :: from <= i < end ==> !StartsBlankLine(text, i)
    ensures end == |text| || StartsBlankLine(text, end) || (end > from && EndsSentence(text, end - 1))
    decreases |text| - from
  {
    if from == |text| then from
    else if EndsSentence(text, from) then from + 1
    else if StartsBlankLine(text, from) then from
    else SentenceEnd(text, from + 1)
  }

  /** The position of the last space, or -1: `rfind(" ")`. */
  function LastSpace(s: string): (i: int)
    ensures -1 <= i < |s|
  {
    if s == "" then -1 else if s[|s| - 1] == ' ' then |s| - 1 else LastSpace(s[..|s| - 1])
  }

  function Clip(text: string, limit: nat): string {
    if |text| <= limit then text
    else
      var truncated := text[..limit];
      var cut := LastSpace(truncated);
      if cut <= 0 then truncated else RStrip(truncated[..cut])
  }

  function BodyText(body: string): string {
    Strip(JoinLines(SkipLabels(SplitLines(body))))
  }

  /** The words of the body's first sentence, as its author wrote them. */
  function SentenceWords(body: string): seq<string> {
    var text := BodyText(body);
    Words(text[..SentenceEnd(text)])
  }

  function FirstBodySentence(body: string): Option<string> {
    var text := BodyText(body);
    if text == "" then None
    else
      var sentence := Strip(Join(Words(text[..SentenceEnd(text)])));
      if sentence == "" then None else Some(Clip(sentence, MAX_ENTRY_TEXT_LENGTH))
  }

  lemma {:induction false} LastSpaceConcat(a: string, b: string)
    ensures LastSpace(a + b) == if LastSpace(b) >= 0 then |a| + LastSpace(b) else LastSpace(a)
  {
    if b == "" {
      assert a + b == a;
    } else {
      var n := |b| - 1;
      assert (a + b)[..|a + b| - 1] == a + b[..n];
      LastSpaceConcat(a, b[..n]);
    }
  }

  lemma {:induction false} NoLastSpace(s: string)
    requires NoSpace(s)
    ensures LastSpace(s) == -1
  {
    if s != "" {
      NoLastSpace(s[..|s| - 1]);
    }
  }

  /** In joined words the last space before a position ends the last words that fit. */
  lemma {:induction false} LastSpaceOfJoin(ws: seq<string>, n: nat)
    requires AllWords(ws) && ws != [] && n <= |Join(ws)|
    ensures n <= |ws[0]| ==> LastSpace(Join(ws)[..n]) == -1
    ensures n > |ws[0]| ==>
              exists k :: 1 <= k < |ws| && LastSpace(Join(ws)[..n]) == |Join(ws[..k])| < n <= |Join(ws[..k + 1])|
  {
    if n <= |ws[0]| {
      assert Join(ws)[..n] == ws[0][..n];
      NoLastSpace(ws[0][..n]);
    } else {
      var rest := ws[1..];
      var m := n - |ws[0]| - 1;
      assert Join(ws)[..n] == ws[0] + " " + Join(rest)[..m];
      LastSpaceOfJoin(rest, m);
      LastSpaceConcat(ws[0] + " ", Join(rest)[..m]);
      if m <= |rest[0]| {
        JoinFirst(ws);
        assert 1 < |ws| && LastSpace(Join(ws)[..n]) == |Join(ws[..1])| < n <= |Join(ws[..1 + 1])|;
      } else {
        var k :| 1 <= k < |rest| && LastSpace(Join(rest)[..m]) == |Join(rest[..k])| < m <= |Join(rest[..k + 1])|;
        JoinLengths(ws, k);
        assert LastSpace(Join(ws)[..n]) == |Join(ws[..k + 1])| < n <= |Join(ws[..k + 1 + 1])|;
      }
    }
  }

  lemma JoinLengths(ws: seq<string>, k: nat)
    requires 1 <= k && k + 1 < |ws|
    ensures |Join(ws[..k + 1])| == |ws[0]| + 1 + |Join(ws[1..][..k])|
    ensures |Join(ws[..k + 1 + 1])| == |ws[0]| + 1 + |Join(ws[1..][..k + 1])|
  {
    hide Join;
    JoinCons(ws, k);
    JoinCons(ws, k + 1);
  }

  lemma JoinFirst(ws: seq<string>)
    requires |ws| >= 2
    ensures Join(ws[..1]) == ws[0] && |Join(ws[..2])| == |ws[0]| + 1 + |ws[1]|
  {
    assert ws[..2][1..] == [ws[1]];
  }

  lemma JoinCons(ws: seq<string>, k: nat)
    requires 1 <= k < |ws|
    ensures Join(ws[..k + 1]) == ws[0] + " " + Join(ws[1..][..k])
  {
    assert ws[..k + 1][1..] == ws[1..][..k];
  }

  lemma {:induction false} JoinEnds(ws: seq<string>)
    requires AllWords(ws) && ws != []
    ensures Join(ws) != "" && !IsSpace(Join(ws)[0]) && !IsSpace(Join(ws)[|Join(ws)| - 1])
  {
    if |ws| > 1 {
      JoinEnds(ws[1..]);
    }
  }

  /** Clipping keeps the words that end before the limit with a space after them, and cuts
      a word only when the first word alone reaches the limit. */
  lemma ClipWords(ws: seq<string>, limit: nat)
    requires AllWords(ws) && ws != [] && limit > 0
    ensures Clip(Join(ws), limit) != "" && |Clip(Join(ws), limit)| <= limit
    ensures if |Join(ws)| <= limit then Clip(Join(ws), limit) == Join(ws)
            else if |ws[0]| >= limit then Clip(Join(ws), limit) == ws[0][..limit]
            else exists k :: 1 <= k < |ws| && Clip(Join(ws), limit) == Join(ws[..k])
                             && |Join(ws[..k])| < limit <= |Join(ws[..k + 1])|
  {
    hide Join, LastSpace, RStrip;
    JoinEnds(ws);
    if |Join(ws)| > limit {
      LastSpaceOfJoin(ws, limit);
      if |ws[0]| >= limit {
        ClippedFirst(ws, limit);
      } else {
        var k :| 1 <= k < |ws| && LastSpace(Join(ws)[..limit]) == |Join(ws[..k])| < limit <= |Join(ws[..k + 1])|;
        ClippedAt(ws, k, limit);
      }
    }
  }

  lemma ClippedFirst(ws: seq<string>, limit: nat)
    requires ws != [] && limit <= |ws[0]|
    ensures limit <= |Join(ws)| && Join(ws)[..limit] == ws[0][..limit]
  {
  }

  lemma ClippedAt(ws: seq<string>, k: nat, limit: nat)
    requires AllWords(ws) && 1 <= k < |ws| && |Join(ws[..k])| < limit < |Join(ws)|
    ensures Join(ws[..k]) != "" && RStrip(Join(ws)[..limit][..|Join(ws[..k])|]) == Join(ws[..k])
  {
    hide Join;
    JoinEnds(ws[..k]);
    JoinPrefix(ws, k);
    assert Join(ws)[..limit][..|Join(ws[..k])|] == Join(ws[..k]);
    assert RStrip(Join(ws[..k])) == Join(ws[..k]);
  }

  lemma {:induction false} JoinPrefix(ws: seq<string>, k: nat)
    requires 1 <= k <= |ws|
    ensures Join(ws[..k]) <= Join(ws)
  {
    if |ws| > 1 && k > 1 {
      JoinPrefix(ws[1..], k - 1);
      JoinCons(ws, k - 1);
    } else if |ws| > 1 {
      assert ws[..1] == [ws[0]];
    } else {
      assert ws[..k] == ws;
    }
  }

  /** The entry text taken from a body: when there is a sentence at all, its leading words,
      single-spaced on one line, at most 300 characters; the words are all of them, or as
      many as end, with a space after them, before the limit. */
  lemma BodySentence(body: string)
    ensures FirstBodySentence(body).Some? <==> BodyText(body) != ""
    ensures FirstBodySentence(body).Some? ==>
              var t, ws := FirstBodySentence(body).value, SentenceWords(body);
              && t != "" && |t| <= 300 && ws != []
              && (if |Join(ws)| <= 300 then Words(t) == ws
                  else if |ws[0]| >= 300 then t == ws[0][..300]
                  else exists k :: 1 <= k < |ws| && Words(t) == ws[..k] && t == Join(ws[..k])
                                   && |t| < 300 <= |Join(ws[..k + 1])|)
  {
    var text := BodyText(body);
    if text != "" {
      var ws := SentenceWords(body);
      StripEnds(JoinLines(SkipLabels(SplitLines(body))));
      SentenceHasWord(text);
      JoinEnds(ws);
      StripNothing(Join(ws));
      ClipWords(ws, MAX_ENTRY_TEXT_LENGTH);
      WordsOfJoin(ws);
      forall k | 1 <= k < |ws| ensures Words(Join(ws[..k])) == ws[..k] {
        WordsOfJoin(ws[..k]);
      }
    }
  }

  lemma SentenceHasWord(text: string)
    requires text != "" && !IsSpace(text[0])
    ensures SentenceEnd(text) > 0 && Words(text[..SentenceEnd(text)]) != []
  {
  }

  /** The limit is not inclusive for a word: a text is cut after the last word that ends at
      or before the limit, exactly when that word ends before it or is the first. */
  lemma ClipAtBoundary(ws: seq<string>, k: nat, limit: nat)
    requires AllWords(ws) && 1 <= k < |ws| && |Join(ws[..k])| <= limit < |Join(ws[..k + 1])|
    ensures Clip(Join(ws), limit) == Join(ws[..k]) <==> |Join(ws[..k])| < limit || k == 1
  {
    hide Clip, Join;
    JoinGrows(ws, k + 1, |ws|);
    JoinGrows(ws, 1, k);
    JoinAll(ws);
    ClipWords(ws, limit);
    if |ws[0]| < limit {
      var n :| 1 <= n < |ws| && Clip(Join(ws), limit) == Join(ws[..n])
               && |Join(ws[..n])| < limit <= |Join(ws[..n + 1])|;
      if n < k {
        JoinGrows(ws, n + 1, k);
      } else if k < n {
        JoinGrows(ws, k + 1, n);
      }
    } else {
      assert |ws[0]| == limit && ws[0][..limit] == ws[0];
      if k > 1 {
        JoinLonger(ws, 1, k);
      }
    }
  }

  /** A clipped text ends with a whole word exactly when its first word fits. */
  lemma ClipWholeWords(ws: seq<string>, limit: nat)
    requires AllWords(ws) && ws != [] && limit > 0
    ensures (exists k :: 1 <= k <= |ws| && Clip(Join(ws), limit) == Join(ws[..k])) <==> |ws[0]| <= limit
  {
    hide Clip, Join;
    JoinAll(ws);
    ClipWords(ws, limit);
    forall k | 1 <= k <= |ws| ensures |Join(ws[..k])| >= |ws[0]| {
      JoinGrows(ws, 1, k);
    }
    if |Join(ws)| <= limit {
      JoinGrows(ws, 1, |ws|);
      assert Clip(Join(ws), limit) == Join(ws[..|ws|]);
    } else if |ws[0]| == limit {
      JoinOne(ws);
      assert ws[0][..limit] == ws[0];
      assert Clip(Join(ws), limit) == Join(ws[..1]);
    }
  }

  /** More words make a longer text. */
  lemma {:induction false} JoinLonger(ws: seq<string>, i: nat, k: nat)
    requires AllWords(ws) && 1 <= i < k <= |ws|
    ensures |Join(ws[..i])| < |Join(ws[..k])|
    decreases k
  {
    if i == 1 {
      JoinOne(ws);
      JoinCons(ws, k - 1);
    } else {
      JoinCons(ws, i - 1);
      JoinCons(ws, k - 1);
      JoinLonger(ws[1..], i - 1, k - 1);
    }
  }

  lemma JoinGrows(ws: seq<string>, i: nat, k: nat)
    requires AllWords(ws) && 1 <= i <= k <= |ws|
    ensures |Join(ws[..i])| <= |Join(ws[..k])| && Join(ws[..1]) == ws[0]
  {
    JoinOne(ws);
    if i < k {
      JoinLonger(ws, i, k);
    }
  }

  lemma JoinOne(ws: seq<string>)
    requires ws != []
    ensures Join(ws[..1]) == ws[0]
  {
  }

  lemma JoinAll(ws: seq<string>)
    ensures ws[..|ws|] == ws
  {
  }

  /** The same of a commit's body: its entry ends at the last word boundary at or before the
      limit exactly when that boundary is before the limit or after the first word. */
  lemma BodyBoundary(body: string, k: nat)
    requires var ws := SentenceWords(body);
             1 <= k < |ws| && |Join(ws[..k])| <= 300 < |Join(ws[..k + 1])|
    ensures var ws := SentenceWords(body);
            FirstBodySentence(body) == Some(Join(ws[..k]))
            <==> |Join(ws[..k])| < 300 || k == 1
  {
    hide SentenceWords, FirstBodySentence;
    SentenceClipped(body);
    ClipAtBoundary(SentenceWords(body), k, MAX_ENTRY_TEXT_LENGTH);
  }

  /** And it has whole words only, exactly when the first word fits. */
  lemma BodyWholeWords(body: string)
    requires BodyText(body) != ""
    ensures var ws := SentenceWords(body);
            && ws != []
            && ((exists k :: 1 <= k <= |ws| && FirstBodySentence(body) == Some(Join(ws[..k])))
                <==> |ws[0]| <= 300)
  {
    hide SentenceWords, FirstBodySentence;
    SentenceClipped(body);
    ClipWholeWords(SentenceWords(body), MAX_ENTRY_TEXT_LENGTH);
  }

  lemma SentenceClipped(body: string)
    ensures AllWords(SentenceWords(body))
    ensures SentenceWords(body) != [] <==> BodyText(body) != ""
    ensures BodyText(body) != "" ==>
              FirstBodySentence(body) == Some(Clip(Join(SentenceWords(body)), MAX_ENTRY_TEXT_LENGTH))
  {
    var text := BodyText(body);
    if text != "" {
      StripEnds(JoinLines(SkipLabels(SplitLines(body))));
      SentenceHasWord(text);
      JoinEnds(SentenceWords(body));
      StripNothing(Join(SentenceWords(body)));
    } else {
      assert text[..SentenceEnd(text)] == "";
    }
  }

  // ---------- a body that loses a word ----------

  /** Lower-case words and the spaces between them. */
  predicate IsPlain(s: string) {
    forall i :: 0 <= i < |s| ==> IsLower(s[i]) || s[i] == ' '
  }

  lemma {:induction false} OneLine(s: string)
    requires IsPlain(s) && s != ""
    ensures SplitLines(s) == [s]
  {
    assert s == [s[0]] + s[1..] && !IsLineBreak(s[0]);
    assert "\r\n"[0] == '\r';
    if s[1..] == "" {
      assert SplitLines(s[1..]) == [] && s == [s[0]];
    } else {
      OneLine(s[1..]);
      assert SplitLines(s) == [[s[0]] + s[1..]] + [s[1..]][1..];
    }
  }

  lemma PlainIsNoLabel(s: string)
    requires IsPlain(s) && s != "" && s[0] != ' ' && s[|s| - 1] != ' '
    ensures !IsLabel(s)
  {
    StripNothing(s);
    assert |s| > 7 ==> LowerCase(s)[7] == s[7] && "because:"[7] == ':';
  }

  /** All of such a body is its first sentence. */
  lemma PlainSentence(s: string)
    requires IsPlain(s) && s != "" && s[0] != ' ' && s[|s| - 1] != ' '
    ensures BodyText(s) == s && SentenceWords(s) == Words(s)
  {
    PlainBody(s);
    PlainEnd(s);
    assert s[..|s|] == s;
  }

  lemma PlainBody(s: string)
    requires IsPlain(s) && s != "" && s[0] != ' ' && s[|s| - 1] != ' '
    ensures BodyText(s) == s
  {
    hide SplitLines, IsLabel;
    OneLine(s);
    PlainIsNoLabel(s);
    StripNothing(s);
    assert SkipLabels([s]) == [s] && JoinLines([s]) == s;
  }

  lemma PlainEnd(s: string)
    requires IsPlain(s)
    ensures SentenceEnd(s) == |s|
  {
    forall i | 0 <= i < |s| ensures !EndsSentence(s, i) && !StartsBlankLine(s, i) {
      assert IsLower(s[i]) || s[i] == ' ';
    }
  }

  /** A word that would end exactly at the limit is lost from the entry. */
  lemma WordAtLimitDropped(a: string, b: string)
    requires IsPlain(a) && IsPlain(b) && IsWord(a) && IsWord(b) && |a| == 297
    ensures |a + " bb"| == 300 && FirstBodySentence(a + " bb " + b) == Some(a)
  {
    hide SentenceWords, FirstBodySentence;
    var ws, body := [a, "bb", b], a + " bb " + b;
    ThreeJoined(a, b);
    PlainSentence(body);
    WordsOfJoin(ws);
    SentenceClipped(body);
    ClipWords(ws, MAX_ENTRY_TEXT_LENGTH);
    var k :| 1 <= k < |ws| && Clip(Join(ws), MAX_ENTRY_TEXT_LENGTH) == Join(ws[..k])
             && |Join(ws[..k])| < MAX_ENTRY_TEXT_LENGTH <= |Join(ws[..k + 1])|;
    assert k == 1;
  }

  lemma ThreeJoined(a: string, b: string)
    ensures var ws := [a, "bb", b];
            && Join(ws) == a + " bb " + b && Join(ws[..1]) == a && Join(ws[..2]) == a + " bb" && ws[..3] == ws
  {
    var ws := [a, "bb", b];
    assert ws[1..] == ["bb", b] && ["bb", b][1..] == [b] && Join([b]) == b;
    assert Join(["bb", b]) == "bb" + " " + b;
    assert ws[..1] == [a] && ws[..2] == [a, "bb"] && [a, "bb"][1..] == ["bb"];
    assert a + " " + ("bb" + " " + b) == a + " bb " + b && a + " " + "bb" == a + " bb";
  }

  // ---------- one record, and the whole dump ----------

  function OrElse(first: Option<string>, second: string): string {
    if first.Some? then first.value else second
  }

  /** The entry of one commit: its number and the text it is announced with. */
  function EntryOf(subject: string, body: string): Option<Entry> {
    match PrSuffix(subject)
    case None => None
    case Some((title, pr)) =>
      var text := OrElse(FirstBodySentence(body), OrElse(AfterPrefix(title), title));
      if Strip(text) == "" then None else Some(Entry(pr, Strip(text)))
  }

  function SkipNewlines(s: string): (rest: string)
    ensures |rest| <= |s| && rest == s[|s| - |rest|..] && (rest != "" ==> rest[0] != '\n')
    ensures forall i :: 0 <= i < |s| - |rest| ==> s[i] == '\n'
  {
    if s != "" && s[0] == '\n' then SkipNewlines(s[1..]) else s
  }

  /** A record's subject and body: `split` into at most three fields. */
  function Fields(r: string): Option<(string, string)> {
    var i := IndexOf(r, FIELD_SEP);
    if i == -1 then None
    else
      var rest := r[i + 1..];
      var j := IndexOf(rest, FIELD_SEP);
      if j == -1 then Some((rest, "")) else Some((rest[..j], rest[j + 1..]))
  }

  function ParseRecord(record: string): Option<Entry> {
    match Fields(SkipNewlines(record))
    case None => None
    case Some((subject, body)) => EntryOf(subject, body)
  }

  function Present(found: seq<Option<Entry>>): seq<Entry> {
    if found == [] then []
    else Present(found[..|found| - 1]) + (if found[|found| - 1].Some? then [found[|found| - 1].value] else [])
  }

  function Parsed(records: seq<string>): seq<Option<Entry>> {
    seq(|records|, i requires 0 <= i < |records| => ParseRecord(records[i]))
  }

  /** `parse_commit_log`: the loop over the records. */
  method ParseCommitLog(text: string) returns (entries: seq<Entry>)
    ensures entries == Present(Parsed(Split(text, RECORD_SEP)))
  {
    entries := [];
    var records := Split(text, RECORD_SEP);
    ghost var parsed := Parsed(records);
    for i := 0 to |records|
      invariant entries == Present(parsed[..i])
    {
      assert parsed[..i + 1][..i] == parsed[..i];
      var found := ParseRecord(records[i]);
      assert found == parsed[i];
      if found.Some? {
        entries := entries + [found.value];
      }
    }
    assert parsed[..|records|] == parsed;
  }

  /** A commit; `pr` is the number that its subject ends in, if it ends in one. */
  datatype Commit = Commit(hash: string, title: string, pr: Option<nat>, body: string)

  function Subject(c: Commit): string {
    match c.pr
    case None => c.title
    case Some(n) => c.title + " (#" + Dec(n) + ")"
  }

  /** One printed record: hash, subject and body. */
  function RecordOf(c: Commit, lead: string): string {
    lead + (c.hash + [FIELD_SEP] + (Subject(c) + [FIELD_SEP] + c.body))
  }

  /** What git prints for the list, oldest first: records end in a separator, and a newline
      stands between two of them. */
  function Dump(commits: seq<Commit>, lead: string := ""): string {
    if commits == [] then "" else RecordOf(commits[0], lead) + [RECORD_SEP] + Dump(commits[1..], "\n")
  }

  predicate Plain(s: string) {
    RECORD_SEP !in s && FIELD_SEP !in s && '\n' !in s
  }

  /** What a real dump satisfies: separators and newlines only where the format puts them,
      and a title without a number of its own when the commit has none. */
  predicate CommitOk(c: Commit) {
    Plain(c.hash) && Plain(c.title) && RECORD_SEP !in c.body && (c.pr == None ==> PrSuffix(c.title) == None)
  }

  /** The announced text: the body's sentence, else the title without its prefix. */
  function AnnouncedText(c: Commit): string {
    Strip(OrElse(FirstBodySentence(c.body), OrElse(AfterPrefix(c.title), c.title)))
  }

  /** The entry of a commit that has a number and something to announce. */
  function Announcement(c: Commit): Option<Entry> {
    if c.pr.Some? && AnnouncedText(c) != "" then Some(Entry(c.pr.value, AnnouncedText(c))) else None
  }

  function Announcements(commits: seq<Commit>): seq<Option<Entry>> {
    seq(|commits|, i requires 0 <= i < |commits| => Announcement(commits[i]))
  }

  /** The number read off a subject is its last suffix, even when the title ends in one. */
  lemma SuffixOfSubject(title: string, n: nat)
    requires '\n' !in title
    ensures PrSuffix(title + " (#" + Dec(n) + ")") == Some((title, n))
  {
    var front := title + " (#";
    var s := title + " (#" + Dec(n) + ")";
    assert s[..|s| - 1] == front + Dec(n);
    assert front[|front| - 1] == '#';
    TrailingDigitsOf(front, Dec(n));
    assert (front + Dec(n))[..|front|] == front && (front + Dec(n))[|front|..] == Dec(n);
    assert front[|front| - 3..] == " (#" && front[..|front| - 3] == title;
    ValueOfDec(n);
  }

  lemma EntryOfCommit(c: Commit)
    requires CommitOk(c)
    ensures EntryOf(Subject(c), c.body) == Announcement(c)
  {
    if c.pr.Some? {
      SuffixOfSubject(c.title, c.pr.value);
    }
  }

  lemma PlainSubject(c: Commit)
    requires CommitOk(c)
    ensures Plain(Subject(c))
  {
  }

  lemma SkipLead(lead: string, r: string)
    requires (lead == "" || lead == "\n") && r != "" && r[0] != '\n'
    ensures SkipNewlines(lead + r) == r
  {
  }

  lemma FieldsOf(hash: string, subject: string, body: string)
    requires FIELD_SEP !in hash && FIELD_SEP !in subject
    ensures Fields(hash + [FIELD_SEP] + (subject + [FIELD_SEP] + body)) == Some((subject, body))
  {
    var rest := subject + [FIELD_SEP] + body;
    var r := hash + [FIELD_SEP] + rest;
    IndexOfFirst(hash, FIELD_SEP, rest);
    assert r[|hash| + 1..] == rest;
    IndexOfFirst(subject, FIELD_SEP, body);
    assert rest[..|subject|] == subject && rest[|subject| + 1..] == body;
  }

  lemma ParsePrintedRecord(c: Commit, lead: string)
    requires CommitOk(c) && (lead == "" || lead == "\n")
    ensures ParseRecord(RecordOf(c, lead)) == EntryOf(Subject(c), c.body)
  {
    var r := c.hash + [FIELD_SEP] + (Subject(c) + [FIELD_SEP] + c.body);
    PlainSubject(c);
    SkipLead(lead, r);
    FieldsOf(c.hash, Subject(c), c.body);
  }

  /** The records that splitting a dump yields: one for every commit, and an empty one. */
  function Pieces(commits: seq<Commit>, lead: string): seq<string> {
    if commits == [] then [""] else [RecordOf(commits[0], lead)] + Pieces(commits[1..], "\n")
  }

  lemma {:induction false} SplitDump(commits: seq<Commit>, lead: string)
    requires (forall c :: c in commits ==> CommitOk(c)) && (lead == "" || lead == "\n")
    ensures Split(Dump(commits, lead), RECORD_SEP) == Pieces(commits, lead)
    decreases |commits|
  {
    if commits != [] {
      var c, rest := commits[0], Dump(commits[1..], "\n");
      assert c in commits;
      PlainSubject(c);
      assert RECORD_SEP !in RecordOf(c, lead);
      SplitPiece(RecordOf(c, lead), RECORD_SEP, rest);
      SplitDump(commits[1..], "\n");
    }
  }

  lemma {:induction false} PieceAt(commits: seq<Commit>, lead: string, i: nat)
    requires i <= |commits|
    ensures |Pieces(commits, lead)| == |commits| + 1
    ensures Pieces(commits, lead)[i]
            == if i < |commits| then RecordOf(commits[i], if i == 0 then lead else "\n") else ""
    decreases i
  {
    PiecesLength(commits, lead);
    if i > 0 {
      PieceAt(commits[1..], "\n", i - 1);
    }
  }

  lemma {:induction false} PiecesLength(commits: seq<Commit>, lead: string)
    ensures |Pieces(commits, lead)| == |commits| + 1
    decreases |commits|
  {
    if commits != [] {
      PiecesLength(commits[1..], "\n");
    }
  }

  lemma ParsePieceAt(commits: seq<Commit>, i: nat)
    requires (forall c :: c in commits ==> CommitOk(c)) && i <= |commits| == |Pieces(commits, "")| - 1
    ensures Parsed(Pieces(commits, ""))[i] == if i < |commits| then Announcement(commits[i]) else None
  {
    PieceAt(commits, "", i);
    if i < |commits| {
      assert commits[i] in commits;
      ParsePrintedRecord(commits[i], if i == 0 then "" else "\n");
      EntryOfCommit(commits[i]);
    }
  }

  /** Parsing the printed dump gives back, in order, one entry for every commit that has a
      number and something to announce. */
  lemma ParseDump(commits: seq<Commit>)
    requires forall c :: c in commits ==> CommitOk(c)
    ensures Present(Parsed(Split(Dump(commits), RECORD_SEP))) == Present(Announcements(commits))
  {
    SplitDump(commits, "");
    PiecesLength(commits, "");
    var parsed, all := Parsed(Pieces(commits, "")), Announcements(commits) + [None];
    forall i | 0 <= i < |all| ensures parsed[i] == all[i] {
      ParsePieceAt(commits, i);
    }
    assert parsed == all;
    assert all[..|all| - 1] == Announcements(commits);
  }
}
