/** What the commit-dump parser makes of the texts that it reads, case by case: titles with
    and without a number or a prefix, short records, lines, label lines and sentences. */
module CommitTexts {
  import opened Filters
  import opened Options
  import opened Decimal
  import opened Text
  import opened Changelog
  import opened CommitLog

  // ---------- the title ----------

  /** A title in front of its number, and the newline that `$` may stand before. */
  predicate HasSuffix(subject: string, title: string, digits: string, end: string) {
    && subject == title + " (#" + digits + ")" + end
    && digits != "" && AllDigits(digits) && '\n' !in title && (end == "" || end == "\n")
  }

  /** A subject carries a number exactly when it has that shape. */
  lemma SuffixExactly(subject: string)
    ensures PrSuffix(subject).Some? <==> exists title, digits, end :: HasSuffix(subject, title, digits, end)
    ensures forall title, digits, end :: HasSuffix(subject, title, digits, end) ==>
              PrSuffix(subject) == Some((title, Value(digits)))
  {
    forall title, digits, end | HasSuffix(subject, title, digits, end)
      ensures PrSuffix(subject) == Some((title, Value(digits)))
    {
      SuffixRead(title, digits, end);
    }
    if PrSuffix(subject).Some? {
      var _ := SuffixShape(subject);
    }
  }

  lemma SuffixRead(title: string, digits: string, end: string)
    requires HasSuffix(title + " (#" + digits + ")" + end, title, digits, end)
    ensures PrSuffix(title + " (#" + digits + ")" + end) == Some((title, Value(digits)))
  {
    var front, s := title + " (#", title + " (#" + digits + ")";
    assert s[..|s| - 1] == front + digits;
    assert end == "\n" ==> (s + end)[..|s + end| - 1] == s;
    assert end == "" ==> s + end == s;
    TrailingDigitsOf(front, digits);
    assert (front + digits)[..|front|] == front && (front + digits)[|front|..] == digits;
    assert front[|front| - 3..] == " (#" && front[..|front| - 3] == title;
  }

  lemma SuffixShape(subject: string) returns (digits: string)
    requires PrSuffix(subject).Some?
    ensures exists end :: HasSuffix(subject, PrSuffix(subject).value.0, digits, end)
  {
    hide TrailingDigits, Value;
    var s := if subject != "" && subject[|subject| - 1] == '\n' then subject[..|subject| - 1] else subject;
    var end := subject[|s|..];
    var inner := s[..|s| - 1];
    var front := inner[..|inner| - TrailingDigits(inner)];
    digits := inner[|inner| - TrailingDigits(inner)..];
    CutAt(inner, |inner| - TrailingDigits(inner), "");
    SuffixParts(s, front, digits);
    CutAt(subject, |s|, "");
    assert HasSuffix(subject, front[..|front| - 3], digits, end);
  }

  lemma SuffixParts(s: string, front: string, digits: string)
    requires s != "" && s[|s| - 1] == ')' && s[..|s| - 1] == front + digits && EndsWith(front, " (#")
    ensures s == front[..|front| - 3] + " (#" + digits + ")"
  {
    assert front == front[..|front| - 3] + front[|front| - 3..];
    assert s == s[..|s| - 1] + ")";
  }

  predicate IsLowerWord(s: string) {
    s != "" && forall i :: 0 <= i < |s| ==> 'a' <= s[i] <= 'z'
  }

  /** A conventional title: `type: rest` or `type(scope): rest`. */
  function Conventional(kind: string, scope: Option<string>, rest: string): string {
    kind + (if scope.Some? then "(" + scope.value + ")" else "") + ": " + rest
  }

  predicate HasPrefix(title: string, kind: string, scope: Option<string>, rest: string) {
    && title == Conventional(kind, scope, rest)
    && IsLowerWord(kind) && (scope.Some? ==> ')' !in scope.value) && rest != ""
  }

  /** The prefix comes off a title exactly when the title is conventional. */
  lemma PrefixExactly(title: string)
    ensures AfterPrefix(title).Some? <==> exists kind, scope, rest :: HasPrefix(title, kind, scope, rest)
    ensures forall kind, scope, rest :: HasPrefix(title, kind, scope, rest) ==> AfterPrefix(title) == Some(rest)
  {
    forall kind, scope, rest | HasPrefix(title, kind, scope, rest) ensures AfterPrefix(title) == Some(rest) {
      PrefixRead(kind, scope, rest);
    }
    if AfterPrefix(title).Some? {
      var kind, scope := PrefixShape(title);
    }
  }

  lemma PrefixRead(kind: string, scope: Option<string>, rest: string)
    requires HasPrefix(Conventional(kind, scope, rest), kind, scope, rest)
    ensures AfterPrefix(Conventional(kind, scope, rest)) == Some(rest)
  {
    var title, after := Conventional(kind, scope, rest), ": " + rest;
    var tail := if scope.Some? then "(" + scope.value + [')'] + after else after;
    assert title == kind + tail;
    LowerRunOf(kind, tail);
    Cut(kind, tail);
    Cut(": ", rest);
    if scope.Some? {
      IndexOfFirst("(" + scope.value, ')', after);
      Cut("(" + scope.value + [')'], after);
    }
  }

  lemma Cut(a: string, b: string)
    ensures (a + b)[..|a|] == a && (a + b)[|a|..] == b
  {
  }

  lemma {:induction false} LowerRunOf(kind: string, tail: string)
    requires (forall i :: 0 <= i < |kind| ==> IsLower(kind[i])) && (tail == "" || !IsLower(tail[0]))
    ensures LowerRun(kind + tail) == |kind|
  {
    if kind == "" {
      assert kind + tail == tail;
    } else {
      assert (kind + tail)[1..] == kind[1..] + tail;
      LowerRunOf(kind[1..], tail);
    }
  }

  lemma PrefixShape(title: string) returns (kind: string, scope: Option<string>)
    requires AfterPrefix(title).Some?
    ensures HasPrefix(title, kind, scope, AfterPrefix(title).value)
  {
    hide IndexOf, LowerRun, Conventional;
    kind, scope := title[..LowerRun(title)], None;
    var tail := title[|kind|..];
    CutAt(title, |kind|, "");
    var close := IndexOf(tail, ')');
    if tail[0] == '(' && close >= 0 {
      scope := Some(tail[1..close]);
      ScopeShape(kind, tail, close, AfterPrefix(title).value);
    } else {
      NoScopeShape(kind, tail, AfterPrefix(title).value);
    }
  }

  lemma NoScopeShape(kind: string, tail: string, rest: string)
    requires |tail| > 2 && ": " <= tail && rest == tail[2..]
    ensures kind + tail == Conventional(kind, None, rest)
  {
    assert tail == ": " + rest;
    assert kind + "" == kind;
  }

  lemma ScopeShape(kind: string, tail: string, close: nat, rest: string)
    requires close < |tail| && tail[0] == '(' && tail[close] == ')' && ')' !in tail[..close]
    requires |tail[close + 1..]| > 2 && ": " <= tail[close + 1..] && rest == tail[close + 1..][2..]
    ensures ')' !in tail[1..close] && kind + tail == Conventional(kind, Some(tail[1..close]), rest)
  {
    var scope, after := tail[1..close], tail[close + 1..];
    assert forall i :: 0 <= i < |scope| ==> scope[i] == tail[..close][i + 1];
    assert after == ": " + rest;
    assert tail == "(" + scope + ")" + after;
  }

  /** A commit without a body is announced with its title, less the prefix and the number. */
  lemma BareCommit(kind: string, scope: Option<string>, rest: string, pr: nat)
    requires HasPrefix(Conventional(kind, scope, rest), kind, scope, rest)
    requires '\n' !in Conventional(kind, scope, rest) && Strip(rest) != ""
    ensures EntryOf(Conventional(kind, scope, rest) + " (#" + Dec(pr) + ")", "") == Some(Entry(pr, Strip(rest)))
  {
    hide AfterPrefix, PrSuffix;
    SuffixOfSubject(Conventional(kind, scope, rest), pr);
    PrefixRead(kind, scope, rest);
    assert BodyText("") == "";
  }

  /** A title without a prefix is announced whole, and a commit with nothing to say is not
      announced. */
  lemma BareTitle(title: string, pr: nat)
    requires '\n' !in title && AfterPrefix(title) == None
    ensures EntryOf(title + " (#" + Dec(pr) + ")", "")
         == if Strip(title) == "" then None else Some(Entry(pr, Strip(title)))
  {
    hide AfterPrefix, PrSuffix;
    SuffixOfSubject(title, pr);
    assert BodyText("") == "";
  }

  /** A commit whose body has a sentence is announced with that, whatever its title. */
  lemma BodyFirst(title: string, pr: nat, body: string)
    requires '\n' !in title && BodyText(body) != ""
    ensures FirstBodySentence(body).Some?
    ensures EntryOf(title + " (#" + Dec(pr) + ")", body) == Some(Entry(pr, FirstBodySentence(body).value))
  {
    hide AfterPrefix, PrSuffix, FirstBodySentence, SentenceWords, Clip, Join;
    SuffixOfSubject(title, pr);
    SentenceClipped(body);
    ClippedIsStripped(SentenceWords(body), MAX_ENTRY_TEXT_LENGTH);
  }

  lemma ClippedIsStripped(ws: seq<string>, limit: nat)
    requires AllWords(ws) && ws != [] && limit > 0
    ensures Clip(Join(ws), limit) != "" && Strip(Clip(Join(ws), limit)) == Clip(Join(ws), limit)
  {
    hide Clip, Join;
    ClipWords(ws, limit);
    if |Join(ws)| <= limit {
      JoinEnds(ws);
      StripNothing(Join(ws));
    } else if |ws[0]| >= limit {
      StripNothing(ws[0][..limit]);
    } else {
      var k :| 1 <= k < |ws| && Clip(Join(ws), limit) == Join(ws[..k])
               && |Join(ws[..k])| < limit <= |Join(ws[..k + 1])|;
      JoinEnds(ws[..k]);
      StripNothing(Join(ws[..k]));
    }
  }

  function Somes(entries: seq<Entry>): seq<Option<Entry>> {
    seq(|entries|, i requires 0 <= i < |entries| => Some(entries[i]))
  }

  /** Exactly the records with an entry give one, in their order. */
  lemma {:induction false} PresentExactly(found: seq<Option<Entry>>)
    ensures Somes(Present(found)) == Filtered((e: Option<Entry>) => e.Some?, found)
  {
    if found != [] {
      var front, last := found[..|found| - 1], found[|found| - 1];
      PresentExactly(front);
      SomesSnoc(Present(front), last);
      assert Present(front) + [] == Present(front);
    }
  }

  lemma SomesSnoc(entries: seq<Entry>, last: Option<Entry>)
    ensures last.Some? ==> Somes(entries + [last.value]) == Somes(entries) + [last]
  {
  }

  // ---------- the record ----------

  /** A record with no separator is skipped, one with a single separator has an empty body,
      and a third separator belongs to the body. */
  lemma FieldsExactly(hash: string, subject: string, body: string)
    requires FIELD_SEP !in hash && FIELD_SEP !in subject
    ensures Fields(hash) == None
    ensures Fields(hash + [FIELD_SEP] + subject) == Some((subject, ""))
    ensures Fields(hash + [FIELD_SEP] + (subject + [FIELD_SEP] + body)) == Some((subject, body))
  {
    IndexOfFirst(hash, FIELD_SEP, subject);
    assert (hash + [FIELD_SEP] + subject)[|hash| + 1..] == subject;
    FieldsOf(hash, subject, body);
  }

  /** Newlines before a record are no part of it. */
  lemma LeadingNewlines(lead: string, record: string)
    requires (forall i :: 0 <= i < |lead| ==> lead[i] == '\n') && (record == "" || record[0] != '\n')
    ensures ParseRecord(lead + record) == ParseRecord(record)
  {
    hide Fields, EntryOf, SkipNewlines;
    NewlinesSkipped(lead, record);
    NewlinesSkipped("", record);
    assert "" + record == record;
  }

  lemma {:induction false} NewlinesSkipped(lead: string, record: string)
    requires (forall i :: 0 <= i < |lead| ==> lead[i] == '\n') && (record == "" || record[0] != '\n')
    ensures SkipNewlines(lead + record) == record
  {
    if lead == "" {
      assert lead + record == record;
    } else {
      assert (lead + record)[1..] == lead[1..] + record;
      NewlinesSkipped(lead[1..], record);
    }
  }

  // ---------- lines ----------

  /** The ten characters that break a line. */
  lemma LineBreaks(c: char)
    ensures IsLineBreak(c)
       <==> c in {'\n', '\U{b}', '\U{c}', '\r', '\U{1c}', '\U{1d}', '\U{1e}', '\U{85}', '\U{2028}', '\U{2029}'}
  {
  }

  predicate OneLineText(line: string) {
    forall i :: 0 <= i < |line| ==> !IsLineBreak(line[i])
  }

  /** A break ends a line, a carriage return and its newline are one break, and the last
      line needs none. */
  lemma LinesExactly(line: string, brk: char, rest: string)
    requires OneLineText(line) && IsLineBreak(brk) && !(brk == '\r' && rest != "" && rest[0] == '\n')
    ensures SplitLines(line + [brk] + rest) == [line] + SplitLines(rest)
    ensures SplitLines(line + "\r\n" + rest) == [line] + SplitLines(rest)
    ensures SplitLines(line) == if line == "" then [] else [line]
  {
    hide SplitLines;
    BreakFirst(brk, rest);
    LineThen(line, [brk] + rest, SplitLines(rest));
    assert line + [brk] + rest == line + ([brk] + rest);
    BothFirst(rest);
    LineThen(line, "\r\n" + rest, SplitLines(rest));
    assert line + "\r\n" + rest == line + ("\r\n" + rest);
    LineAlone(line);
  }

  lemma BreakFirst(brk: char, rest: string)
    requires IsLineBreak(brk) && !(brk == '\r' && rest != "" && rest[0] == '\n')
    ensures SplitLines([brk] + rest) == [""] + SplitLines(rest)
  {
    Cut([brk], rest);
    assert "\r\n"[0] == '\r' && "\r\n"[1] == '\n';
  }

  lemma BothFirst(rest: string)
    ensures SplitLines("\r\n" + rest) == [""] + SplitLines(rest)
  {
    Cut("\r\n", rest);
  }

  lemma {:induction false} LineThen(line: string, broken: string, more: seq<string>)
    requires OneLineText(line) && SplitLines(broken) == [""] + more
    ensures SplitLines(line + broken) == [line] + more
  {
    if line == "" {
      assert line + broken == broken;
    } else {
      assert (line + broken)[1..] == line[1..] + broken && "\r\n"[0] == '\r';
      LineThen(line[1..], broken, more);
      assert [line[0]] + line[1..] == line;
    }
  }

  lemma {:induction false} LineAlone(line: string)
    requires OneLineText(line)
    ensures SplitLines(line) == if line == "" then [] else [line]
  {
    if line != "" {
      assert "\r\n"[0] == '\r' && [line[0]] + line[1..] == line;
      LineAlone(line[1..]);
      if line[1..] == "" {
        assert [line[0]] == line;
      } else {
        assert SplitLines(line) == [[line[0]] + line[1..]] + [line[1..]][1..];
      }
    }
  }

  // ---------- label lines ----------

  predicate IsKind(kind: string) {
    || kind == "feat" || kind == "fix" || kind == "perf" || kind == "refactor"
    || kind == "test" || kind == "chore" || kind == "docs"
  }

  /** A scope: letters, digits, and the three marks that a scope may have. */
  predicate IsScope(scope: string) {
    scope != "" && forall i :: 0 <= i < |scope| ==>
        'a' <= scope[i] <= 'z' || 'A' <= scope[i] <= 'Z' || '0' <= scope[i] <= '9' || scope[i] in ['_', '.', '-']
  }

  function Bullet(blank: string, kind: string, scope: string, gap: char, rest: string): string {
    "*" + (blank + (kind + "(" + (scope + "):" + ([gap] + rest))))
  }

  ghost predicate HasBullet(line: string, blank: string, kind: string, scope: string, gap: char, rest: string) {
    AllSpace(blank) && IsKind(kind) && IsScope(scope) && IsSpace(gap) && line == Bullet(blank, kind, scope, gap, rest)
  }

  /** A line echoes a commit exactly when it is a bullet with one of the seven kinds, a
      scope, a colon and white space. */
  lemma EchoExactly(line: string)
    ensures IsBulletEcho(line)
       <==> exists blank, kind, scope, gap, rest :: HasBullet(line, blank, kind, scope, gap, rest)
  {
    forall blank, kind, scope, gap, rest | HasBullet(line, blank, kind, scope, gap, rest) ensures IsBulletEcho(line) {
      EchoRead(blank, kind, scope, gap, rest);
    }
    if IsBulletEcho(line) {
      EchoShape(line);
    }
  }

  lemma EchoRead(blank: string, kind: string, scope: string, gap: char, rest: string)
    requires AllSpace(blank) && IsKind(kind) && IsScope(scope) && IsSpace(gap)
    ensures IsBulletEcho(Bullet(blank, kind, scope, gap, rest))
  {
    hide IsEchoOf, LStrip;
    var text := kind + "(" + (scope + "):" + ([gap] + rest));
    KindStarts(kind);
    LStripSpace(blank, text);
    Cut("*", blank + text);
    EchoOf(kind, scope, gap, rest);
    var i :| 0 <= i < |KINDS| && KINDS[i] == kind;
    assert IsEchoOf(KINDS[i], LStrip(Bullet(blank, kind, scope, gap, rest)[1..]));
  }

  lemma KindStarts(kind: string)
    requires IsKind(kind)
    ensures kind in KINDS && kind != "" && !IsSpace(kind[0])
  {
    var ks := KINDS;
    assert ks[0] == "feat" && ks[1] == "fix" && ks[2] == "perf" && ks[3] == "refactor" && ks[4] == "test"
           && ks[5] == "chore" && ks[6] == "docs";
  }

  lemma EchoOf(kind: string, scope: string, gap: char, rest: string)
    requires IsScope(scope) && IsSpace(gap)
    ensures IsEchoOf(kind, kind + "(" + (scope + "):" + ([gap] + rest)))
  {
    var tail := "):" + ([gap] + rest);
    assert scope + "):" + ([gap] + rest) == scope + tail;
    Cut(kind + "(", scope + tail);
    ScopeRunOf(scope, tail);
    Cut(scope, tail);
    assert tail[2] == gap && tail[..2] == "):";
  }

  lemma {:induction false} ScopeRunOf(scope: string, tail: string)
    requires (forall i :: 0 <= i < |scope| ==> IsScopeChar(scope[i])) && (tail == "" || !IsScopeChar(tail[0]))
    ensures ScopeRun(scope + tail) == |scope|
  {
    if scope == "" {
      assert scope + tail == tail;
    } else {
      assert (scope + tail)[1..] == scope[1..] + tail;
      ScopeRunOf(scope[1..], tail);
    }
  }

  lemma EchoShape(line: string)
    requires IsBulletEcho(line)
    ensures exists blank, kind, scope, gap, rest :: HasBullet(line, blank, kind, scope, gap, rest)
  {
    hide LStrip, IsEchoOf, IsScope, Bullet;
    var i :| 0 <= i < |KINDS| && IsEchoOf(KINDS[i], LStrip(line[1..]));
    var text := LStrip(line[1..]);
    LStripped(line[1..]);
    var blank := line[1..][..|line[1..]| - |text|];
    var scope, gap, rest := EchoParts(KINDS[i], text);
    BulletOf(line, blank, KINDS[i], scope, gap, rest);
    assert HasBullet(line, blank, KINDS[i], scope, gap, rest);
  }

  lemma BulletOf(line: string, blank: string, kind: string, scope: string, gap: char, rest: string)
    requires line != "" && line[0] == '*' && line[1..] == blank + (kind + "(" + (scope + "):" + ([gap] + rest)))
    ensures line == Bullet(blank, kind, scope, gap, rest)
  {
    assert line == "*" + line[1..];
    assert scope + "):" + ([gap] + rest) == scope + ("):" + ([gap] + rest));
  }

  lemma EchoParts(kind: string, text: string) returns (scope: string, gap: char, rest: string)
    requires IsEchoOf(kind, text)
    ensures IsScope(scope) && IsSpace(gap) && text == kind + "(" + (scope + "):" + ([gap] + rest))
  {
    hide ScopeRun;
    var scoped := text[|kind| + 1..];
    var k := ScopeRun(scoped);
    var after := scoped[k..];
    scope, gap, rest := scoped[..k], after[2], after[3..];
    assert after == "):" + ([gap] + rest);
    assert scoped == scope + after;
    assert text == kind + "(" + scoped;
    assert scope + "):" + ([gap] + rest) == scope + ("):" + ([gap] + rest));
  }

  lemma {:induction false} LStripped(s: string)
    ensures |LStrip(s)| <= |s| && s == s[..|s| - |LStrip(s)|] + LStrip(s) && AllSpace(s[..|s| - |LStrip(s)|])
  {
    if s != "" && IsSpace(s[0]) {
      LStripped(s[1..]);
      var k := |s| - |LStrip(s)|;
      assert s[..k] == [s[0]] + s[1..][..k - 1];
    }
  }

  /** A label line is a blank line, such a bullet, or one that starts with "Because:" in any
      letter case. */
  lemma LabelExactly(line: string)
    ensures IsLabel(line)
       <==> || Strip(line) == ""
            || (exists blank, kind, scope, gap, rest :: HasBullet(Strip(line), blank, kind, scope, gap, rest))
            || IsBecause(Strip(line))
  {
    EchoExactly(Strip(line));
    BecauseExactly(Strip(line));
  }

  predicate SameLetter(c: char, lower: char) {
    c == lower || ('A' <= c <= 'Z' && c as int + 32 == lower as int)
  }

  predicate IsBecause(s: string) {
    |s| >= 8 && SameLetter(s[0], 'b') && SameLetter(s[1], 'e') && SameLetter(s[2], 'c') && SameLetter(s[3], 'a')
    && SameLetter(s[4], 'u') && SameLetter(s[5], 's') && SameLetter(s[6], 'e') && s[7] == ':'
  }

  lemma BecauseExactly(s: string)
    ensures "because:" <= LowerCase(s) <==> IsBecause(s)
  {
    var t := "because:";
    assert |LowerCase(s)| == |s|;
    assert t[0] == 'b' && t[1] == 'e' && t[2] == 'c' && t[3] == 'a' && t[4] == 'u' && t[5] == 's' && t[6] == 'e'
           && t[7] == ':' && |t| == 8;
  }

  // ---------- the sentence ----------

  /** Text without anything that can end a sentence. */
  predicate Unbroken(s: string) {
    forall i :: 0 <= i < |s| ==> s[i] != '.' && s[i] != '!' && s[i] != '?' && s[i] != '\n'
  }

  predicate IsMark(c: char) {
    c == '.' || c == '!' || c == '?'
  }

  lemma UnbrokenStart(a: string, rest: string)
    requires Unbroken(a)
    ensures forall i :: 0 <= i < |a| ==> !EndsSentence(a + rest, i) && !StartsBlankLine(a + rest, i)
    ensures SentenceEnd(a + rest) >= |a|
  {
    assert forall i :: 0 <= i < |a| ==> (a + rest)[i] == a[i];
  }

  /** The first mark ends the sentence exactly when white space or nothing follows it. */
  lemma MarkEnds(a: string, mark: char, rest: string)
    requires Unbroken(a) && IsMark(mark)
    ensures SentenceEnd(a + ([mark] + rest)) == |a| + 1 <==> rest == "" || IsSpace(rest[0])
  {
    hide StartsBlankLine, SentenceEnd;
    var text := a + ([mark] + rest);
    UnbrokenStart(a, [mark] + rest);
    assert text[|a|] == mark && text[|a| + 1..] == rest;
    MarkNoBlank(text, |a|);
    EndAfter(text, |a|);
  }

  /** Whether a sentence ends with the mark at a position that it reaches. */
  lemma EndAfter(text: string, i: nat)
    requires i < |text| && IsMark(text[i]) && SentenceEnd(text) >= i && !StartsBlankLine(text, i)
    requires forall k :: 0 <= k < i ==> !EndsSentence(text, k)
    ensures SentenceEnd(text) == i + 1 <==> text[i + 1..] == "" || IsSpace(text[i + 1..][0])
  {
    hide StartsBlankLine;
    var end := SentenceEnd(text);
    if i + 1 < |text| {
      assert text[i + 1..][0] == text[i + 1];
      assert EndsSentence(text, i) <==> IsSpace(text[i + 1]);
      MarkNoBlank(text, i + 1);
    }
  }

  lemma MarkNoBlank(text: string, i: nat)
    requires i < |text|
    ensures StartsBlankLine(text, i) ==> text[i] == '\n' && IsSpace(text[i])
  {
  }

  /** A line break ends the sentence exactly when the next line is blank. */
  lemma BlankLineEnds(a: string, blanks: string, c: char, rest: string)
    requires Unbroken(a) && (forall i :: 0 <= i < |blanks| ==> blanks[i] == ' ' || blanks[i] == '\t')
    requires c != ' ' && c != '\t'
    ensures SentenceEnd(a + ("\n" + (blanks + ([c] + rest)))) == |a| <==> c == '\n'
  {
    hide StartsBlankLine, SentenceEnd, BlankRun;
    BlankRunOf(blanks, [c] + rest);
    UnbrokenBreak(a, blanks + ([c] + rest));
    BreakThen(a, blanks + ([c] + rest));
    assert (blanks + ([c] + rest))[|blanks|] == c;
  }

  lemma UnbrokenBreak(a: string, next: string)
    requires Unbroken(a)
    ensures SentenceEnd(a + ("\n" + next)) == |a| <==> StartsBlankLine(a + ("\n" + next), |a|)
  {
    hide StartsBlankLine;
    UnbrokenStart(a, "\n" + next);
    assert (a + ("\n" + next))[|a|] == '\n';
    assert forall i :: 0 <= i < |a| ==> !EndsSentence(a + ("\n" + next), i);
  }

  lemma BreakThen(a: string, next: string)
    ensures (a + ("\n" + next))[|a|] == '\n'
    ensures StartsBlankLine(a + ("\n" + next), |a|) <==> NextIsBlank(next)
  {
    hide NextIsBlank;
    assert (a + ("\n" + next))[|a| + 1..] == next;
  }

  lemma {:induction false} BlankRunOf(blanks: string, tail: string)
    requires forall i :: 0 <= i < |blanks| ==> blanks[i] == ' ' || blanks[i] == '\t'
    requires tail == "" || (tail[0] != ' ' && tail[0] != '\t')
    ensures BlankRun(blanks + tail) == |blanks|
  {
    if blanks == "" {
      assert blanks + tail == tail;
    } else {
      assert (blanks + tail)[1..] == blanks[1..] + tail;
      BlankRunOf(blanks[1..], tail);
    }
  }

  predicate CleanEnds(s: string) {
    s != "" && !IsSpace(s[0]) && !IsSpace(s[|s| - 1])
  }

  /** The entry's words are those up to the first sentence's mark, the mark included. */
  lemma FirstSentence(s: string, mark: char, more: string)
    requires Unbroken(s) && IsMark(mark) && CleanEnds(more)
    requires s != "" && !IsSpace(s[0]) && OneLineText(s + ([mark] + (" " + more)))
    requires !IsLabel(s + ([mark] + (" " + more)))
    ensures SentenceWords(s + ([mark] + (" " + more))) == Words(s + [mark])
  {
    hide SplitLines, IsLabel, SentenceEnd, Words;
    var body := s + ([mark] + (" " + more));
    LineAlone(body);
    StripNothing(body);
    assert SkipLabels([body]) == [body] && JoinLines([body]) == body;
    MarkEnds(s, mark, " " + more);
    assert body[..|s| + 1] == s + [mark];
  }

  /** Or those of the first paragraph, when no mark ends a sentence in it. */
  lemma FirstParagraph(s: string, more: string)
    requires Unbroken(s) && CleanEnds(s) && CleanEnds(more) && OneLineText(s) && OneLineText(more) && !IsLabel(s)
    ensures SentenceWords(s + ("\n" + ("\n" + more))) == Words(s)
  {
    hide SplitLines, IsLabel, SentenceEnd, Words;
    var body := s + ("\n" + ("\n" + more));
    LinesExactly(s, '\n', "\n" + more);
    LinesExactly("", '\n', more);
    LineAlone(more);
    assert body == s + ['\n'] + ("\n" + more) && "\n" + more == "" + ['\n'] + more;
    assert SplitLines(body) == [s, "", more];
    ThreeLines(s, more);
    StripNothing(body);
    BlankLineEnds(s, "", '\n', more);
    assert "\n" + more == "" + (['\n'] + more);
    assert body[..|s|] == s;
  }

  lemma ThreeLines(s: string, more: string)
    requires !IsLabel(s)
    ensures JoinLines(SkipLabels([s, "", more])) == s + ("\n" + ("\n" + more))
  {
    var lines := [s, "", more];
    assert lines[1..] == ["", more] && ["", more][1..] == [more];
    assert JoinLines(["", more]) == "" + "\n" + JoinLines([more]);
  }
}
