/** The deterministic rules of similarity/identity.py: when two keys name one entry. */
module Identity {
  import opened Filters
  import opened Options
  import opened Decimal
  import opened Text
  import opened Roman

  // ---------- splitting a key ----------

  function Unwrapped(t: string): string
    requires |t| > 2
  {
    Strip(t[1..|t| - 1])
  }

  predicate Wrapped(t: string, opener: char, closer: char) {
    |t| > 2 && t[0] == opener && t[|t| - 1] == closer
  }

  /** One layer of surrounding brackets comes off. */
  function UnwrapBrackets(text: string): string {
    var t := Strip(text);
    if Wrapped(t, '[', ']') || Wrapped(t, '(', ')') || Wrapped(t, '{', '}') then Unwrapped(t) else t
  }

  /** The position of the last parenthesis of either kind, or -1. */
  function LastParen(s: string): (i: int)
    ensures -1 <= i < |s|
    ensures i >= 0 ==> s[i] == '(' || s[i] == ')'
    ensures forall k :: i < k < |s| ==> s[k] != '(' && s[k] != ')'
  {
    if s == "" then -1
    else if s[|s| - 1] == '(' || s[|s| - 1] == ')' then |s| - 1
    else LastParen(s[..|s| - 1])
  }

  /** The main part, and the trailing parenthetical when a main part precedes it:
      `\s*\(([^()]*)\)$`. */
  function SplitParenthetical(key: string): (string, Option<string>) {
    SplitUnwrapped(UnwrapBrackets(key))
  }

  function SplitUnwrapped(u: string): (string, Option<string>) {
    if u == "" || u[|u| - 1] != ')' then (u, None)
    else
      var p := LastParen(u[..|u| - 1]);
      if p < 0 || u[p] != '(' || Strip(u[..p]) == "" then (u, None)
      else (RStrip(u[..p]), Some(u[p + 1..|u| - 1]))
  }

  /** Text without a parenthesis of either kind. */
  predicate NoParens(s: string) {
    '(' !in s && ')' !in s
  }

  predicate Stripped(s: string) {
    s != "" && !IsSpace(s[0]) && !IsSpace(s[|s| - 1])
  }

  function Printed(main: string, paren: string): string {
    main + " (" + paren + ")"
  }

  /** A key printed from its two parts. */
  lemma PrintedShape(main: string, paren: string)
    requires Stripped(main) && NoParens(paren)
    ensures var key := Printed(main, paren);
            && |key| == |main| + |paren| + 3 && key[0] == main[0] && key[|key| - 1] == ')'
            && key[|main|] == ' ' && key[|main| + 1] == '(' && key[..|main|] == main
            && key[|main| + 2..|key| - 1] == paren && Strip(key) == key
            && LastParen(key[..|key| - 1]) == |main| + 1
  {
    var key := Printed(main, paren);
    StripNothing(key);
    assert key[..|key| - 1] == main + " (" + paren;
    assert forall k :: |main| + 1 < k < |key| - 1 ==> key[k] == paren[k - |main| - 2] && paren[k - |main| - 2] in paren;
  }

  lemma RStripBlank(main: string)
    requires Stripped(main)
    ensures RStrip(main + " ") == main && Strip(main + " ") != ""
  {
    assert (main + " ")[..|main|] == main;
  }

  /** Splitting a printed key gives its two parts back, exactly when the main part does not
      start with a parenthesis: then the brackets of the whole key come off instead. */
  lemma SplitPrinted(main: string, paren: string)
    requires Stripped(main) && NoParens(paren)
    ensures SplitParenthetical(Printed(main, paren)) == (main, Some(paren)) <==> main[0] != '('
  {
    var key := Printed(main, paren);
    PrintedShape(main, paren);
    if main[0] != '(' {
      assert UnwrapBrackets(key) == key;
      assert key[..|main| + 1] == main + " ";
      RStripBlank(main);
    } else {
      var u := UnwrapBrackets(key);
      StripShorter(key[1..|key| - 1]);
      assert |u| <= |main| + |paren| + 1;
      ShortSplit(u, main, paren);
    }
  }

  /** Too short a text does not hold both parts. */
  lemma ShortSplit(u: string, main: string, paren: string)
    requires |u| <= |main| + |paren| + 1
    ensures SplitUnwrapped(u) != (main, Some(paren))
  {
    if u != "" && u[|u| - 1] == ')' && LastParen(u[..|u| - 1]) >= 0 {
      StripShorter(u[..LastParen(u[..|u| - 1])]);
    }
  }

  lemma StripShorter(s: string)
    ensures |Strip(s)| <= |s| && |RStrip(s)| <= |s| && forall c :: c in Strip(s) ==> c in s
  {
    LStripEnds(s);
    RStripEnds(LStrip(s));
    RStripEnds(s);
  }

  predicate IsBracketed(t: string, opener: char, inner: string, closer: char) {
    t == [opener] + inner + [closer] && inner != "" && (opener, closer) in [('(', ')'), ('[', ']'), ('{', '}')]
  }

  /** One layer of brackets comes off exactly when one pair of them surrounds the stripped key
      and something is inside. */
  lemma UnwrapExactly(key: string)
    ensures forall o, inner, c :: IsBracketed(Strip(key), o, inner, c) ==> UnwrapBrackets(key) == Strip(inner)
    ensures (forall o, inner, c :: !IsBracketed(Strip(key), o, inner, c)) ==> UnwrapBrackets(key) == Strip(key)
  {
    hide Strip;
    var t := Strip(key);
    forall o, inner, c | IsBracketed(t, o, inner, c) ensures UnwrapBrackets(key) == Strip(inner) {
      assert t[1..|t| - 1] == inner;
    }
    if |t| > 2 {
      assert t == [t[0]] + t[1..|t| - 1] + [t[|t| - 1]];
      assert (t[0], t[|t| - 1]) in [('(', ')'), ('[', ']'), ('{', '}')] ==>
          IsBracketed(t, t[0], t[1..|t| - 1], t[|t| - 1]);
    }
  }

  /** Text that ends in a parenthetical with something in front of it. */
  predicate HasParen(u: string, front: string, paren: string) {
    u == front + ("(" + (paren + ")")) && NoParens(paren) && !AllSpace(front)
  }

  /** Without its brackets a key has a parenthetical exactly when it ends in one that has no
      parenthesis inside and something other than white space in front; otherwise all of it is
      the main part. */
  lemma SplitExactly(u: string)
    ensures SplitUnwrapped(u).1.Some? <==> exists front, paren :: HasParen(u, front, paren)
    ensures forall front, paren :: HasParen(u, front, paren) ==> SplitUnwrapped(u) == (RStrip(front), Some(paren))
    ensures SplitUnwrapped(u).1.None? ==> SplitUnwrapped(u).0 == u
  {
    forall front, paren | HasParen(u, front, paren) ensures SplitUnwrapped(u) == (RStrip(front), Some(paren)) {
      ParenRead(front, paren);
    }
    if SplitUnwrapped(u).1.Some? {
      var inner := u[..|u| - 1];
      var p := LastParen(inner);
      BlankStrip(u[..p]);
      ParenShape(u, p);
      assert HasParen(u, u[..p], u[p + 1..|u| - 1]);
    }
  }

  lemma ParenRead(front: string, paren: string)
    requires NoParens(paren) && !AllSpace(front)
    ensures SplitUnwrapped(front + ("(" + (paren + ")"))) == (RStrip(front), Some(paren))
  {
    hide Strip, RStrip, LastParen, AllSpace;
    var key := front + ("(" + (paren + ")"));
    assert key[..|key| - 1] == front + "(" + paren;
    assert key[..|front|] == front && key[|front| + 1..|key| - 1] == paren && key[|front|] == '(';
    LastParenAt(front, paren);
    BlankStrip(front);
  }

  lemma ParenShape(u: string, p: nat)
    requires p < |u| - 1 && u[|u| - 1] == ')' && u[p] == '('
    requires forall k :: p < k < |u| - 1 ==> u[k] != '(' && u[k] != ')'
    ensures u == u[..p] + ("(" + (u[p + 1..|u| - 1] + ")")) && NoParens(u[p + 1..|u| - 1])
  {
  }

  lemma BlankStrip(s: string)
    ensures Strip(s) == "" <==> AllSpace(s)
  {
    if AllSpace(s) {
      StripAround(s, "", "");
      assert s + "" + "" == s;
    } else {
      var i :| 0 <= i < |s| && !IsSpace(s[i]);
      SomeLStrip(s, i);
    }
  }

  lemma {:induction false} SomeLStrip(s: string, i: nat)
    requires i < |s| && !IsSpace(s[i])
    ensures Strip(s) != ""
  {
    if IsSpace(s[0]) {
      SomeLStrip(s[1..], i - 1);
    } else {
      SomeRStrip(s);
    }
  }

  lemma {:induction false} SomeRStrip(s: string)
    requires s != "" && !IsSpace(s[0])
    ensures RStrip(s) != ""
  {
    if IsSpace(s[|s| - 1]) {
      SomeRStrip(s[..|s| - 1]);
    }
  }

  /** A pair of brackets around a whole key comes off; a key that is one parenthetical has a
      main part and no parenthetical. */
  lemma WholeParenIsMain(inner: string)
    requires NoParens(inner) && inner != ""
    ensures SplitParenthetical("(" + inner + ")") == (Strip(inner), None)
    ensures SplitParenthetical("[" + inner + "]") == (Strip(inner), None)
    ensures SplitParenthetical("{" + inner + "}") == (Strip(inner), None)
  {
    Bracketed('(', inner, ')');
    Bracketed('[', inner, ']');
    Bracketed('{', inner, '}');
    StripShorter(inner);
  }

  lemma Bracketed(opener: char, inner: string, closer: char)
    requires inner != "" && (opener, closer) in [('(', ')'), ('[', ']'), ('{', '}')]
    ensures UnwrapBrackets([opener] + inner + [closer]) == Strip(inner)
  {
    var key := [opener] + inner + [closer];
    StripNothing(key);
    assert key[1..|key| - 1] == inner;
  }

  /** Inside square or curly brackets a key splits as it would without them, and any white
      space, or none, may stand before the parenthesis. */
  lemma SplitBracketed(main: string, blanks: string, paren: string)
    requires Stripped(main) && AllSpace(blanks) && NoParens(paren)
    ensures var key := main + (blanks + ("(" + (paren + ")")));
            && SplitParenthetical("[" + key + "]") == (main, Some(paren))
            && SplitParenthetical("{" + key + "}") == (main, Some(paren))
            && (SplitParenthetical(key) == (main, Some(paren)) <==> main[0] != '(')
  {
    hide Strip, SplitUnwrapped;
    var key := main + (blanks + ("(" + (paren + ")")));
    Bracketed('[', key, ']');
    Bracketed('{', key, '}');
    StripNothing(key);
    SplitSpaced(main, blanks, paren);
    if main[0] == '(' {
      assert key[1..|key| - 1] == main[1..] + blanks + "(" + paren;
      OpenEnd(main[1..] + blanks, paren);
    }
  }

  /** Text that ends inside a parenthetical does not end with a closing parenthesis. */
  lemma {:induction false} OpenEnd(front: string, paren: string)
    requires NoParens(paren)
    ensures SplitUnwrapped(Strip(front + "(" + paren)).1 == None
    decreases |front|
  {
    var s := front + "(" + paren;
    if front != "" && IsSpace(front[0]) {
      assert s[1..] == front[1..] + "(" + paren;
      OpenEnd(front[1..], paren);
    } else {
      OpenRStrip(front, paren);
    }
  }

  lemma {:induction false} OpenRStrip(front: string, paren: string)
    requires NoParens(paren)
    ensures var r := RStrip(front + "(" + paren); r != "" && r[|r| - 1] != ')'
  {
    var s := front + "(" + paren;
    if paren != "" {
      assert s[..|s| - 1] == front + "(" + paren[..|paren| - 1];
      OpenRStrip(front, paren[..|paren| - 1]);
    }
  }

  lemma SplitSpaced(main: string, blanks: string, paren: string)
    requires Stripped(main) && AllSpace(blanks) && NoParens(paren)
    ensures SplitUnwrapped(main + (blanks + ("(" + (paren + ")")))) == (main, Some(paren))
  {
    hide SplitUnwrapped;
    assert main + (blanks + ("(" + (paren + ")"))) == main + blanks + ("(" + (paren + ")"));
    assert (main + blanks)[0] == main[0];
    ParenRead(main + blanks, paren);
    RStripSpace(main, blanks);
  }

  lemma {:induction false} LastParenAt(front: string, paren: string)
    requires NoParens(paren)
    ensures LastParen(front + "(" + paren) == |front|
  {
    var s := front + "(" + paren;
    if paren != "" {
      assert s[..|s| - 1] == front + "(" + paren[..|paren| - 1] && s[|s| - 1] in paren;
      LastParenAt(front, paren[..|paren| - 1]);
    }
  }

  /** A normalised key. */
  datatype Parts = Parts(main: string, paren: Option<string>)

  /** `key_parts`, for whatever normalisation of case, accents and punctuation. */
  function KeyParts(key: string, normalise: string -> string): Parts {
    var (main, paren) := SplitParenthetical(key);
    Parts(normalise(main), if paren.Some? then Some(normalise(paren.value)) else None)
  }

  /** Both parts of a key are normalised. */
  lemma KeyPartsOf(main: string, paren: string, normalise: string -> string)
    requires Stripped(main) && main[0] != '(' && NoParens(paren)
    ensures KeyParts(Printed(main, paren), normalise) == Parts(normalise(main), Some(normalise(paren)))
    ensures SplitParenthetical(main).1 == None ==>
              KeyParts(main, normalise) == Parts(normalise(SplitParenthetical(main).0), None)
  {
    SplitPrinted(main, paren);
  }

  // ---------- number tokens ----------

  function DigitRuns(s: string): seq<string>
    decreases |s|
  {
    if s == "" then []
    else
      var k := DigitRun(s);
      if k == 0 then DigitRuns(s[1..]) else [s[..k]] + DigitRuns(s[k..])
  }

  predicate IsRomanLetter(c: char) {
    c in "ivxlcdm"
  }

  ghost predicate IsRomanWord(w: string) {
    w != "" && (forall i :: 0 <= i < |w| ==> IsRomanLetter(w[i])) && IsRoman(w)
  }

  ghost function RomanWords(ws: seq<string>): seq<string> {
    if ws == [] then [] else (if IsRomanWord(ws[0]) then [ws[0]] else []) + RomanWords(ws[1..])
  }

  /** The digit runs and numerals of a key part; comparing two sorted lists of them is
      comparing the multisets. */
  ghost function NumberTokens(part: string): multiset<string> {
    multiset(DigitRuns(part) + RomanWords(Words(part)))
  }

  /** Any other character separates digit runs. */
  lemma DigitRunsAround(a: string, c: char, b: string)
    requires !IsDigit(c)
    ensures DigitRuns(a + [c] + b) == DigitRuns(a) + DigitRuns(b)
  {
    hide DigitRuns;
    DigitRunsThen(a, [c] + b);
    assert a + [c] + b == a + ([c] + b);
    OtherFirst(c, b);
  }

  lemma {:induction false} DigitRunsThen(a: string, rest: string)
    requires rest == "" || !IsDigit(rest[0])
    ensures DigitRuns(a + rest) == DigitRuns(a) + DigitRuns(rest)
    decreases |a|
  {
    hide DigitRuns;
    if a == "" {
      NoDigitRuns("");
      assert a + rest == rest;
    } else if !IsDigit(a[0]) {
      OtherFirst(a[0], a[1..]);
      OtherFirst(a[0], a[1..] + rest);
      assert [a[0]] + a[1..] == a && [a[0]] + (a[1..] + rest) == a + rest;
      DigitRunsThen(a[1..], rest);
    } else {
      var k := DigitRun(a);
      CutAt(a, k, rest);
      FirstDigitRun(a[..k], a[k..]);
      FirstDigitRun(a[..k], a[k..] + rest);
      DigitRunsThen(a[k..], rest);
    }
  }

  lemma OtherFirst(c: char, rest: string)
    requires !IsDigit(c)
    ensures DigitRuns([c] + rest) == DigitRuns(rest)
  {
    assert ([c] + rest)[1..] == rest;
  }

  lemma FirstDigitRun(d: string, rest: string)
    requires d != "" && AllDigits(d) && (rest == "" || !IsDigit(rest[0]))
    ensures DigitRuns(d + rest) == [d] + DigitRuns(rest)
  {
    DigitRunOf(d, rest);
    assert (d + rest)[..|d|] == d && (d + rest)[|d|..] == rest;
  }

  lemma DigitRunsOfDigits(digits: string)
    requires digits != "" && AllDigits(digits)
    ensures DigitRuns(digits) == [digits]
  {
    DigitRunOf(digits, "");
    assert digits + "" == digits && digits[..|digits|] == digits && digits[|digits|..] == "";
  }

  lemma {:induction false} DigitRunsAreDigits(s: string)
    ensures forall d :: d in DigitRuns(s) ==> d != "" && AllDigits(d)
    decreases |s|
  {
    if s != "" {
      var k := DigitRun(s);
      DigitRunsAreDigits(if k == 0 then s[1..] else s[k..]);
    }
  }

  lemma {:induction false} NoDigitRuns(s: string)
    requires forall i :: 0 <= i < |s| ==> !IsDigit(s[i])
    ensures DigitRuns(s) == []
  {
    if s != "" {
      NoDigitRuns(s[1..]);
    }
  }

  lemma {:induction false} RomanWordsFilter(ws: seq<string>)
    ensures RomanWords(ws) == Filtered((w: string) => IsRomanWord(w), ws)
  {
    if ws != [] {
      hide IsRomanWord;
      FilteredCons((w: string) => IsRomanWord(w), ws[0], ws[1..]);
      assert ws == [ws[0]] + ws[1..];
      RomanWordsFilter(ws[1..]);
    }
  }

  /** What the tokens of a text are: its digit runs, and those of its words that spell a
      positive number, each as often as it occurs. */
  lemma TokensExactly(part: string, w: string)
    ensures NumberTokens(part)[w]
         == (if w != "" && AllDigits(w) then multiset(DigitRuns(part))[w] else 0)
          + (if exists n: nat :: n > 0 && w == Numeral(n) then multiset(Words(part))[w] else 0)
  {
    hide DigitRuns, IsRomanWord;
    var roman := (x: string) => IsRomanWord(x);
    DigitRunsAreDigits(part);
    RomanWordsFilter(Words(part));
    FilteredCount(roman, Words(part), w);
    RomanWordIsNumeral(w);
    assert w !in DigitRuns(part) ==> multiset(DigitRuns(part))[w] == 0;
  }

  lemma NumeralZero()
    ensures Numeral(0) == ""
  {
    assert Repeat("m", 0) == "";
  }

  lemma GlyphLetters(k: nat)
    requires k < 13
    ensures forall i :: 0 <= i < |Glyph(k)| ==> IsRomanLetter(Glyph(k)[i])
  {
  }

  lemma NumeralLetters(n: nat)
    ensures forall c :: c in Numeral(n) ==> IsRomanLetter(c)
  {
    TableUsable();
    CanonicalIsNumeral(n);
    forall c: char | !IsRomanLetter(c) ensures c !in Numeral(n) {
      forall row | row in Table() ensures row.glyph != "" && c !in row.glyph {
        var k :| 0 <= k < 13 && Table()[k] == row;
        GlyphLetters(k);
      }
      CanonicalAvoids(n, Table(), c, false);
    }
  }

  /** A word counts as a numeral exactly when it spells a positive number, and then it
      spells no other. */
  lemma RomanWordIsNumeral(w: string)
    ensures IsRomanWord(w) <==> exists n: nat :: n > 0 && w == Numeral(n)
  {
    AcceptsExactlyNumerals(w);
    NumeralZero();
    forall n: nat | n > 0 && w == Numeral(n) ensures IsRomanWord(w) {
      NumeralLetters(n);
      NumeralsDiffer(n, 0);
    }
  }

  // ---------- the verdict ----------

  datatype Verdict = Same | Different | Undecided

  ghost predicate Numbered(p: Parts) {
    p.paren.Some? && NumberTokens(p.paren.value) != multiset{}
  }

  /** `pair_rule_verdict` on normalised keys. */
  ghost function PartsVerdict(a: Parts, b: Parts): Verdict {
    if NumberTokens(a.main) != NumberTokens(b.main) then Different
    else if Numbered(a) && Numbered(b) && NumberTokens(a.paren.value) != NumberTokens(b.paren.value) then Different
    else if a.main == b.main then Same
    else Undecided
  }

  ghost function PairRuleVerdict(candidate: string, existing: string, normalise: string -> string): Verdict {
    PartsVerdict(KeyParts(candidate, normalise), KeyParts(existing, normalise))
  }

  /** Two parentheticals that both carry numbers, and not the same ones. */
  ghost predicate Conflict(a: Parts, b: Parts) {
    Numbered(a) && Numbered(b) && NumberTokens(a.paren.value) != NumberTokens(b.paren.value)
  }

  /** The verdict does not depend on which key is the candidate, a key is the same as
      itself, and SAME says exactly that the main parts agree without a conflict. */
  lemma VerdictExactly(a: string, b: string, normalise: string -> string)
    ensures PairRuleVerdict(a, b, normalise) == PairRuleVerdict(b, a, normalise)
    ensures PairRuleVerdict(a, a, normalise) == Same
    ensures PairRuleVerdict(a, b, normalise) == Same
       <==> KeyParts(a, normalise).main == KeyParts(b, normalise).main
            && !Conflict(KeyParts(a, normalise), KeyParts(b, normalise))
    ensures PairRuleVerdict(a, b, normalise) == Different
       <==> NumberTokens(KeyParts(a, normalise).main) != NumberTokens(KeyParts(b, normalise).main)
            || Conflict(KeyParts(a, normalise), KeyParts(b, normalise))
  {
  }

  /** SAME passes along a chain exactly when the two ends do not conflict, and they cannot
      when the key between them is numbered. */
  lemma SameChain(a: string, b: string, c: string, normalise: string -> string)
    requires PairRuleVerdict(a, b, normalise) == Same && PairRuleVerdict(b, c, normalise) == Same
    ensures PairRuleVerdict(a, c, normalise) == Same <==> !Conflict(KeyParts(a, normalise), KeyParts(c, normalise))
    ensures Numbered(KeyParts(b, normalise)) ==> PairRuleVerdict(a, c, normalise) == Same
  {
  }

  /** So SAME is transitive among keys that all carry a numbered parenthetical, and among
      keys none of which does. */
  lemma SameIsTransitive(a: string, b: string, c: string, normalise: string -> string)
    requires PairRuleVerdict(a, b, normalise) == Same && PairRuleVerdict(b, c, normalise) == Same
    requires Numbered(KeyParts(a, normalise)) == Numbered(KeyParts(b, normalise)) == Numbered(KeyParts(c, normalise))
    ensures PairRuleVerdict(a, c, normalise) == Same
  {
  }

  lemma YearTokens(year: string)
    requires year != "" && AllDigits(year)
    ensures NumberTokens(year) == multiset([year])
  {
    DigitRunsOfDigits(year);
    WordsOfWord(year);
    assert IsDigit(year[0]) && !IsRomanLetter(year[0]);
    assert RomanWords([year]) == [];
  }

  lemma TokensOf(year: string)
    requires year != "" && AllDigits(year)
    ensures NoParens(year) && NumberTokens(year) == multiset([year]) && year in NumberTokens(year)
  {
    YearTokens(year);
    assert year in multiset([year]);
  }

  /** Keys with a year in parentheses are the same exactly for the same year, and different
      otherwise; the key without one is the same as either. */
  lemma YearDecides(main: string, x: string, y: string, normalise: string -> string)
    requires Stripped(main) && main[0] != '('
    requires x != "" && AllDigits(x) && y != "" && AllDigits(y) && normalise(x) == x && normalise(y) == y
    ensures PairRuleVerdict(Printed(main, x), Printed(main, y), normalise) == if x == y then Same else Different
    ensures SplitParenthetical(main) == (main, None) ==>
              && PairRuleVerdict(Printed(main, x), main, normalise) == Same
              && PairRuleVerdict(main, Printed(main, y), normalise) == Same
  {
    hide NumberTokens, SplitParenthetical, Printed;
    TokensOf(x);
    TokensOf(y);
    SplitPrinted(main, x);
    SplitPrinted(main, y);
    YearParts(normalise(main), x, y);
  }

  lemma YearParts(main: string, x: string, y: string)
    requires x != "" && AllDigits(x) && y != "" && AllDigits(y)
    ensures PartsVerdict(Parts(main, Some(x)), Parts(main, Some(y))) == if x == y then Same else Different
    ensures PartsVerdict(Parts(main, Some(x)), Parts(main, None)) == Same
    ensures PartsVerdict(Parts(main, None), Parts(main, Some(y))) == Same
  {
    hide NumberTokens;
    TokensOf(x);
    TokensOf(y);
    assert x != y ==> x !in multiset([y]);
  }

  /** Text without digits and without a word that spells a positive number. */
  ghost predicate Numberless(text: string) {
    && (forall i :: 0 <= i < |text| ==> !IsDigit(text[i]))
    && (forall n: nat :: n > 0 ==> Numeral(n) !in Words(text))
  }

  lemma NumberlessHasNoTokens(text: string)
    requires Numberless(text)
    ensures NumberTokens(text) == multiset{}
  {
    hide NumberTokens, Words;
    NoDigitRuns(text);
    forall w ensures NumberTokens(text)[w] == 0 {
      TokensExactly(text, w);
    }
  }

  /** A parenthetical without a number never makes two keys differ. */
  lemma NumberlessNeverDecides(main: string, p: string, q: string, normalise: string -> string)
    requires Stripped(main) && main[0] != '(' && NoParens(p) && NoParens(q) && Numberless(normalise(p))
    ensures PairRuleVerdict(Printed(main, p), Printed(main, q), normalise) == Same
    ensures PairRuleVerdict(Printed(main, q), Printed(main, p), normalise) == Same
  {
    hide NumberTokens, SplitParenthetical, Printed;
    SplitPrinted(main, p);
    SplitPrinted(main, q);
    NumberlessHasNoTokens(normalise(p));
  }

  // ---------- numerals and dates ----------

  lemma {:induction false} RomanWordsConcat(a: seq<string>, b: seq<string>)
    ensures RomanWords(a + b) == RomanWords(a) + RomanWords(b)
  {
    RomanWordsFilter(a);
    RomanWordsFilter(b);
    RomanWordsFilter(a + b);
    FilteredConcat((w: string) => IsRomanWord(w), a, b);
  }

  lemma NumeralWord(n: nat)
    requires n > 0
    ensures IsRomanWord(Numeral(n)) && IsWord(Numeral(n)) && DigitRuns(Numeral(n)) == []
    ensures Stripped(Numeral(n)) && Numeral(n)[|Numeral(n)| - 1] !in [')', ']', '}']
  {
    hide Numeral, IsRoman;
    RomanWordIsNumeral(Numeral(n));
    LettersWord(Numeral(n));
  }

  lemma LettersWord(w: string)
    requires w != "" && forall i :: 0 <= i < |w| ==> IsRomanLetter(w[i])
    ensures IsWord(w) && DigitRuns(w) == []
    ensures Stripped(w) && w[|w| - 1] !in [')', ']', '}']
  {
    forall i | 0 <= i < |w| ensures !IsDigit(w[i]) && !IsSpace(w[i]) && w[i] !in [')', ']', '}'] {
      LetterPlain(w[i]);
    }
    hide IsRomanLetter, IsDigit, IsSpace;
    NoDigitRuns(w);
  }

  lemma LetterPlain(c: char)
    requires IsRomanLetter(c)
    ensures !IsDigit(c) && !IsSpace(c) && c !in [')', ']', '}']
  {
  }

  /** A numeral after a text adds one token to the text's. */
  lemma TokensWithNumeral(stem: string, n: nat)
    requires n > 0
    ensures NumberTokens(stem + " " + Numeral(n)) == NumberTokens(stem) + multiset{Numeral(n)}
  {
    hide IsRomanWord, Numeral, DigitRuns, Words;
    var w := Numeral(n);
    NumeralWord(n);
    assert stem + " " + w == stem + [' '] + w;
    DigitRunsAround(stem, ' ', w);
    WordsAround(stem, ' ', w);
    WordsOfWord(w);
    RomanWordsConcat(Words(stem), [w]);
    assert RomanWords([w]) == [w];
    assert DigitRuns(stem) + [] == DigitRuns(stem);
  }

  lemma NumeralKey(stem: string, n: nat)
    requires Stripped(stem) && n > 0
    ensures SplitParenthetical(stem + " " + Numeral(n)) == (stem + " " + Numeral(n), None)
  {
    hide Numeral;
    NumeralWord(n);
    PlainKey(stem + " " + Numeral(n));
  }

  /** Keys that end in numerals are the same for the same number and different otherwise, for
      any normalisation that leaves them alone. */
  lemma NumeralsDecide(stem: string, m: nat, n: nat, normalise: string -> string)
    requires Stripped(stem) && m > 0 && n > 0
    requires normalise(stem + " " + Numeral(m)) == stem + " " + Numeral(m)
    requires normalise(stem + " " + Numeral(n)) == stem + " " + Numeral(n)
    ensures PairRuleVerdict(stem + " " + Numeral(m), stem + " " + Numeral(n), normalise)
         == if m == n then Same else Different
  {
    hide Numeral, NumberTokens, SplitParenthetical;
    NumeralKey(stem, m);
    NumeralKey(stem, n);
    TokensWithNumeral(stem, m);
    TokensWithNumeral(stem, n);
    NumeralsDiffer(m, n);
    if m != n {
      OneMore(NumberTokens(stem), Numeral(m), Numeral(n));
    }
  }

  lemma OneMore(tokens: multiset<string>, a: string, b: string)
    requires a != b
    ensures tokens + multiset{a} != tokens + multiset{b}
  {
    assert (tokens + multiset{a})[a] == tokens[a] + 1 && (tokens + multiset{b})[a] == tokens[a];
  }

  function Dated(year: string, month: string, day: string, sep: char): string {
    year + [sep] + (month + [sep] + day)
  }

  predicate IsNumber(s: string) {
    s != "" && AllDigits(s)
  }

  lemma DateTokens(year: string, month: string, day: string, sep: char)
    requires IsNumber(year) && IsNumber(month) && IsNumber(day) && !IsDigit(sep)
    ensures NumberTokens(Dated(year, month, day, sep)) == multiset([year, month, day])
  {
    hide IsRoman, Words, DigitRuns;
    DigitRunsAround(year, sep, month + [sep] + day);
    DigitRunsAround(month, sep, day);
    DigitRunsOfDigits(year);
    DigitRunsOfDigits(month);
    DigitRunsOfDigits(day);
    assert [year] + ([month] + [day]) == [year, month, day];
    DateWords(year, month, day, sep);
  }

  lemma DateWords(year: string, month: string, day: string, sep: char)
    requires IsNumber(year) && IsNumber(month) && IsNumber(day) && !IsDigit(sep)
    ensures RomanWords(Words(Dated(year, month, day, sep))) == []
  {
    hide IsRoman, Words, RomanWords;
    if IsSpace(sep) {
      WordsAround(year, sep, month + [sep] + day);
      WordsAround(month, sep, day);
      WordsOfWord(year);
      WordsOfWord(month);
      WordsOfWord(day);
      NoNumeral(year);
      NoNumeral(month);
      NoNumeral(day);
      RomanWordsConcat([month], [day]);
      RomanWordsConcat([year], [month] + [day]);
    } else {
      WordsOfWord(Dated(year, month, day, sep));
      assert Dated(year, month, day, sep)[0] == year[0];
      NoNumeral(Dated(year, month, day, sep));
    }
  }

  lemma NoNumeral(w: string)
    requires w != "" && IsDigit(w[0])
    ensures RomanWords([w]) == []
  {
    assert !IsRomanLetter(w[0]);
    assert [w][1..] == [];
  }

  lemma DateKey(year: string, month: string, day: string)
    requires IsNumber(year) && IsNumber(month) && IsNumber(day)
    ensures SplitParenthetical(Dated(year, month, day, '-')) == (Dated(year, month, day, '-'), None)
  {
    PlainKey(Dated(year, month, day, '-'));
  }

  /** Two dates are different keys exactly when their numbers are not the same up to order,
      whatever character the normalisation puts between the numbers. */
  lemma DatesDecide(a: (string, string, string), b: (string, string, string), sep: char, normalise: string -> string)
    requires IsNumber(a.0) && IsNumber(a.1) && IsNumber(a.2) && IsNumber(b.0) && IsNumber(b.1) && IsNumber(b.2)
    requires !IsDigit(sep)
    requires normalise(Dated(a.0, a.1, a.2, '-')) == Dated(a.0, a.1, a.2, sep)
    requires normalise(Dated(b.0, b.1, b.2, '-')) == Dated(b.0, b.1, b.2, sep)
    ensures PairRuleVerdict(Dated(a.0, a.1, a.2, '-'), Dated(b.0, b.1, b.2, '-'), normalise) == Different
       <==> multiset([a.0, a.1, a.2]) != multiset([b.0, b.1, b.2])
  {
    hide NumberTokens, SplitParenthetical, Dated;
    DateKey(a.0, a.1, a.2);
    DateKey(b.0, b.1, b.2);
    DateTokens(a.0, a.1, a.2, sep);
    DateTokens(b.0, b.1, b.2, sep);
  }

  /** So SAME is not transitive across keys with a year and without: three keys that the
      code can receive, for any normalisation that leaves the two years alone. */
  lemma SameIsNotTransitive(normalise: string -> string)
    requires normalise("1984") == "1984" && normalise("2021") == "2021"
    ensures PairRuleVerdict("dune (1984)", "dune", normalise) == Same
    ensures PairRuleVerdict("dune", "dune (2021)", normalise) == Same
    ensures PairRuleVerdict("dune (1984)", "dune (2021)", normalise) == Different
  {
    assert Printed("dune", "1984") == "dune (1984)" && Printed("dune", "2021") == "dune (2021)";
    PlainKey("dune");
    assert "1984"[0] != "2021"[0];
    YearDecides("dune", "1984", "2021", normalise);
  }

  lemma PlainKey(main: string)
    requires Stripped(main) && main[|main| - 1] !in [')', ']', '}']
    ensures SplitParenthetical(main) == (main, None)
  {
    StripNothing(main);
  }
}
