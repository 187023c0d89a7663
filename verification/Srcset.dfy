/** The srcset scanner of browser/src/content/link_thumbnails.ts, which follows section
    4.8.4.3.10 of the WHATWG HTML Living Standard. */
module Srcset {
  import opened Options
  import opened JsText

  datatype Candidate = Candidate(url: string, descriptors: seq<string>)

  // ---------- the scanner's steps ----------

  function SkipSeparators(s: string): (rest: string)
    ensures |rest| <= |s| && (rest != "" ==> !IsBlank(rest[0]) && rest[0] != ',')
  {
    if s != "" && (IsBlank(s[0]) || s[0] == ',') then SkipSeparators(s[1..]) else s
  }

  function SkipBlanks(s: string): (rest: string)
    ensures |rest| <= |s| && (rest != "" ==> !IsBlank(rest[0]))
  {
    if s != "" && IsBlank(s[0]) then SkipBlanks(s[1..]) else s
  }

  /** The length of the run up to the next blank. */
  function UrlLength(s: string): (k: nat)
    ensures k <= |s| && NoBlank(s[..k]) && (s != "" && !IsBlank(s[0]) ==> k > 0)
  {
    if s == "" || IsBlank(s[0]) then 0
    else
      var k := UrlLength(s[1..]);
      assert s[..k + 1] == [s[0]] + s[1..][..k];
      k + 1
  }

  function DropCommas(s: string): (url: string)
    ensures |url| <= |s| && url == s[..|url|] && (url != "" ==> url[|url| - 1] != ',')
    ensures s != "" && s[0] != ',' ==> url != ""
  {
    if s != "" && s[|s| - 1] == ',' then DropCommas(s[..|s| - 1]) else s
  }

  /** The length of the run up to the next comma. */
  function DescriptorsLength(s: string): (k: nat)
    ensures k <= |s|
  {
    if s == "" || s[0] == ',' then 0 else DescriptorsLength(s[1..]) + 1
  }

  /** `trim().split(/\s+/).filter(Boolean)`. */
  function BlankWords(s: string): seq<string>
    decreases |s|
  {
    if s == "" then []
    else if IsBlank(s[0]) then BlankWords(s[1..])
    else [s[..UrlLength(s)]] + BlankWords(s[UrlLength(s)..])
  }

  /** One candidate from a rest that starts with its URL, and what is left of the text.
      The URL never turns out empty once its trailing commas are dropped. */
  function Next(s: string): (next: (Candidate, string))
    requires s != "" && !IsBlank(s[0]) && s[0] != ','
    ensures |next.1| < |s| && next.0.url != ""
  {
    var k := UrlLength(s);
    var url := DropCommas(s[..k]);
    if |url| < k then (Candidate(url, []), s[k..])
    else
      var rest := SkipBlanks(s[k..]);
      var d := DescriptorsLength(rest);
      (Candidate(url, BlankWords(rest[..d])), rest[d..])
  }

  function Scan(value: string): seq<Candidate>
    decreases |value|
  {
    var s := SkipSeparators(value);
    if s == "" then [] else [Next(s).0] + Scan(Next(s).1)
  }

  /** `srcsetCandidates`: the cursor loop. */
  method SrcsetCandidates(value: string) returns (candidates: seq<Candidate>)
    ensures candidates == Scan(value)
  {
    candidates := [];
    var i := 0;
    assert value[0..] == value;
    while i < |value|
      invariant 0 <= i <= |value|
      invariant candidates + Scan(value[i..]) == Scan(value)
    {
      ghost var before := i;
      i := SkipFrom(value, i);
      if i >= |value| {
        break;
      }
      var candidate;
      candidate, i := NextFrom(value, i);
      assert Scan(value[before..]) == [candidate] + Scan(value[i..]);
      candidates := candidates + [candidate];
    }
    assert value[i..] == "";
  }

  /** The body of the loop, from the start of a URL on. */
  method NextFrom(value: string, start: nat) returns (candidate: Candidate, i: nat)
    requires start < |value| && !IsBlank(value[start]) && value[start] != ','
    ensures start < i <= |value| && (candidate, value[i..]) == Next(value[start..])
  {
    var stop := UrlStop(value, start);
    var rawUrl := value[start..stop];
    var url := DropCommas(rawUrl);
    assert rawUrl == value[start..][..stop - start];
    assert value[start..][stop - start..] == value[stop..];
    assert url != "";
    if rawUrl != url {
      candidate, i := Candidate(url, []), stop;
    } else {
      var from := SkipBlanksFrom(value, stop);
      i := DescriptorsStop(value, from);
      candidate := Candidate(url, BlankWords(value[from..i]));
      assert value[from..i] == value[from..][..i - from];
      assert value[from..][i - from..] == value[i..];
    }
  }

  method SkipFrom(value: string, from: nat) returns (i: nat)
    requires from <= |value|
    ensures from <= i <= |value| && value[i..] == SkipSeparators(value[from..])
  {
    i := from;
    while i < |value| && (IsBlank(value[i]) || value[i] == ',')
      invariant from <= i <= |value| && SkipSeparators(value[i..]) == SkipSeparators(value[from..])
    {
      assert value[i..][1..] == value[i + 1..];
      i := i + 1;
    }
  }

  method SkipBlanksFrom(value: string, from: nat) returns (i: nat)
    requires from <= |value|
    ensures from <= i <= |value| && value[i..] == SkipBlanks(value[from..])
  {
    i := from;
    while i < |value| && IsBlank(value[i])
      invariant from <= i <= |value| && SkipBlanks(value[i..]) == SkipBlanks(value[from..])
    {
      assert value[i..][1..] == value[i + 1..];
      i := i + 1;
    }
  }

  method UrlStop(value: string, from: nat) returns (i: nat)
    requires from <= |value|
    ensures from <= i <= |value| && i - from == UrlLength(value[from..])
  {
    i := from;
    while i < |value| && !IsBlank(value[i])
      invariant from <= i <= |value| && i - from + UrlLength(value[i..]) == UrlLength(value[from..])
    {
      assert value[i..][1..] == value[i + 1..];
      i := i + 1;
    }
  }

  method DescriptorsStop(value: string, from: nat) returns (i: nat)
    requires from <= |value|
    ensures from <= i <= |value| && i - from == DescriptorsLength(value[from..])
  {
    i := from;
    while i < |value| && value[i] != ','
      invariant from <= i <= |value| && i - from + DescriptorsLength(value[i..]) == DescriptorsLength(value[from..])
    {
      assert value[i..][1..] == value[i + 1..];
      i := i + 1;
    }
  }

  // ---------- printing, and reading back ----------

  function JoinBlank(words: seq<string>): string {
    if words == [] then "" else if |words| == 1 then words[0] else words[0] + " " + JoinBlank(words[1..])
  }

  function PrintOne(c: Candidate): string {
    if c.descriptors == [] then c.url else c.url + " " + JoinBlank(c.descriptors)
  }

  function Print(candidates: seq<Candidate>): string {
    if candidates == [] then ""
    else if |candidates| == 1 then PrintOne(candidates[0])
    else PrintOne(candidates[0]) + ", " + Print(candidates[1..])
  }

  /** A URL may hold commas, but neither blanks nor a comma at either end. */
  predicate UrlOk(url: string) {
    url != "" && NoBlank(url) && url[0] != ',' && url[|url| - 1] != ','
  }

  predicate DescriptorOk(d: string) {
    d != "" && NoBlank(d) && ',' !in d
  }

  predicate CandidateOk(c: Candidate) {
    UrlOk(c.url) && forall i :: 0 <= i < |c.descriptors| ==> DescriptorOk(c.descriptors[i])
  }

  lemma {:induction false} UrlLengthOf(url: string, rest: string)
    requires NoBlank(url) && (rest == "" || IsBlank(rest[0]))
    ensures UrlLength(url + rest) == |url|
  {
    if url == "" {
      assert url + rest == rest;
    } else {
      assert (url + rest)[1..] == url[1..] + rest;
      UrlLengthOf(url[1..], rest);
    }
  }

  lemma {:induction false} DescriptorsLengthOf(text: string, rest: string)
    requires ',' !in text && (rest == "" || rest[0] == ',')
    ensures DescriptorsLength(text + rest) == |text|
  {
    if text == "" {
      assert text + rest == rest;
    } else {
      assert (text + rest)[1..] == text[1..] + rest;
      DescriptorsLengthOf(text[1..], rest);
    }
  }

  lemma {:induction false} JoinBlankOk(words: seq<string>)
    requires words != [] && forall i :: 0 <= i < |words| ==> DescriptorOk(words[i])
    ensures BlankWords(JoinBlank(words)) == words && ',' !in JoinBlank(words)
    ensures JoinBlank(words) != "" && !IsBlank(JoinBlank(words)[0])
  {
    var rest := if |words| == 1 then "" else " " + JoinBlank(words[1..]);
    UrlLengthOf(words[0], rest);
    assert JoinBlank(words) == words[0] + rest;
    assert (words[0] + rest)[..|words[0]|] == words[0] && (words[0] + rest)[|words[0]|..] == rest;
    if |words| > 1 {
      JoinBlankOk(words[1..]);
      assert rest[1..] == JoinBlank(words[1..]);
    }
  }

  predicate AllSeparators(lead: string) {
    forall i :: 0 <= i < |lead| ==> IsBlank(lead[i]) || lead[i] == ','
  }

  /** Blanks and commas before a candidate do not matter, however many. */
  lemma ScanSeparators(lead: string, s: string)
    requires AllSeparators(lead)
    ensures Scan(lead + s) == Scan(s)
  {
    hide Next;
    SkipLead(lead, s);
  }

  lemma {:induction false} SkipLead(lead: string, s: string)
    requires AllSeparators(lead)
    ensures SkipSeparators(lead + s) == SkipSeparators(s)
  {
    if lead == "" {
      assert lead + s == s;
    } else {
      assert (lead + s)[1..] == lead[1..] + s;
      SkipLead(lead[1..], s);
    }
  }

  /** A URL with blank space or nothing after it is taken as it stands. */
  lemma NextUrl(url: string, after: string)
    requires UrlOk(url) && (after == "" || IsBlank(after[0]))
    ensures var rest := SkipBlanks(after); var d := DescriptorsLength(rest);
            Next(url + after) == (Candidate(url, BlankWords(rest[..d])), rest[d..])
  {
    UrlLengthOf(url, after);
    assert (url + after)[..|url|] == url && (url + after)[|url|..] == after;
  }

  predicate AllCommas(commas: string) {
    forall i :: 0 <= i < |commas| ==> commas[i] == ','
  }

  /** Commas right after the URL end the candidate, however many. */
  lemma NextBare(url: string, commas: string, after: string)
    requires UrlOk(url) && commas != "" && AllCommas(commas) && (after == "" || IsBlank(after[0]))
    ensures Next(url + commas + after) == (Candidate(url, []), after)
  {
    var raw := url + commas;
    CommasNoBlank(commas);
    UrlLengthOf(raw, after);
    assert (raw + after)[..|raw|] == raw && (raw + after)[|raw|..] == after;
    DropTrailing(url, commas);
  }

  lemma CommasNoBlank(commas: string)
    requires AllCommas(commas)
    ensures NoBlank(commas)
  {
  }

  lemma {:induction false} DropTrailing(url: string, commas: string)
    requires AllCommas(commas) && (url == "" || url[|url| - 1] != ',')
    ensures DropCommas(url + commas) == url
  {
    if commas == "" {
      assert url + commas == url;
    } else {
      assert (url + commas)[..|url + commas| - 1] == url + commas[..|commas| - 1];
      DropTrailing(url, commas[..|commas| - 1]);
    }
  }

  lemma ScanBare(url: string, tail: string)
    requires UrlOk(url)
    ensures Scan(url + ", " + tail) == [Candidate(url, [])] + Scan(tail)
  {
    var s := url + "," + (" " + tail);
    assert url + ", " + tail == s;
    NextBare(url, ",", " " + tail);
    ScanSeparators(" ", tail);
  }

  /** After a described URL and any blanks, the words up to the next comma are its
      descriptors. */
  lemma NextDescribed(url: string, blanks: string, described: string, tail: string)
    requires UrlOk(url) && blanks != "" && AllBlank(blanks) && (tail == "" || tail[0] == ',')
    requires ',' !in described && described != "" && !IsBlank(described[0])
    ensures Next(url + (blanks + (described + tail))) == (Candidate(url, BlankWords(described)), tail)
  {
    hide BlankWords;
    NextUrl(url, blanks + (described + tail));
    SkipBlanksOf(blanks, described + tail);
    DescriptorsLengthOf(described, tail);
    assert (described + tail)[..|described|] == described && (described + tail)[|described|..] == tail;
  }

  lemma {:induction false} SkipBlanksOf(blanks: string, rest: string)
    requires AllBlank(blanks) && (rest == "" || !IsBlank(rest[0]))
    ensures SkipBlanks(blanks + rest) == rest
  {
    if blanks == "" {
      assert blanks + rest == rest;
    } else {
      assert (blanks + rest)[1..] == blanks[1..] + rest;
      SkipBlanksOf(blanks[1..], rest);
    }
  }

  /** Any blanks separate two descriptors, and none stand for one. */
  lemma {:induction false} DescriptorFirst(blanks: string, word: string, rest: string)
    requires AllBlank(blanks) && NoBlank(word) && (rest == "" || IsBlank(rest[0]))
    ensures BlankWords(blanks + (word + rest)) == (if word == "" then [] else [word]) + BlankWords(rest)
  {
    if blanks != "" {
      assert (blanks + (word + rest))[1..] == blanks[1..] + (word + rest);
      DescriptorFirst(blanks[1..], word, rest);
    } else if word != "" {
      UrlLengthOf(word, rest);
      assert blanks + (word + rest) == word + rest;
      assert (word + rest)[..|word|] == word && (word + rest)[|word|..] == rest;
    } else {
      assert blanks + (word + rest) == rest;
    }
  }

  lemma ScanDescribed(c: Candidate, tail: string)
    requires CandidateOk(c) && c.descriptors != [] && (tail == "" || tail[0] == ',')
    ensures Scan(PrintOne(c) + tail) == [c] + Scan(tail)
  {
    hide Next, BlankWords, JoinBlank;
    assert PrintOne(c) + tail == c.url + (" " + (JoinBlank(c.descriptors) + tail));
    JoinBlankOk(c.descriptors);
    NextDescribed(c.url, " ", JoinBlank(c.descriptors), tail);
  }

  lemma ScanLast(c: Candidate)
    requires CandidateOk(c)
    ensures Scan(PrintOne(c)) == [c]
  {
    assert Scan("") == [];
    if c.descriptors == [] {
      NextUrl(c.url, "");
      assert c.url + "" == c.url;
    } else {
      ScanDescribed(c, "");
      assert PrintOne(c) + "" == PrintOne(c);
    }
  }

  lemma ScanMore(c: Candidate, others: string)
    requires CandidateOk(c)
    ensures Scan(PrintOne(c) + ", " + others) == [c] + Scan(others)
  {
    if c.descriptors == [] {
      ScanBare(c.url, others);
    } else {
      assert PrintOne(c) + ", " + others == PrintOne(c) + (", " + others);
      ScanDescribed(c, ", " + others);
      ScanSeparators(", ", others);
    }
  }

  /** Scanning a printed list gives the list back. */
  lemma {:induction false} ScanPrint(candidates: seq<Candidate>)
    requires forall i :: 0 <= i < |candidates| ==> CandidateOk(candidates[i])
    ensures Scan(Print(candidates)) == candidates
  {
    if |candidates| == 1 {
      ScanLast(candidates[0]);
    } else if candidates != [] {
      ScanPrint(candidates[1..]);
      ScanMore(candidates[0], Print(candidates[1..]));
    }
  }

  // ---------- the largest candidate ----------

  /** `srcsetScore`, for whatever reading of numbers; `None` where it is not finite. */
  function Score(descriptors: seq<string>, number: string -> Option<real>): Option<real> {
    if descriptors == [] then Some(1.0)
    else
      var first := descriptors[0];
      if first == "" then None
      else
        var tail := first[|first| - 1];
        var n := number(first[..|first| - 1]);
        if (tail != 'w' && tail != 'x') || n.None? || n.value <= 0.0 then None else n
  }

  predicate IsSize(descriptor: string, digits: string, unit: char) {
    descriptor == digits + [unit] && (unit == 'w' || unit == 'x')
  }

  /** The score is 1 without a descriptor; otherwise it is the positive number written before
      the `w` or `x` of the first one, and there is none exactly when there is no such number. */
  lemma ScoreExactly(descriptors: seq<string>, number: string -> Option<real>, digits: string, unit: char)
    ensures Score([], number) == Some(1.0)
    ensures descriptors != [] ==>
              (Score(descriptors, number).Some?
               <==> exists d, u :: IsSize(descriptors[0], d, u) && number(d).Some? && number(d).value > 0.0)
    ensures descriptors != [] && IsSize(descriptors[0], digits, unit) && Score(descriptors, number).Some? ==>
              Score(descriptors, number) == number(digits)
  {
    if descriptors != [] {
      var first := descriptors[0];
      forall d, u | IsSize(first, d, u) ensures first != "" && first[..|first| - 1] == d && first[|first| - 1] == u {
      }
      if first != "" {
        assert first == first[..|first| - 1] + [first[|first| - 1]];
        assert (first[|first| - 1] == 'w' || first[|first| - 1] == 'x') ==>
            IsSize(first, first[..|first| - 1], first[|first| - 1]);
      }
    }
  }

  /** Of two candidates the second is the largest exactly when its number is the larger one;
      a bare candidate counts as 1. */
  lemma LargestOfTwo(a: string, b: string, x: string, y: string, unit: char, number: string -> Option<real>)
    requires UrlOk(a) && UrlOk(b) && (unit == 'w' || unit == 'x')
    requires DescriptorOk(x + [unit]) && DescriptorOk(y + [unit])
    requires number(x).Some? && number(y).Some? && number(x).value > 0.0 && number(y).value > 0.0
    ensures var described := Scan(a + " " + (x + [unit]) + ", " + (b + " " + (y + [unit])));
            && |described| == 2 && described[0].url == a && described[1].url == b
            && IsFirstLargest(described, number, if number(y).value > number(x).value then 1 else 0, 2)
    ensures var bare := Scan(a + ", " + (b + " " + (y + [unit])));
            && |bare| == 2 && bare[0].url == a && bare[1].url == b
            && IsFirstLargest(bare, number, if number(y).value > 1.0 then 1 else 0, 2)
  {
    var first, second := Candidate(a, [x + [unit]]), Candidate(b, [y + [unit]]);
    hide Scan;
    ScanTwo(first, second);
    ScanTwo(Candidate(a, []), second);
    WrittenScore(x, unit, number);
    WrittenScore(y, unit, number);
  }

  lemma WrittenScore(digits: string, unit: char, number: string -> Option<real>)
    requires (unit == 'w' || unit == 'x') && number(digits).Some? && number(digits).value > 0.0
    ensures Score([], number) == Some(1.0) && Score([digits + [unit]], number) == number(digits)
  {
    ScoreExactly([digits + [unit]], number, digits, unit);
    assert IsSize(digits + [unit], digits, unit);
  }

  lemma ScanTwo(first: Candidate, second: Candidate)
    requires CandidateOk(first) && CandidateOk(second)
    ensures Scan(PrintOne(first) + ", " + PrintOne(second)) == [first, second]
  {
    hide Scan, PrintOne;
    ScanMore(first, PrintOne(second));
    ScanLast(second);
  }

  ghost predicate Beats(candidates: seq<Candidate>, number: string -> Option<real>, k: nat, j: nat)
    requires k < |candidates| && j < |candidates|
  {
    var best, other := Score(candidates[k].descriptors, number), Score(candidates[j].descriptors, number);
    best.Some? && (other.Some? ==> if j < k then other.value < best.value else other.value <= best.value)
  }

  /** Position `k` has a score, and of the first `n` none before it is as large and none
      after it larger. */
  ghost predicate IsFirstLargest(candidates: seq<Candidate>, number: string -> Option<real>, k: nat, n: nat)
    requires n <= |candidates|
  {
    k < n && forall j: nat :: j < n ==> Beats(candidates, number, k, j)
  }

  function NextAt(candidates: seq<Candidate>, number: string -> Option<real>, at: nat, n: nat): nat
    requires at < |candidates| && n < |candidates|
  {
    var best, score := Score(candidates[at].descriptors, number), Score(candidates[n].descriptors, number);
    if best.Some? && score.Some? && score.value > best.value then n else at
  }

  /** The next candidate takes over exactly when its score is larger. */
  lemma NextLargest(candidates: seq<Candidate>, number: string -> Option<real>, at: Option<nat>, n: nat)
    requires n < |candidates|
    requires at.None? ==> forall j: nat :: j < n ==> Score(candidates[j].descriptors, number).None?
    requires at.Some? ==> IsFirstLargest(candidates, number, at.value, n)
    ensures var score := Score(candidates[n].descriptors, number);
            && (at.None? && score.Some? ==> IsFirstLargest(candidates, number, n, n + 1))
            && (at.Some? ==> IsFirstLargest(candidates, number, NextAt(candidates, number, at.value, n), n + 1))
  {
    if at.Some? {
      assert Beats(candidates, number, at.value, at.value);
      forall j: nat | j < n + 1 ensures Beats(candidates, number, NextAt(candidates, number, at.value, n), j) {
        assert j < n ==> Beats(candidates, number, at.value, j);
      }
    }
  }

  /** `largestSrcsetCandidate`: the first candidate of the largest score, if any has one. */
  method LargestSrcsetCandidate(value: string, number: string -> Option<real>) returns (best: Option<string>)
    ensures best.None? <==> forall j: nat :: j < |Scan(value)| ==> Score(Scan(value)[j].descriptors, number).None?
    ensures best.Some? ==>
              exists k: nat :: IsFirstLargest(Scan(value), number, k, |Scan(value)|) && Scan(value)[k].url == best.value
  {
    var candidates := SrcsetCandidates(value);
    var at: Option<nat> := None;
    for i := 0 to |candidates|
      invariant at.None? ==> forall j: nat :: j < i ==> Score(candidates[j].descriptors, number).None?
      invariant at.Some? ==> IsFirstLargest(candidates, number, at.value, i)
    {
      NextLargest(candidates, number, at, i);
      assert at.Some? ==> Beats(candidates, number, at.value, at.value);
      var score := Score(candidates[i].descriptors, number);
      if score.Some? && (at.None? || score.value > Score(candidates[at.value].descriptors, number).value) {
        at := Some(i);
      }
    }
    if at.Some? {
      assert Beats(candidates, number, at.value, at.value);
    }
    best := if at.None? then None else Some(candidates[at.value].url);
  }
}
