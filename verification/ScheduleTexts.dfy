/** How a stored schedule's text is read, line by line and part by part, and exactly which
    texts read as a preset. */
module ScheduleTexts {
  import opened Options
  import opened Decimal
  import opened Text
  import opened JsText
  import opened Schedule

  // ---------- lines ----------

  /** Text without a newline, real or written as a backslash and an n. */
  predicate PlainLine(s: string) {
    forall i :: 0 <= i < |s| ==> s[i] != '\n' && !(s[i] == '\\' && i + 1 < |s| && s[i + 1] == 'n')
  }

  /** Both kinds of newline end a line. */
  lemma NewlineSplits(line: string, rest: string)
    requires PlainLine(line)
    ensures SplitNewlines(line) == [line]
    ensures SplitNewlines(line + "\n" + rest) == [line] + SplitNewlines(rest)
    ensures SplitNewlines(line + "\\n" + rest) == [line] + SplitNewlines(rest)
  {
    hide SplitNewlines;
    LineAlone(line);
    NewlineFirst(rest);
    LineThen(line, "\n" + rest, SplitNewlines(rest));
    LineThen(line, "\\n" + rest, SplitNewlines(rest));
    assert line + "\n" + rest == line + ("\n" + rest) && line + "\\n" + rest == line + ("\\n" + rest);
  }

  lemma NewlineFirst(rest: string)
    ensures SplitNewlines("\n" + rest) == [""] + SplitNewlines(rest)
    ensures SplitNewlines("\\n" + rest) == [""] + SplitNewlines(rest)
  {
    assert ("\n" + rest)[1..] == rest && ("\\n" + rest)[2..] == rest;
  }

  lemma {:induction false} LineThen(line: string, broken: string, more: seq<string>)
    requires PlainLine(line) && SplitNewlines(broken) == [""] + more
    requires broken != "" && (broken[0] == '\n' || broken[0] == '\\')
    ensures SplitNewlines(line + broken) == [line] + more
  {
    if line == "" {
      assert line + broken == broken;
    } else {
      assert (line + broken)[1..] == line[1..] + broken && "\\n"[0] == '\\' && "\\n"[1] == 'n';
      LineThen(line[1..], broken, more);
      assert [line[0]] + line[1..] == line;
    }
  }

  lemma {:induction false} LineAlone(line: string)
    requires PlainLine(line)
    ensures SplitNewlines(line) == [line]
  {
    if line != "" {
      assert "\\n"[0] == '\\' && "\\n"[1] == 'n';
      LineAlone(line[1..]);
      assert [line[0]] + line[1..] == line;
    }
  }

  /** A schedule of one line gives its rule line, unless it is a start line; a second line
      matters exactly when it is not blank. */
  lemma RuleLineExactly(line: string, other: string)
    requires PlainLine(line) && PlainLine(other) && Trim(line) != ""
    ensures RuleLine(line) == if "DTSTART" <= Upper(Trim(line)) then None else Some(WithoutTag(Trim(line)))
    ensures RuleLine(line + "\n" + other) == if Trim(other) == "" then RuleLine(line) else None
    ensures RuleLine(other + "\n" + line) == if Trim(other) == "" then RuleLine(line) else None
  {
    hide Trim, SplitNewlines;
    NewlineSplits(line, "");
    NewlineSplits(other, "");
    NewlineSplits(line, other);
    NewlineSplits(other, line);
    TwoTrimmed(line, other);
    TwoTrimmed(other, line);
  }

  lemma TwoTrimmed(a: string, b: string)
    ensures NonEmptyTrimmed([a]) == if Trim(a) != "" then [Trim(a)] else []
    ensures NonEmptyTrimmed([a] + [b]) == NonEmptyTrimmed([a]) + NonEmptyTrimmed([b])
  {
    assert [a][1..] == [] && [b][1..] == [] && ([a] + [b])[1..] == [b];
  }

  predicate EitherCase(c: char, upper: char) {
    c == upper || ('a' <= c <= 'z' && c as int == upper as int + 32)
  }

  /** The tag "RRULE:" in any letter case. */
  predicate IsTag(tag: string) {
    && |tag| == 6 && EitherCase(tag[0], 'R') && EitherCase(tag[1], 'R') && EitherCase(tag[2], 'U')
    && EitherCase(tag[3], 'L') && EitherCase(tag[4], 'E') && tag[5] == ':'
  }

  lemma TagUpper(tag: string)
    requires IsTag(tag)
    ensures Upper(tag) == "RRULE:"
    ensures forall i :: 0 <= i < 6 ==> !IsBlank(tag[i]) && tag[i] != '\\' && tag[i] != '\n'
  {
    assert Upper(tag) == ['R', 'R', 'U', 'L', 'E', ':'];
  }

  /** The tag comes off in any letter case, and only once. */
  lemma TagComesOff(tag: string, rule: string)
    requires IsTag(tag)
    ensures WithoutTag(tag + rule) == rule
    ensures !("RRULE:" <= Upper(rule)) ==> WithoutTag(rule) == rule
  {
    TagUpper(tag);
    assert Upper(tag + rule)[..6] == Upper(tag);
    assert (tag + rule)[6..] == rule;
  }

  /** A tagged rule reads as the rule without its tag. */
  lemma TaggedRule(tag: string, rule: string, number: string -> Option<int>)
    requires IsTag(tag) && PlainLine(rule) && rule != "" && Trim(rule) == rule
    requires !("DTSTART" <= Upper(rule)) && !("RRULE:" <= Upper(rule))
    ensures RuleToPreset(Some(tag + rule), number) == RuleToPreset(Some(rule), number)
  {
    hide Trim, WithoutTag, RuleLine, ReadParts, PartsOf;
    TagChars(tag, rule);
    RuleLineExactly(tag + rule, "");
    RuleLineExactly(rule, "");
    TagComesOff(tag, rule);
  }

  lemma TagChars(tag: string, rule: string)
    requires IsTag(tag) && PlainLine(rule) && rule != "" && Trim(rule) == rule
    ensures PlainLine(tag + rule) && Trim(tag + rule) == tag + rule && tag + rule != ""
    ensures !("DTSTART" <= Upper(tag + rule))
  {
    TagUpper(tag);
    TrimmedEnds(rule);
    TrimNothing(tag + rule);
    assert Upper(tag + rule)[0] == Upper(tag)[0] && "RRULE:"[0] == 'R' && "DTSTART"[0] == 'D';
  }

  lemma TrimmedEnds(s: string)
    requires Trim(s) == s && s != ""
    ensures !IsBlank(s[0]) && !IsBlank(s[|s| - 1])
  {
    TrimShorter(s[1..]);
    TrimShorter(s[..|s| - 1]);
  }

  lemma {:induction false} TrimShorter(s: string)
    ensures |Trim(s)| <= |s|
    decreases |s|
  {
    if s != "" {
      TrimShorter(s[1..]);
      TrimShorter(s[..|s| - 1]);
    }
  }

  /** The tagged hourly rule reads as hourly. */
  lemma TaggedHourly(tag: string, number: string -> Option<int>)
    requires IsTag(tag)
    ensures RuleToPreset(Some(tag + "FREQ=HOURLY"), number).preset == Hourly
  {
    hide RuleToPreset, Upper, Trim, PlainLine;
    HourlyLine();
    TaggedRule(tag, "FREQ=HOURLY", number);
    HourlyRoundTrip(number);
  }

  lemma HourlyLine()
    ensures var rule := "FREQ=HOURLY";
            PlainLine(rule) && Trim(rule) == rule && !("DTSTART" <= Upper(rule)) && !("RRULE:" <= Upper(rule))
  {
    var rule := "FREQ=HOURLY";
    TrimNothing(rule);
    assert Upper(rule)[0] == 'F' && "DTSTART"[0] == 'D' && "RRULE:"[0] == 'R';
  }

  // ---------- parts ----------

  /** White space around a name and a value is dropped, the name is read in any letter case,
      and everything after the first equals sign is the value. */
  lemma PartRead(parts: map<string, string>, name: string, value: string, blanks: (string, string, string, string))
    requires AllBlank(blanks.0) && AllBlank(blanks.1) && AllBlank(blanks.2) && AllBlank(blanks.3)
    requires '=' !in name && (name == "" || (!IsBlank(name[0]) && !IsBlank(name[|name| - 1])))
    requires value == "" || (!IsBlank(value[0]) && !IsBlank(value[|value| - 1]))
    ensures WithPart(parts, (blanks.0 + name + blanks.1) + "=" + (blanks.2 + value + blanks.3))
         == parts[Upper(name) := value]
    ensures WithPart(parts, name) == parts
  {
    var left, right := blanks.0 + name + blanks.1, blanks.2 + value + blanks.3;
    BlankHasNoEquals(blanks.0);
    BlankHasNoEquals(blanks.1);
    IndexOfFirst(left, '=', right);
    assert left + "=" + right == left + ['='] + right;
    assert (left + "=" + right)[..|left|] == left && (left + "=" + right)[|left| + 1..] == right;
    TrimAround(blanks.0, name, blanks.1);
    TrimAround(blanks.2, value, blanks.3);
  }

  lemma BlankHasNoEquals(s: string)
    requires AllBlank(s)
    ensures '=' !in s
  {
  }

  // ---------- the exact match ----------

  predicate IsNumberName(name: string) {
    name == "BYHOUR" || name == "BYMINUTE"
  }

  /** Two sets of parts that say the same: the same names, the same values, and for the hour
      and the minute the same integers. */
  predicate SaySame(a: map<string, string>, b: map<string, string>, number: string -> Option<int>) {
    && a.Keys == b.Keys
    && forall name :: name in a ==>
         if IsNumberName(name) then number(a[name]).Some? && number(a[name]) == number(b[name]) else a[name] == b[name]
  }

  function RuleMap(rule: string): map<string, string> {
    PartsOf(Split(rule, ';'))
  }

  /** What a reading shows of a preset: the time and the day where the preset has them. */
  predicate Shows(read: Parsed, preset: Preset, hour: int, minute: int, day: string) {
    && read.preset == preset
    && (preset == Daily || preset == Weekly ==> read.hour == hour && read.minute == minute)
    && (preset == Weekly ==> read.day == day)
  }

  predicate IsPreset(preset: Preset) {
    preset == Hourly || preset == Daily || preset == Weekly
  }

  /** A schedule reads as a preset exactly when it is one rule line that says the same as the
      preset's own rule: any other part, such as an end condition, makes it custom. */
  lemma MatchesExactly(text: string, preset: Preset, hour: int, minute: int, day: string,
                       number: string -> Option<int>)
    requires ReadsBack(number) && IsPreset(preset) && IsWeekday(day)
    ensures Shows(RuleToPreset(Some(text), number), preset, hour, minute, day)
       <==> RuleLine(text).Some?
            && SaySame(RuleMap(RuleLine(text).value), RuleMap(PresetToRule(preset, hour, minute, day).value), number)
  {
    hide RuleLine, PartsOf, ReadParts;
    WeekdaysAreListed(day);
    BuiltMap(preset, hour, minute, day);
    if RuleLine(text).Some? {
      ReadExactly(RuleMap(RuleLine(text).value), preset, hour, minute, day, number);
    }
  }

  function PresetPairs(preset: Preset, hour: int, minute: int, day: string): seq<Pair>
    requires IsPreset(preset)
  {
    match preset
    case Daily => DailyPairs(hour, minute)
    case Weekly => WeeklyPairs(hour, minute, day)
    case _ => [Pair("FREQ", "HOURLY")]
  }

  lemma BuiltMap(preset: Preset, hour: int, minute: int, day: string)
    requires IsPreset(preset) && day in WEEKDAYS
    ensures RuleMap(PresetToRule(preset, hour, minute, day).value) == PairMap(PresetPairs(preset, hour, minute, day))
  {
    hide PairOk, RuleText, PairMap, PartsOf;
    var pairs := PresetPairs(preset, hour, minute, day);
    PresetPairsOk(preset, hour, minute, day);
    RuleIsText(hour, minute, day);
    HourlyText();
    RuleTextClean(pairs);
    PartsOfPairs(pairs);
  }

  lemma HourlyText()
    ensures RuleText([Pair("FREQ", "HOURLY")]) == "FREQ=HOURLY"
  {
  }

  lemma PresetPairsOk(preset: Preset, hour: int, minute: int, day: string)
    requires IsPreset(preset) && day in WEEKDAYS
    ensures var pairs := PresetPairs(preset, hour, minute, day);
            forall i :: 0 <= i < |pairs| ==> PairOk(pairs[i])
  {
    hide Written;
    TimePairsOk(hour, minute);
    WeekdayClean(day);
    HourlyOk();
    assert PairOk(Pair("FREQ", "DAILY")) && PairOk(Pair("FREQ", "WEEKLY"));
  }

  lemma ReadExactly(parts: map<string, string>, preset: Preset, hour: int, minute: int, day: string,
                    number: string -> Option<int>)
    requires ReadsBack(number) && IsPreset(preset) && day in WEEKDAYS
    ensures Shows(ReadParts(parts, number), preset, hour, minute, day)
       <==> SaySame(parts, PairMap(PresetPairs(preset, hour, minute, day)), number)
  {
    match preset {
      case Hourly => ReadHourlyExactly(parts, number);
      case Daily => ReadDailyExactly(parts, hour, minute, number);
      case Weekly => ReadWeeklyExactly(parts, hour, minute, day, number);
    }
  }

  lemma ReadHourlyExactly(parts: map<string, string>, number: string -> Option<int>)
    ensures ReadParts(parts, number).preset == Hourly
       <==> SaySame(parts, PairMap([Pair("FREQ", "HOURLY")]), number)
  {
    PairMapAppend([], Pair("FREQ", "HOURLY"));
    assert [] + [Pair("FREQ", "HOURLY")] == [Pair("FREQ", "HOURLY")];
    assert PairMap([Pair("FREQ", "HOURLY")]).Keys == {"FREQ"};
  }

  lemma ReadDailyExactly(parts: map<string, string>, hour: int, minute: int, number: string -> Option<int>)
    requires ReadsBack(number)
    ensures Shows(ReadParts(parts, number), Daily, hour, minute, "")
       <==> SaySame(parts, PairMap(DailyPairs(hour, minute)), number)
  {
    hide Written;
    var d := DailyPairs(hour, minute);
    ThreePairs(d[0], d[1], d[2]);
    assert PairMap(d).Keys == {"FREQ", "BYHOUR", "BYMINUTE"};
    assert number(Written(hour)) == Some(hour) && number(Written(minute)) == Some(minute);
  }

  lemma ReadWeeklyExactly(parts: map<string, string>, hour: int, minute: int, day: string,
                          number: string -> Option<int>)
    requires ReadsBack(number) && day in WEEKDAYS
    ensures Shows(ReadParts(parts, number), Weekly, hour, minute, day)
       <==> SaySame(parts, PairMap(WeeklyPairs(hour, minute, day)), number)
  {
    hide Written;
    var w := WeeklyPairs(hour, minute, day);
    FourPairs(w[0], w[1], w[2], w[3]);
    assert PairMap(w).Keys == {"FREQ", "BYDAY", "BYHOUR", "BYMINUTE"};
    assert number(Written(hour)) == Some(hour) && number(Written(minute)) == Some(minute);
  }

  /** A number is written in decimal, with a minus sign when it is negative. */
  lemma WrittenExactly(n: int)
    ensures n >= 0 ==> AllDigits(Written(n)) && Value(Written(n)) == n
    ensures n < 0 ==> Written(n)[0] == '-' && AllDigits(Written(n)[1..]) && Value(Written(n)[1..]) == -n
  {
    ValueOfDec(if n < 0 then -n else n);
    assert n < 0 ==> Written(n)[1..] == Dec(-n);
  }
}
