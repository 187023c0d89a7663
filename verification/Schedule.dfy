/** The schedule presets of browser/src/page/schedule_picker.ts and the rule text that
    stands for them (the NAME=VALUE syntax of section 3.3.10 of RFC 5545). */
module Schedule {
  import opened Options
  import opened Decimal
  import opened Text
  import opened JsText

  datatype Preset = NoSchedule | Hourly | Daily | Weekly | Custom

  datatype Parsed = Parsed(preset: Preset, hour: int, minute: int, day: string)

  const WEEKDAYS := ["MO", "TU", "WE", "TH", "FR", "SA", "SU"]
  const DEFAULT_HOUR := 9
  const DEFAULT_MINUTE := 0
  const DEFAULT_DAY := "MO"

  /** How a number is written into a template. */
  function Written(n: int): string {
    if n < 0 then "-" + Dec(-n) else Dec(n)
  }

  /** `presetToRule`: null for no schedule, and for the custom box. */
  function PresetToRule(preset: Preset, hour: int, minute: int, day: string): Option<string> {
    match preset
    case Hourly => Some("FREQ=HOURLY")
    case Daily => Some("FREQ=DAILY" + ";" + ("BYHOUR=" + Written(hour) + ";" + ("BYMINUTE=" + Written(minute))))
    case Weekly =>
      Some("FREQ=WEEKLY" + ";" + ("BYDAY=" + day + ";"
          + ("BYHOUR=" + Written(hour) + ";" + ("BYMINUTE=" + Written(minute)))))
    case _ => None
  }

  // ---------- reading a rule ----------

  /** `split(/\\n|\n/)`: a newline, or a backslash and an n. */
  function SplitNewlines(s: string): (lines: seq<string>)
    ensures lines != []
  {
    if s == "" then [""]
    else if s[0] == '\n' then [""] + SplitNewlines(s[1..])
    else if "\\n" <= s then [""] + SplitNewlines(s[2..])
    else
      var rest := SplitNewlines(s[1..]);
      [[s[0]] + rest[0]] + rest[1..]
  }

  function NonEmptyTrimmed(lines: seq<string>): seq<string> {
    if lines == [] then []
    else (if Trim(lines[0]) != "" then [Trim(lines[0])] else []) + NonEmptyTrimmed(lines[1..])
  }

  /** The single rule line of a schedule that has one and no start line. */
  function RuleLine(schedule: string): Option<string> {
    var lines := NonEmptyTrimmed(SplitNewlines(schedule));
    if |lines| != 1 || "DTSTART" <= Upper(lines[0]) then None else Some(WithoutTag(lines[0]))
  }

  /** `replace(/^RRULE:/i, "")`. */
  function WithoutTag(line: string): string {
    if "RRULE:" <= Upper(line) then line[6..] else line
  }

  /** One `NAME=VALUE` part added to the ones before it. */
  function WithPart(parts: map<string, string>, part: string): map<string, string> {
    var i := IndexOf(part, '=');
    if i < 0 then parts else parts[Upper(Trim(part[..i])) := Trim(part[i + 1..])]
  }

  function PartsOf(pieces: seq<string>): map<string, string> {
    if pieces == [] then map[] else WithPart(PartsOf(pieces[..|pieces| - 1]), pieces[|pieces| - 1])
  }

  predicate Names(part: string, name: string) {
    var i := IndexOf(part, '=');
    i >= 0 && Upper(Trim(part[..i])) == name
  }

  function ValueIn(part: string): string
    requires IndexOf(part, '=') >= 0
  {
    Trim(part[IndexOf(part, '=') + 1..])
  }

  predicate IsLastNamed(pieces: seq<string>, name: string, k: nat) {
    && k < |pieces| && Names(pieces[k], name)
    && forall j :: k < j < |pieces| ==> !Names(pieces[j], name)
  }

  lemma WithPartAt(parts: map<string, string>, part: string, name: string)
    ensures name in WithPart(parts, part) <==> name in parts || Names(part, name)
    ensures Names(part, name) ==> WithPart(parts, part)[name] == ValueIn(part)
    ensures name in parts && !Names(part, name) ==> WithPart(parts, part)[name] == parts[name]
  {
  }

  /** A name has a value exactly when a piece gives it one. */
  lemma {:induction false} NamedExactly(pieces: seq<string>, name: string)
    ensures name in PartsOf(pieces) <==> exists k :: 0 <= k < |pieces| && Names(pieces[k], name)
  {
    hide WithPart, Names;
    if pieces != [] {
      var n := |pieces| - 1;
      NamedExactly(pieces[..n], name);
      WithPartAt(PartsOf(pieces[..n]), pieces[n], name);
      assert forall k :: 0 <= k < n ==> pieces[..n][k] == pieces[k];
    }
  }

  /** Of several pieces with one name, the last one counts. */
  lemma {:induction false} LastValueWins(pieces: seq<string>, name: string, k: nat)
    requires IsLastNamed(pieces, name, k)
    ensures name in PartsOf(pieces) && PartsOf(pieces)[name] == ValueIn(pieces[k])
  {
    hide WithPart, Names;
    var n := |pieces| - 1;
    WithPartAt(PartsOf(pieces[..n]), pieces[n], name);
    if k < n {
      assert !Names(pieces[n], name) && pieces[..n][k] == pieces[k];
      LastValueWins(pieces[..n], name, k);
    }
  }

  /** `ruleParts`: the loop that fills the record. */
  method RuleParts(ruleLine: string) returns (parts: map<string, string>)
    ensures parts == PartsOf(Split(ruleLine, ';'))
    ensures forall name :: name in parts <==>
              exists k :: 0 <= k < |Split(ruleLine, ';')| && Names(Split(ruleLine, ';')[k], name)
    ensures forall name, k: nat :: IsLastNamed(Split(ruleLine, ';'), name, k) ==>
              name in parts && parts[name] == ValueIn(Split(ruleLine, ';')[k])
  {
    parts := map[];
    var pieces := Split(ruleLine, ';');
    for k := 0 to |pieces|
      invariant parts == PartsOf(pieces[..k])
    {
      assert pieces[..k + 1][..k] == pieces[..k];
      var part := pieces[k];
      var i := IndexOf(part, '=');
      if i < 0 {
        continue;
      }
      parts := parts[Upper(Trim(part[..i])) := Trim(part[i + 1..])];
    }
    assert pieces[..|pieces|] == pieces;
    forall name ensures name in parts <==> exists k :: 0 <= k < |pieces| && Names(pieces[k], name) {
      NamedExactly(pieces, name);
    }
    forall name, k: nat | IsLastNamed(pieces, name, k) ensures name in parts && parts[name] == ValueIn(pieces[k]) {
      LastValueWins(pieces, name, k);
    }
  }

  const FALLBACK := Parsed(Custom, DEFAULT_HOUR, DEFAULT_MINUTE, DEFAULT_DAY)

  /** The preset that a rule's parts match exactly. */
  function ReadParts(parts: map<string, string>, number: string -> Option<int>): Parsed {
    if parts.Keys == {"FREQ"} && parts["FREQ"] == "HOURLY"
        then Parsed(Hourly, DEFAULT_HOUR, DEFAULT_MINUTE, DEFAULT_DAY)
    else if parts.Keys == {"FREQ", "BYHOUR", "BYMINUTE"} && parts["FREQ"] == "DAILY"
            && number(parts["BYHOUR"]).Some? && number(parts["BYMINUTE"]).Some? then
      Parsed(Daily, number(parts["BYHOUR"]).value, number(parts["BYMINUTE"]).value, DEFAULT_DAY)
    else if parts.Keys == {"FREQ", "BYDAY", "BYHOUR", "BYMINUTE"}
        && parts["FREQ"] == "WEEKLY" && parts["BYDAY"] in WEEKDAYS
            && number(parts["BYHOUR"]).Some? && number(parts["BYMINUTE"]).Some? then
      Parsed(Weekly, number(parts["BYHOUR"]).value, number(parts["BYMINUTE"]).value, parts["BYDAY"])
    else FALLBACK
  }

  /** `ruleToPreset`, for whatever reading of numbers; `None` where it is no integer. */
  function RuleToPreset(schedule: Option<string>, number: string -> Option<int>): Parsed {
    match schedule
    case None => Parsed(NoSchedule, DEFAULT_HOUR, DEFAULT_MINUTE, DEFAULT_DAY)
    case Some(text) =>
      match RuleLine(text)
      case None => FALLBACK
      case Some(line) => ReadParts(PartsOf(Split(line, ';')), number)
  }

  // ---------- a built rule is one clean line ----------

  /** Characters of a built rule: nothing to trim, split or fold. */
  predicate Clean(s: string) {
    forall i :: 0 <= i < |s| ==> !IsBlank(s[i]) && s[i] != '\\' && !('a' <= s[i] <= 'z')
  }

  lemma CleanConcat(a: string, b: string)
    requires Clean(a) && Clean(b)
    ensures Clean(a + b)
  {
  }

  lemma {:induction false} CleanOneLine(s: string)
    requires Clean(s)
    ensures SplitNewlines(s) == [s]
  {
    if s != "" {
      CleanOneLine(s[1..]);
      assert [s[0]] + s[1..] == s;
    }
  }

  lemma CleanUpperTrim(s: string)
    requires Clean(s)
    ensures Upper(s) == s && Trim(s) == s
  {
    TrimNothing(s);
  }

  /** A clean line that starts with F is the rule line as it stands. */
  lemma CleanRuleLine(rule: string)
    requires Clean(rule) && rule != "" && rule[0] == 'F'
    ensures RuleLine(rule) == Some(rule)
  {
    CleanOneLine(rule);
    CleanUpperTrim(rule);
    assert NonEmptyTrimmed([rule]) == [rule];
    assert "DTSTART"[0] != rule[0] && "RRULE:"[0] != rule[0];
  }

  lemma WrittenClean(n: int)
    ensures Clean(Written(n)) && ';' !in Written(n) && '=' !in Written(n)
  {
  }

  /** A clean part is read as its own name and value. */
  lemma CleanPart(parts: map<string, string>, name: string, value: string)
    requires Clean(name) && Clean(value) && '=' !in name
    ensures WithPart(parts, name + "=" + value) == parts[name := value]
  {
    IndexOfFirst(name, '=', value);
    assert name + "=" + value == name + ['='] + value;
    assert (name + "=" + value)[..|name|] == name && (name + "=" + value)[|name| + 1..] == value;
    CleanUpperTrim(name);
    CleanUpperTrim(value);
  }

  lemma PartsOfAppend(pieces: seq<string>, part: string)
    ensures PartsOf(pieces + [part]) == WithPart(PartsOf(pieces), part)
  {
    assert (pieces + [part])[..|pieces|] == pieces;
  }

  // ---------- the codec ----------

  /** A reading of numbers that reads back every integer as it is written. */
  ghost predicate ReadsBack(number: string -> Option<int>) {
    forall n :: number(Written(n)) == Some(n)
  }

  /** A NAME=VALUE part that the parser reads as it stands. */
  datatype Pair = Pair(name: string, value: string)

  predicate PairOk(p: Pair) {
    Clean(p.name) && Clean(p.value) && ';' !in p.name && ';' !in p.value && '=' !in p.name && p.name != ""
  }

  function Part(p: Pair): string {
    p.name + "=" + p.value
  }

  lemma PartClean(p: Pair)
    requires PairOk(p)
    ensures Clean(Part(p)) && ';' !in Part(p)
  {
  }

  /** The text of a rule with these parts. */
  function RuleText(pairs: seq<Pair>): string
    requires pairs != []
  {
    if |pairs| == 1 then Part(pairs[0]) else Part(pairs[0]) + ";" + RuleText(pairs[1..])
  }

  function PartTexts(pairs: seq<Pair>): seq<string> {
    seq(|pairs|, i requires 0 <= i < |pairs| => Part(pairs[i]))
  }

  function PairMap(pairs: seq<Pair>): map<string, string> {
    if pairs == [] then map[] else PairMap(pairs[..|pairs| - 1])[pairs[|pairs| - 1].name := pairs[|pairs| - 1].value]
  }

  lemma {:induction false} RuleTextClean(pairs: seq<Pair>)
    requires pairs != [] && forall i :: 0 <= i < |pairs| ==> PairOk(pairs[i])
    ensures Clean(RuleText(pairs)) && Part(pairs[0]) <= RuleText(pairs)
    ensures Split(RuleText(pairs), ';') == PartTexts(pairs)
  {
    PartClean(pairs[0]);
    if |pairs| == 1 {
      SplitWhole(Part(pairs[0]), ';');
    } else {
      var rest := RuleText(pairs[1..]);
      RuleTextClean(pairs[1..]);
      CleanConcat(Part(pairs[0]), ";");
      CleanConcat(Part(pairs[0]) + ";", rest);
      SplitPiece(Part(pairs[0]), ';', rest);
      assert Part(pairs[0]) + ";" + rest == Part(pairs[0]) + [';'] + rest;
    }
  }

  lemma PartsOfStep(pieces: seq<string>, p: Pair)
    requires PairOk(p)
    ensures PartsOf(pieces + [Part(p)]) == PartsOf(pieces)[p.name := p.value]
  {
    PartsOfAppend(pieces, Part(p));
    CleanPart(PartsOf(pieces), p.name, p.value);
  }

  lemma PartsOfSnoc(front: seq<Pair>, p: Pair)
    requires PairOk(p)
    ensures PartsOf(PartTexts(front + [p])) == PartsOf(PartTexts(front))[p.name := p.value]
  {
    assert PartTexts(front + [p]) == PartTexts(front) + [Part(p)];
    PartsOfStep(PartTexts(front), p);
  }

  lemma PairsNone()
    ensures PartsOf(PartTexts([])) == PairMap([])
  {
    assert PartTexts([]) == [];
  }

  lemma {:induction false} PartsOfPairs(pairs: seq<Pair>)
    requires forall i :: 0 <= i < |pairs| ==> PairOk(pairs[i])
    ensures PartsOf(PartTexts(pairs)) == PairMap(pairs)
  {
    if pairs == [] {
      PairsNone();
    } else {
      hide PairOk, PartTexts, PartsOf, PairMap;
      var n := |pairs| - 1;
      var front, last := pairs[..n], pairs[n];
      PartsOfPairs(front);
      PartsOfSnoc(front, last);
      PairMapAppend(front, last);
      assert front + [last] == pairs;
    }
  }

  /** A rule text is read as the parts it was built from. */
  lemma ReadRuleText(pairs: seq<Pair>, number: string -> Option<int>)
    requires pairs != [] && forall i :: 0 <= i < |pairs| ==> PairOk(pairs[i])
    requires pairs[0].name == "FREQ"
    ensures RuleToPreset(Some(RuleText(pairs)), number) == ReadParts(PairMap(pairs), number)
  {
    RuleTextClean(pairs);
    PartsOfPairs(pairs);
    assert Part(pairs[0])[0] == 'F';
    CleanRuleLine(RuleText(pairs));
  }

  function DailyPairs(hour: int, minute: int): seq<Pair> {
    [Pair("FREQ", "DAILY"), Pair("BYHOUR", Written(hour)), Pair("BYMINUTE", Written(minute))]
  }

  function WeeklyPairs(hour: int, minute: int, day: string): seq<Pair> {
    [Pair("FREQ", "WEEKLY"), Pair("BYDAY", day), Pair("BYHOUR", Written(hour)), Pair("BYMINUTE", Written(minute))]
  }

  lemma TimePairsOk(hour: int, minute: int)
    ensures PairOk(Pair("BYHOUR", Written(hour))) && PairOk(Pair("BYMINUTE", Written(minute)))
  {
    hide Written;
    WrittenClean(hour);
    WrittenClean(minute);
  }

  lemma WeekdayClean(day: string)
    requires day in WEEKDAYS
    ensures PairOk(Pair("BYDAY", day))
  {
  }

  lemma HourlyRoundTrip(number: string -> Option<int>)
    ensures RuleToPreset(PresetToRule(Hourly, 0, 0, ""), number).preset == Hourly
  {
    hide RuleToPreset, PairOk, ReadParts;
    var p := Pair("FREQ", "HOURLY");
    HourlyOk();
    ReadRuleText([p], number);
    PairMapAppend([], p);
    assert [] + [p] == [p];
    assert Part(p) == "FREQ=HOURLY";
    assert PairMap([]) == map[];
    ReadHourly(PairMap([p]), number);
  }

  lemma HourlyOk()
    ensures PairOk(Pair("FREQ", "HOURLY"))
  {
  }

  lemma ReadHourly(parts: map<string, string>, number: string -> Option<int>)
    requires parts == map[]["FREQ" := "HOURLY"]
    ensures ReadParts(parts, number).preset == Hourly
  {
    assert parts.Keys == {"FREQ"};
  }

  lemma PairMapAppend(pairs: seq<Pair>, p: Pair)
    ensures PairMap(pairs + [p]) == PairMap(pairs)[p.name := p.value]
  {
    assert (pairs + [p])[..|pairs|] == pairs;
  }

  lemma RuleTextCons(p: Pair, rest: seq<Pair>)
    requires rest != []
    ensures RuleText([p] + rest) == Part(p) + ";" + RuleText(rest)
  {
    assert ([p] + rest)[1..] == rest;
  }

  lemma ThreePairs(a: Pair, b: Pair, c: Pair)
    ensures PairMap([a, b, c]) == map[][a.name := a.value][b.name := b.value][c.name := c.value]
    ensures RuleText([a, b, c]) == Part(a) + ";" + (Part(b) + ";" + Part(c))
  {
    PairMapAppend([], a);
    PairMapAppend([a], b);
    PairMapAppend([a, b], c);
    assert [] + [a] == [a] && [a] + [b] == [a, b] && [a, b] + [c] == [a, b, c];
    RuleTextCons(b, [c]);
    RuleTextCons(a, [b, c]);
    assert [b] + [c] == [b, c] && [a] + [b, c] == [a, b, c];
  }

  lemma FourPairs(a: Pair, b: Pair, c: Pair, d: Pair)
    ensures PairMap([a, b, c, d]) == map[][a.name := a.value][b.name := b.value][c.name := c.value][d.name := d.value]
    ensures RuleText([a, b, c, d]) == Part(a) + ";" + (Part(b) + ";" + (Part(c) + ";" + Part(d)))
  {
    ThreePairs(a, b, c);
    PairMapAppend([a, b, c], d);
    assert [a, b, c] + [d] == [a, b, c, d];
    ThreePairs(b, c, d);
    RuleTextCons(a, [b, c, d]);
    assert [a] + [b, c, d] == [a, b, c, d];
  }

  lemma ReadDaily(parts: map<string, string>, hour: int, minute: int, number: string -> Option<int>)
    requires parts == map[]["FREQ" := "DAILY"]["BYHOUR" := Written(hour)]["BYMINUTE" := Written(minute)]
    requires number(Written(hour)) == Some(hour) && number(Written(minute)) == Some(minute)
    ensures ReadParts(parts, number) == Parsed(Daily, hour, minute, DEFAULT_DAY)
  {
  }

  lemma ReadWeekly(parts: map<string, string>, hour: int, minute: int, day: string, number: string -> Option<int>)
    requires parts == map[]["FREQ" := "WEEKLY"]["BYDAY" := day]
            ["BYHOUR" := Written(hour)]["BYMINUTE" := Written(minute)]
    requires number(Written(hour)) == Some(hour) && number(Written(minute)) == Some(minute) && day in WEEKDAYS
    ensures ReadParts(parts, number) == Parsed(Weekly, hour, minute, day)
  {
    assert |"FREQ"| == 4 && |"BYDAY"| == 5 && |"BYHOUR"| == 6 && |"BYMINUTE"| == 8;
    assert parts.Keys == {"FREQ", "BYDAY", "BYHOUR", "BYMINUTE"};
    assert "BYDAY" in parts.Keys && "BYDAY" !in {"FREQ", "BYHOUR", "BYMINUTE"};
  }

  lemma DailyRoundTrip(hour: int, minute: int, number: string -> Option<int>)
    requires ReadsBack(number)
    ensures RuleToPreset(Some(RuleText(DailyPairs(hour, minute))), number) == Parsed(Daily, hour, minute, DEFAULT_DAY)
  {
    var pairs := DailyPairs(hour, minute);
    TimePairsOk(hour, minute);
    assert PairOk(Pair("FREQ", "DAILY"));
    ReadRuleText(pairs, number);
    ThreePairs(pairs[0], pairs[1], pairs[2]);
    ReadDaily(PairMap(pairs), hour, minute, number);
  }

  lemma WeeklyRoundTrip(hour: int, minute: int, day: string, number: string -> Option<int>)
    requires ReadsBack(number) && day in WEEKDAYS
    ensures RuleToPreset(Some(RuleText(WeeklyPairs(hour, minute, day))), number) == Parsed(Weekly, hour, minute, day)
  {
    var pairs := WeeklyPairs(hour, minute, day);
    TimePairsOk(hour, minute);
    WeekdayClean(day);
    assert PairOk(Pair("FREQ", "WEEKLY"));
    ReadRuleText(pairs, number);
    FourPairs(pairs[0], pairs[1], pairs[2], pairs[3]);
    ReadWeekly(PairMap(pairs), hour, minute, day, number);
  }

  /** The templates write exactly these parts. */
  lemma RuleIsText(hour: int, minute: int, day: string)
    ensures PresetToRule(Daily, hour, minute, day) == Some(RuleText(DailyPairs(hour, minute)))
    ensures PresetToRule(Weekly, hour, minute, day) == Some(RuleText(WeeklyPairs(hour, minute, day)))
  {
    var d, w := DailyPairs(hour, minute), WeeklyPairs(hour, minute, day);
    ThreePairs(d[0], d[1], d[2]);
    FourPairs(w[0], w[1], w[2], w[3]);
    assert "FREQ" + "=" + "DAILY" == "FREQ=DAILY" && "FREQ" + "=" + "WEEKLY" == "FREQ=WEEKLY";
    assert "BYHOUR" + "=" == "BYHOUR=" && "BYMINUTE" + "=" == "BYMINUTE=" && "BYDAY" + "=" == "BYDAY=";
  }

  predicate IsWeekday(day: string) {
    day == "MO" || day == "TU" || day == "WE" || day == "TH" || day == "FR" || day == "SA" || day == "SU"
  }

  lemma WeekdaysAreListed(day: string)
    ensures IsWeekday(day) <==> day in WEEKDAYS
  {
    var days := WEEKDAYS;
    assert days[0] == "MO" && days[1] == "TU" && days[2] == "WE" && days[3] == "TH" && days[4] == "FR"
           && days[5] == "SA" && days[6] == "SU";
  }

  /** Every preset is recovered from its own rule, with the time and the day wherever the
      preset carries them, for all integers. */
  lemma PresetRoundTrip(preset: Preset, hour: int, minute: int, day: string, number: string -> Option<int>)
    requires ReadsBack(number) && preset != Custom && IsWeekday(day)
    ensures var read := RuleToPreset(PresetToRule(preset, hour, minute, day), number);
            && read.preset == preset
            && (preset == Daily || preset == Weekly ==> read.hour == hour && read.minute == minute)
            && (preset == Weekly ==> read.day == day)
  {
    match preset {
      case NoSchedule =>
      case Hourly => HourlyRoundTrip(number);
      case Daily =>
        RuleIsText(hour, minute, day);
        DailyRoundTrip(hour, minute, number);
      case Weekly =>
        WeekdaysAreListed(day);
        RuleIsText(hour, minute, day);
        WeeklyRoundTrip(hour, minute, day, number);
    }
  }

  /** What a stored rule read as a preset shows is stable: rebuilding the rule from it and
      reading that again shows the same preset and the same fields. */
  lemma ReadIsStable(schedule: Option<string>, number: string -> Option<int>)
    requires ReadsBack(number) && RuleToPreset(schedule, number).preset != Custom
    ensures var read := RuleToPreset(schedule, number);
            RuleToPreset(PresetToRule(read.preset, read.hour, read.minute, read.day), number) == read
  {
    var read := RuleToPreset(schedule, number);
    ReadDefaults(schedule, number);
    PresetRoundTrip(read.preset, read.hour, read.minute, read.day, number);
    ReadDefaults(PresetToRule(read.preset, read.hour, read.minute, read.day), number);
  }

  /** Fields that a preset does not carry have their defaults, and a day is always listed. */
  lemma ReadDefaults(schedule: Option<string>, number: string -> Option<int>)
    ensures var read := RuleToPreset(schedule, number);
            && IsWeekday(read.day)
            && (read.preset != Weekly ==> read.day == "MO")
            && (read.preset != Weekly && read.preset != Daily ==> read.hour == 9 && read.minute == 0)
  {
    WeekdaysAreListed(RuleToPreset(schedule, number).day);
    assert WEEKDAYS[0] == DEFAULT_DAY;
  }

  /** The custom box has no built form: its rule is null, which reads as no schedule. */
  lemma CustomIsNotRebuilt(hour: int, minute: int, day: string, number: string -> Option<int>)
    ensures RuleToPreset(PresetToRule(Custom, hour, minute, day), number).preset == NoSchedule
  {
  }
}
