/** Penny's changelog (penny/penny/changelog.py): which entries of a deploy's window are
    new, decided by reading the log's own rows back. */
module Changelog {
  import opened Options
  import opened Decimal

  datatype Entry = Entry(pr: nat, text: string)

  const FRESH_LOG_CAP := 10

  // ---------- a row and what is read back from it ----------

  /** `ChangelogEntry.render`. */
  function Render(e: Entry): string {
    "PR #" + Dec(e.pr) + ": " + e.text
  }

  /** The number in a row's own prefix, or none: `^PR #(\d+): `. */
  function RecordedPr(row: string): Option<nat> {
    if "PR #" <= row then
      var rest := row[4..];
      var k := DigitRun(rest);
      if k > 0 && ": " <= rest[k..] then Some(Value(rest[..k])) else None
    else None
  }

  /** Every row that is written is read back to its own number, whatever its text. */
  lemma RecordedPrOfRender(e: Entry)
    ensures RecordedPr(Render(e)) == Some(e.pr)
  {
    var row, digits, rest := Render(e), Dec(e.pr), ": " + e.text;
    assert row == "PR #" + (digits + rest);
    assert row[4..] == digits + rest;
    DigitRunOf(digits, rest);
    assert (digits + rest)[..|digits|] == digits && (digits + rest)[|digits|..] == rest;
    assert ": " <= rest;
    ValueOfDec(e.pr);
  }

  /** A row's text: the prefix with the number, and what follows it. */
  function Row(digits: string, text: string): string {
    "PR #" + (digits + (": " + text))
  }

  /** The row is that of the entry: its number in decimal without leading zeros, and then its
      whole text. */
  ghost predicate Carries(row: string, e: Entry) {
    exists digits :: IsNumberOf(digits, e.pr) && row == Row(digits, e.text)
  }

  ghost predicate IsNumberOf(digits: string, n: nat) {
    digits != "" && AllDigits(digits) && Value(digits) == n && (|digits| > 1 ==> digits[0] != '0')
  }

  lemma RenderCarries(e: Entry)
    ensures Carries(Render(e), e)
  {
    ValueOfDec(e.pr);
    assert IsNumberOf(Dec(e.pr), e.pr) && Render(e) == Row(Dec(e.pr), e.text);
  }

  /** A row is that of one entry only: number and text can both be read off it. */
  lemma CarriesOne(row: string, a: Entry, b: Entry)
    requires Carries(row, a) && Carries(row, b)
    ensures a == b
  {
    hide Row, Value;
    var m :| IsNumberOf(m, a.pr) && row == Row(m, a.text);
    var n :| IsNumberOf(n, b.pr) && row == Row(n, b.text);
    RowParts(m, a.text);
    RowParts(n, b.text);
  }

  lemma RowParts(digits: string, text: string)
    requires AllDigits(digits)
    ensures var row := Row(digits, text);
            && "PR #" <= row && DigitRun(row[4..]) == |digits| && row[4..][..|digits|] == digits
            && row[4..][|digits|..] == ": " + text && row[4..][|digits|..][2..] == text
  {
    var rest := ": " + text;
    assert Row(digits, text)[4..] == digits + rest;
    assert rest[2..] == text;
    DigitRunOf(digits, rest);
  }

  /** A row has a number exactly when it begins with the prefix: the letters, some digits, a
      colon and a space. */
  lemma RecordedPrExactly(row: string, n: nat)
    ensures RecordedPr(row) == Some(n) <==>
              exists digits, text :: digits != "" && AllDigits(digits) && Value(digits) == n && row == Row(digits, text)
  {
    if RecordedPr(row) == Some(n) {
      RowOf(row);
    }
    forall digits, text | digits != "" && AllDigits(digits) && Value(digits) == n && row == Row(digits, text)
      ensures RecordedPr(row) == Some(n)
    {
      RowParts(digits, text);
    }
  }

  lemma RowOf(row: string)
    requires RecordedPr(row).Some?
    ensures var digits := row[4..][..DigitRun(row[4..])];
            row == Row(digits, row[4..][|digits|..][2..])
  {
    var rest := row[4..];
    var after := rest[DigitRun(rest)..];
    assert row == "PR #" + rest && rest == rest[..DigitRun(rest)] + after && after == ": " + after[2..];
  }

  ghost function Recorded(log: seq<string>): set<nat> {
    set row | row in log && RecordedPr(row).Some? :: RecordedPr(row).value
  }

  function Rows(entries: seq<Entry>): seq<string> {
    seq(|entries|, i requires 0 <= i < |entries| => Render(entries[i]))
  }

  ghost predicate Distinct(entries: seq<Entry>) {
    forall i, j :: 0 <= i < j < |entries| ==> entries[i].pr != entries[j].pr
  }

  ghost function PrSet(entries: seq<Entry>): set<nat> {
    set e | e in entries :: e.pr
  }

  /** Appending entries records exactly their numbers. */
  lemma RecordedAppend(log: seq<string>, entries: seq<Entry>)
    ensures Recorded(log + Rows(entries)) == Recorded(log) + PrSet(entries)
  {
    forall e | e in entries ensures e.pr in Recorded(log + Rows(entries)) {
      var k :| 0 <= k < |entries| && entries[k] == e;
      RecordedPrOfRender(e);
      assert (log + Rows(entries))[|log| + k] == Render(e);
    }
    forall row | row in log + Rows(entries) && RecordedPr(row).Some?
      ensures RecordedPr(row).value in Recorded(log) + PrSet(entries)
    {
      if row !in log {
        var k :| 0 <= k < |entries| && Rows(entries)[k] == row;
        RecordedPrOfRender(entries[k]);
        assert entries[k] in entries;
      }
    }
  }

  // ---------- which entries are new ----------

  /** The last position whose number is recorded, or -1. */
  function NewestRecorded(entries: seq<Entry>, recorded: set<nat>): (i: int)
    ensures -1 <= i < |entries|
    ensures i >= 0 ==> entries[i].pr in recorded
    ensures forall k :: i < k < |entries| ==> entries[k].pr !in recorded
  {
    if entries == [] then -1
    else if entries[|entries| - 1].pr in recorded then |entries| - 1
    else NewestRecorded(entries[..|entries| - 1], recorded)
  }

  /** Python's `entries[-cap:]`: a cap of zero keeps everything. */
  function LastOf(entries: seq<Entry>, cap: int): seq<Entry> {
    if cap <= 0 then (if -cap <= |entries| then entries[-cap..] else [])
    else if cap <= |entries| then entries[|entries| - cap..]
    else entries
  }

  function Select(entries: seq<Entry>, recorded: set<nat>, cap: int): seq<Entry> {
    var i := NewestRecorded(entries, recorded);
    if i >= 0 then entries[i + 1..] else LastOf(entries, cap)
  }

  /** What is selected is a tail of the window without a recorded number, and it stops at
      a recorded entry; only a window without one is cut by the cap instead. */
  lemma SelectExactly(entries: seq<Entry>, recorded: set<nat>, cap: int)
    ensures var unseen := Select(entries, recorded, cap);
            && |unseen| <= |entries| && unseen == entries[|entries| - |unseen|..]
            && (forall e :: e in unseen ==> e.pr !in recorded)
            && (if exists e :: e in entries && e.pr in recorded
                then |unseen| < |entries| && entries[|entries| - |unseen| - 1].pr in recorded
                else cap > 0 ==> |unseen| == if cap < |entries| then cap else |entries|)
  {
    hide NewestRecorded, LastOf;
    var i := NewestRecorded(entries, recorded);
    if i < 0 {
      assert forall e :: e in entries ==> e.pr !in recorded;
      LastOfTail(entries, cap);
    } else {
      assert entries[i] in entries;
      assert forall k :: i < k < |entries| ==> entries[i + 1..][k - i - 1] == entries[k];
    }
  }

  lemma LastOfTail(entries: seq<Entry>, cap: int)
    ensures var tail := LastOf(entries, cap);
            && |tail| <= |entries| && tail == entries[|entries| - |tail|..]
            && (cap > 0 ==> |tail| == if cap < |entries| then cap else |entries|)
  {
  }

  /** `select_new_entries`: the backward loop. */
  method SelectNewEntries(entries: seq<Entry>, recorded: set<nat>, freshCap: int := FRESH_LOG_CAP)
      returns (unseen: seq<Entry>)
    ensures unseen == Select(entries, recorded, freshCap)
  {
    var index := |entries| - 1;
    assert entries[..|entries|] == entries;
    while index >= 0
      invariant -1 <= index < |entries|
      invariant NewestRecorded(entries, recorded) == NewestRecorded(entries[..index + 1], recorded)
    {
      assert entries[..index + 1][..index] == entries[..index];
      if entries[index].pr in recorded {
        return entries[index + 1..];
      }
      index := index - 1;
    }
    unseen := LastOf(entries, freshCap);
  }

  // ---------- recording ----------

  /** What one boot appends to the log. */
  ghost function New(log: seq<string>, window: seq<Entry>): seq<Entry> {
    Select(window, Recorded(log), FRESH_LOG_CAP)
  }

  ghost function Record(log: seq<string>, window: seq<Entry>): seq<string> {
    log + Rows(New(log, window))
  }

  /** The append-only `changelog` log. */
  class Memory {
    var rows: seq<string>

    constructor ()
      ensures rows == []
    {
      rows := [];
    }

    method Append(more: seq<string>)
      modifies this
      ensures rows == old(rows) + more
    {
      rows := rows + more;
    }

    /** `recorded_prs`: the loop over every row. */
    method RecordedPrs() returns (recorded: set<nat>)
      ensures recorded == Recorded(rows)
    {
      recorded := {};
      for i := 0 to |rows|
        invariant recorded == Recorded(rows[..i])
      {
        assert rows[..i + 1] == rows[..i] + [rows[i]];
        match RecordedPr(rows[i]) {
          case None =>
          case Some(pr) => recorded := recorded + {pr};
        }
      }
      assert rows[..|rows|] == rows;
    }

    /** `record_new_entries`: what is appended is exactly what is returned to be announced. */
    method RecordNewEntries(window: seq<Entry>) returns (missing: seq<Entry>)
      modifies this
      ensures missing == New(old(rows), window)
      ensures rows == old(rows) + Rows(missing) && rows == Record(old(rows), window)
      ensures |rows| == |old(rows)| + |missing| && rows[..|old(rows)|] == old(rows)
      ensures forall i :: 0 <= i < |missing| ==> Carries(rows[|old(rows)| + i], missing[i])
    {
      forall e ensures Carries(Render(e), e) {
        RenderCarries(e);
      }
      var already := RecordedPrs();
      missing := SelectNewEntries(window, already);
      if missing == [] {
        assert rows + Rows(missing) == rows;
        return;
      }
      Append(Rows(missing));
    }
  }

  // ---------- exactly once ----------

  /** Recording the same window again appends nothing. */
  lemma RecordTwice(log: seq<string>, window: seq<Entry>)
    ensures New(Record(log, window), window) == []
    ensures Record(Record(log, window), window) == Record(log, window)
  {
    var unseen := New(log, window);
    SelectExactly(window, Recorded(log), FRESH_LOG_CAP);
    RecordedAppend(log, unseen);
    if window != [] {
      var last := window[|window| - 1];
      if unseen != [] {
        assert unseen[|unseen| - 1] == last && last in unseen;
      } else {
        assert last.pr in Recorded(log);
      }
      assert NewestRecorded(window, Recorded(Record(log, window))) == |window| - 1;
    }
    assert New(Record(log, window), window) == [];
    assert Rows([]) == [];
  }

  /** What a series of boots appends, whatever windows they bring. */
  ghost function RecordAll(log: seq<string>, windows: seq<seq<Entry>>): seq<Entry> {
    if windows == [] then []
    else
      var front := RecordAll(log, windows[..|windows| - 1]);
      front + New(log + Rows(front), windows[|windows| - 1])
  }

  lemma RowsConcat(a: seq<Entry>, b: seq<Entry>)
    ensures Rows(a + b) == Rows(a) + Rows(b)
  {
  }

  lemma DistinctConcat(a: seq<Entry>, b: seq<Entry>)
    requires Distinct(a) && Distinct(b) && PrSet(a) !! PrSet(b)
    ensures Distinct(a + b) && PrSet(a + b) == PrSet(a) + PrSet(b)
  {
    forall i, j | 0 <= i < j < |a + b| ensures (a + b)[i].pr != (a + b)[j].pr {
      if i < |a| <= j {
        assert (a + b)[i] in a && (a + b)[j] in b;
        assert (a + b)[i].pr in PrSet(a) && (a + b)[j].pr in PrSet(b);
      }
    }
  }

  lemma NewIsUnseen(log: seq<string>, window: seq<Entry>)
    requires Distinct(window)
    ensures Distinct(New(log, window)) && PrSet(New(log, window)) !! Recorded(log)
  {
    SelectDistinct(window, Recorded(log));
  }

  lemma SelectDistinct(window: seq<Entry>, recorded: set<nat>)
    requires Distinct(window)
    ensures var unseen := Select(window, recorded, FRESH_LOG_CAP);
            Distinct(unseen) && PrSet(unseen) !! recorded
  {
    SelectExactly(window, recorded, FRESH_LOG_CAP);
    TailDistinct(window, |window| - |Select(window, recorded, FRESH_LOG_CAP)|);
  }

  lemma TailDistinct(window: seq<Entry>, skip: nat)
    requires Distinct(window) && skip <= |window|
    ensures Distinct(window[skip..])
  {
    assert forall k :: 0 <= k < |window| - skip ==> window[skip..][k] == window[skip + k];
  }

  /** However windows overlap, repeat or roll back, no number is ever recorded twice, nor
      one that the log had before. */
  lemma {:induction false} NeverTwice(log: seq<string>, windows: seq<seq<Entry>>)
    requires forall w :: w in windows ==> Distinct(w)
    ensures Distinct(RecordAll(log, windows))
    ensures PrSet(RecordAll(log, windows)) !! Recorded(log)
  {
    if windows != [] {
      var n := |windows| - 1;
      var front, window := RecordAll(log, windows[..n]), windows[n];
      NeverTwice(log, windows[..n]);
      assert window in windows;
      RecordedAppend(log, front);
      NewIsUnseen(log + Rows(front), window);
      DistinctConcat(front, New(log + Rows(front), window));
    }
  }

  // ---------- lossless ----------

  /** One boot sees the part of the history from `lo` up to its head `hi`, which is nothing
      at all when its dump was never made. */
  datatype Boot = Boot(lo: nat, hi: nat)

  predicate Sees(b: Boot) {
    b.lo < b.hi
  }

  /** The boots that see something. */
  function Seeing(boots: seq<Boot>): seq<Boot> {
    if boots == [] then []
    else
      var n := |boots| - 1;
      Seeing(boots[..n]) + if Sees(boots[n]) then [boots[n]] else []
  }

  ghost predicate WindowsIn(history: seq<Entry>, boots: seq<Boot>) {
    forall i :: 0 <= i < |boots| ==> boots[i].lo <= boots[i].hi <= |history|
  }

  /** The heads of the boots that see something advance. */
  ghost predicate BootsOf(history: seq<Entry>, boots: seq<Boot>) {
    && WindowsIn(history, boots)
    && (forall i, j :: 0 <= i < j < |boots| && Sees(boots[i]) && Sees(boots[j]) ==> boots[i].hi <= boots[j].hi)
  }

  ghost predicate AllSee(history: seq<Entry>, boots: seq<Boot>) {
    && (forall i :: 0 <= i < |boots| ==> boots[i].lo < boots[i].hi <= |history|)
    && (forall i, j :: 0 <= i < j < |boots| ==> boots[i].hi <= boots[j].hi)
  }

  ghost function Windows(history: seq<Entry>, boots: seq<Boot>): seq<seq<Entry>>
    requires WindowsIn(history, boots)
  {
    seq(|boots|, i requires 0 <= i < |boots| => history[boots[i].lo..boots[i].hi])
  }

  ghost function Announced(history: seq<Entry>, boots: seq<Boot>): seq<Entry>
    requires WindowsIn(history, boots)
  {
    RecordAll([], Windows(history, boots))
  }

  lemma {:induction false} SeeingMembers(boots: seq<Boot>)
    ensures forall b :: b in Seeing(boots) ==> b in boots && Sees(b)
  {
    if boots != [] {
      SeeingMembers(boots[..|boots| - 1]);
    }
  }

  lemma {:induction false} SeeingBoots(history: seq<Entry>, boots: seq<Boot>)
    requires BootsOf(history, boots)
    ensures AllSee(history, Seeing(boots))
  {
    if boots != [] {
      var n := |boots| - 1;
      var front, b := Seeing(boots[..n]), boots[n];
      BootsFront(history, boots);
      SeeingBoots(history, boots[..n]);
      SeeingMembers(boots[..n]);
      if Sees(b) {
        forall k | 0 <= k < |front| ensures front[k].hi <= b.hi {
          assert front[k] in boots[..n];
        }
      }
    }
  }

  lemma BootsFront(history: seq<Entry>, boots: seq<Boot>)
    requires BootsOf(history, boots) && boots != []
    ensures BootsOf(history, boots[..|boots| - 1]) && boots[|boots| - 1].lo <= boots[|boots| - 1].hi <= |history|
    ensures Windows(history, boots)[..|boots| - 1] == Windows(history, boots[..|boots| - 1])
    ensures forall b :: b in boots[..|boots| - 1] && Sees(b) && Sees(boots[|boots| - 1]) ==>
                          b.hi <= boots[|boots| - 1].hi
  {
  }

  /** A boot that sees nothing records and announces nothing, so that the others go on as
      if it had not been. */
  lemma {:induction false} EmptyBootsAddNothing(history: seq<Entry>, boots: seq<Boot>)
    requires BootsOf(history, boots)
    ensures AllSee(history, Seeing(boots))
    ensures Announced(history, boots) == Announced(history, Seeing(boots))
  {
    SeeingBoots(history, boots);
    if boots != [] {
      var n := |boots| - 1;
      BootsFront(history, boots);
      SeeingBoots(history, boots[..n]);
      EmptyBootsAddNothing(history, boots[..n]);
      OneMoreBoot(history, boots, Seeing(boots[..n]));
    }
  }

  lemma AnnouncedSnoc(history: seq<Entry>, boots: seq<Boot>)
    requires WindowsIn(history, boots) && boots != [] && WindowsIn(history, boots[..|boots| - 1])
    ensures var b := boots[|boots| - 1];
            var front := Announced(history, boots[..|boots| - 1]);
            Announced(history, boots) == front + New([] + Rows(front), history[b.lo..b.hi])
  {
    var n := |boots| - 1;
    assert Windows(history, boots)[..n] == Windows(history, boots[..n]);
  }

  /** Two runs of boots that announced the same announce the same after one more boot. */
  lemma OneMoreBoot(history: seq<Entry>, boots: seq<Boot>, seeing: seq<Boot>)
    requires WindowsIn(history, boots) && WindowsIn(history, seeing) && boots != []
    requires WindowsIn(history, boots[..|boots| - 1])
    requires Announced(history, boots[..|boots| - 1]) == Announced(history, seeing)
    requires WindowsIn(history, seeing + [boots[|boots| - 1]])
    ensures Announced(history, boots)
         == Announced(history, seeing + if Sees(boots[|boots| - 1]) then [boots[|boots| - 1]] else [])
  {
    var n := |boots| - 1;
    var b, more := boots[n], seeing + [boots[n]];
    AnnouncedSnoc(history, boots);
    AnnouncedSnoc(history, more);
    assert more[..|seeing|] == seeing && seeing + [] == seeing;
    if !Sees(b) {
      assert history[b.lo..b.hi] == [];
    }
  }

  /** Where in the history a boot starts to record: right after the last head when its
      window still has the last recorded entry, else at most `FRESH_LOG_CAP` before its
      own head. */
  function StartOf(boots: seq<Boot>, k: nat): nat
    requires k < |boots| && boots[k].lo < boots[k].hi
  {
    if k > 0 && boots[k].lo < boots[k - 1].hi then boots[k - 1].hi
    else if boots[k].hi - boots[k].lo > FRESH_LOG_CAP then boots[k].hi - FRESH_LOG_CAP
    else boots[k].lo
  }

  function Segments(history: seq<Entry>, boots: seq<Boot>): seq<Entry>
    requires AllSee(history, boots)
  {
    if boots == [] then []
    else
      var n := |boots| - 1;
      assert n > 0 ==> boots[n - 1].hi <= boots[n].hi;
      assert StartOf(boots, n) <= boots[n].hi;
      Segments(history, boots[..n]) + history[StartOf(boots, n)..boots[n].hi]
  }

  lemma WindowsFront(history: seq<Entry>, boots: seq<Boot>)
    requires AllSee(history, boots) && boots != []
    ensures var n := |boots| - 1;
            AllSee(history, boots[..n]) && Windows(history, boots)[..n] == Windows(history, boots[..n])
  {
  }

  /** Every announced entry is older than the last head. */
  lemma {:induction false} SegmentsBelow(history: seq<Entry>, boots: seq<Boot>)
    requires AllSee(history, boots) && boots != []
    ensures Segments(history, boots) != [] && Segments(history, boots)[|Segments(history, boots)| - 1]
            == history[boots[|boots| - 1].hi - 1]
    ensures forall e :: e in Segments(history, boots) ==> e in history[..boots[|boots| - 1].hi]
  {
    var n := |boots| - 1;
    var front := boots[..n];
    if n > 0 {
      WindowsFront(history, boots);
      SegmentsBelow(history, front);
      assert boots[n - 1].hi <= boots[n].hi;
    } else {
      assert Segments(history, front) == [];
    }
    SliceBelow(history, Segments(history, front), if n > 0 then boots[n - 1].hi else 0, StartOf(boots, n), boots[n].hi);
  }

  /** Older entries and the slice after them, up to a head. */
  lemma SliceBelow(history: seq<Entry>, older: seq<Entry>, last: nat, start: nat, hi: nat)
    requires last <= hi <= |history| && start <= hi && hi > 0
    requires forall e :: e in older ==> e in history[..last]
    requires start == hi ==> last == hi && older != [] && older[|older| - 1] == history[hi - 1]
    ensures var all := older + history[start..hi];
            all != [] && all[|all| - 1] == history[hi - 1] && forall e :: e in all ==> e in history[..hi]
  {
    assert forall k :: 0 <= k < last ==> history[..last][k] == history[..hi][k];
    assert forall k :: 0 <= k < hi - start ==> history[start..hi][k] == history[..hi][start + k];
    if start == hi {
      assert older + history[start..hi] == older;
    }
  }

  lemma PrIndex(history: seq<Entry>, i: nat, upto: nat)
    requires Distinct(history) && i < |history| && upto <= |history|
    ensures history[i].pr in PrSet(history[..upto]) <==> i < upto
  {
  }

  /** What one boot adds when everything recorded is older than the last head and the
      last recorded entry is the last head's. */
  lemma BootAdds(history: seq<Entry>, boots: seq<Boot>, recorded: set<nat>)
    requires Distinct(history) && AllSee(history, boots) && boots != []
    requires var n := |boots| - 1;
             if n == 0 then recorded == {}
             else recorded <= PrSet(history[..boots[n - 1].hi]) && history[boots[n - 1].hi - 1].pr in recorded
    ensures var b := boots[|boots| - 1];
            Select(history[b.lo..b.hi], recorded, FRESH_LOG_CAP) == history[StartOf(boots, |boots| - 1)..b.hi]
  {
    var n := |boots| - 1;
    var b := boots[n];
    var window := history[b.lo..b.hi];
    var i := NewestRecorded(window, recorded);
    if n > 0 {
      var last := boots[n - 1].hi;
      assert last <= b.hi;
      if i >= 0 {
        PrIndex(history, b.lo + i, last);
      }
      if b.lo < last {
        assert window[last - 1 - b.lo] == history[last - 1];
      }
    }
    SelectFrom(history, b.lo, b.hi, StartOf(boots, n), recorded);
  }

  /** A selection that starts at a known place of the window. */
  lemma SelectFrom(history: seq<Entry>, lo: nat, hi: nat, start: nat, recorded: set<nat>)
    requires lo < hi <= |history|
    requires var i := NewestRecorded(history[lo..hi], recorded);
             start == if i >= 0 then lo + i + 1 else if hi - lo > FRESH_LOG_CAP then hi - FRESH_LOG_CAP else lo
    ensures Select(history[lo..hi], recorded, FRESH_LOG_CAP) == history[start..hi]
  {
    assert history[lo..hi][start - lo..] == history[start..hi];
  }

  lemma AnnouncedStep(history: seq<Entry>, boots: seq<Boot>)
    requires AllSee(history, boots) && boots != []
    ensures var n := |boots| - 1;
            && AllSee(history, boots[..n])
            && Announced(history, boots) == Announced(history, boots[..n])
                + Select(history[boots[n].lo..boots[n].hi], PrSet(Announced(history, boots[..n])), FRESH_LOG_CAP)
  {
    var n := |boots| - 1;
    WindowsFront(history, boots);
    var front := Announced(history, boots[..n]);
    RecordedAppend([], front);
    assert Recorded([]) == {};
    assert Recorded([] + Rows(front)) == PrSet(front);
  }

  /** What the boots so far recorded: nothing past their last head, and that head's entry. */
  lemma RecordedSoFar(history: seq<Entry>, boots: seq<Boot>)
    requires AllSee(history, boots) && boots != []
    ensures var last := boots[|boots| - 1].hi;
            && PrSet(Segments(history, boots)) <= PrSet(history[..last])
            && history[last - 1].pr in PrSet(Segments(history, boots))
  {
    var all := Segments(history, boots);
    SegmentsBelow(history, boots);
    assert all[|all| - 1] in all;
  }

  lemma {:induction false} AnnouncedBySeeing(history: seq<Entry>, boots: seq<Boot>)
    requires Distinct(history) && AllSee(history, boots)
    ensures Announced(history, boots) == Segments(history, boots)
  {
    if boots != [] {
      var n := |boots| - 1;
      AnnouncedStep(history, boots);
      AnnouncedBySeeing(history, boots[..n]);
      BootAddsNext(history, boots);
    }
  }

  /** Over any run of boots with advancing heads, what is announced is exactly, boot by
      boot, the history from where the boot starts to record up to its head. */
  lemma AnnouncedExactly(history: seq<Entry>, boots: seq<Boot>)
    requires Distinct(history) && BootsOf(history, boots)
    ensures AllSee(history, Seeing(boots)) && Announced(history, boots) == Segments(history, Seeing(boots))
  {
    EmptyBootsAddNothing(history, boots);
    AnnouncedBySeeing(history, Seeing(boots));
  }

  lemma BootAddsNext(history: seq<Entry>, boots: seq<Boot>)
    requires Distinct(history) && AllSee(history, boots) && boots != []
    ensures var n := |boots| - 1;
            Select(history[boots[n].lo..boots[n].hi], PrSet(Segments(history, boots[..n])), FRESH_LOG_CAP)
            == history[StartOf(boots, n)..boots[n].hi]
  {
    var n := |boots| - 1;
    if n > 0 {
      RecordedSoFar(history, boots[..n]);
    } else {
      assert Segments(history, boots[..n]) == [];
    }
    BootAdds(history, boots, PrSet(Segments(history, boots[..n])));
  }

  /** No window has lost the last entry that the boot before it recorded. */
  ghost predicate Overlapping(boots: seq<Boot>) {
    forall i :: 0 < i < |boots| ==> boots[i].lo < boots[i - 1].hi
  }

  /** Then nothing is lost: the announcements together are the unbroken history from at
      most `FRESH_LOG_CAP` entries before the first head up to the current head. */
  lemma Lossless(history: seq<Entry>, boots: seq<Boot>)
    requires Distinct(history) && BootsOf(history, boots) && Seeing(boots) != [] && Overlapping(Seeing(boots))
    ensures AllSee(history, Seeing(boots))
    ensures var seeing := Seeing(boots);
            && StartOf(seeing, 0) <= seeing[|seeing| - 1].hi
            && Announced(history, boots) == history[StartOf(seeing, 0)..seeing[|seeing| - 1].hi]
            && seeing[0].hi - StartOf(seeing, 0) <= 10
  {
    AnnouncedExactly(history, boots);
    SegmentsJoin(history, Seeing(boots));
  }

  lemma {:induction false} SegmentsJoin(history: seq<Entry>, boots: seq<Boot>)
    requires AllSee(history, boots) && boots != [] && Overlapping(boots)
    ensures StartOf(boots, 0) <= boots[0].hi <= boots[|boots| - 1].hi
    ensures Segments(history, boots) == history[StartOf(boots, 0)..boots[|boots| - 1].hi]
  {
    hide Windows;
    var n := |boots| - 1;
    WindowsFront(history, boots);
    if n == 0 {
      assert Segments(history, boots[..0]) == [];
    } else {
      OverlapFront(history, boots);
      hide AllSee, Overlapping, StartOf;
      SegmentsJoin(history, boots[..n]);
      SlicesJoin(history, StartOf(boots, 0), boots[n - 1].hi, boots[n].hi);
    }
  }

  /** A boot whose window still has the last head starts right after it. */
  lemma OverlapFront(history: seq<Entry>, boots: seq<Boot>)
    requires AllSee(history, boots) && |boots| > 1 && Overlapping(boots)
    ensures var n := |boots| - 1;
            && Overlapping(boots[..n]) && StartOf(boots[..n], 0) == StartOf(boots, 0)
            && StartOf(boots, n) == boots[n - 1].hi <= boots[n].hi <= |history|
  {
    var n := |boots| - 1;
    assert boots[n].lo < boots[n - 1].hi <= boots[n].hi;
  }

  lemma SlicesJoin(history: seq<Entry>, a: nat, b: nat, c: nat)
    requires a <= b <= c <= |history|
    ensures history[a..b] + history[b..c] == history[a..c]
  {
  }

  /** Whatever the gaps, the announcements are in the history's order, each entry once. */
  ghost predicate InOrder(history: seq<Entry>, entries: seq<Entry>, at: seq<nat>) {
    && |at| == |entries|
    && (forall i :: 0 <= i < |at| ==> at[i] < |history| && history[at[i]] == entries[i])
    && (forall i, j :: 0 <= i < j < |at| ==> at[i] < at[j])
  }

  lemma AnnouncedInOrder(history: seq<Entry>, boots: seq<Boot>)
    requires Distinct(history) && BootsOf(history, boots) && Seeing(boots) != []
    ensures exists at ::
              && InOrder(history, Announced(history, boots), at) && at != []
              && at[|at| - 1] == Seeing(boots)[|Seeing(boots)| - 1].hi - 1
  {
    AnnouncedExactly(history, boots);
    var at := SegmentsInOrder(history, Seeing(boots));
  }

  lemma {:induction false} SegmentsInOrder(history: seq<Entry>, boots: seq<Boot>) returns (at: seq<nat>)
    requires AllSee(history, boots) && boots != []
    ensures InOrder(history, Segments(history, boots), at)
    ensures at != [] && at[|at| - 1] == boots[|boots| - 1].hi - 1
  {
    var n := |boots| - 1;
    var front := [];
    WindowsFront(history, boots);
    if n > 0 {
      front := SegmentsInOrder(history, boots[..n]);
      assert boots[n - 1].hi <= boots[n].hi;
    } else {
      assert Segments(history, boots[..n]) == [];
    }
    at := SegmentFollows(history, Segments(history, boots[..n]), front, StartOf(boots, n), boots[n].hi);
  }

  lemma SegmentFollows(history: seq<Entry>, entries: seq<Entry>, front: seq<nat>, start: nat, hi: nat)
      returns (at: seq<nat>)
    requires InOrder(history, entries, front) && start <= hi <= |history|
    requires front == [] ==> start < hi
    requires front != [] ==> front[|front| - 1] < start && (start == hi ==> front[|front| - 1] == hi - 1)
    ensures InOrder(history, entries + history[start..hi], at) && at != [] && at[|at| - 1] == hi - 1
  {
    at := front + seq(hi - start, i => start + i);
  }

  /** Nothing is announced that is not recorded, and nothing recorded that is not: the rows of
      the log are, in order, those of the entries announced, with number and text. */
  lemma {:induction false} AnnouncedIsRecorded(history: seq<Entry>, boots: seq<Boot>)
    requires WindowsIn(history, boots)
    ensures LogAfter(history, boots) == Rows(Announced(history, boots))
    ensures |LogAfter(history, boots)| == |Announced(history, boots)|
    ensures forall i :: 0 <= i < |LogAfter(history, boots)| ==>
                          Carries(LogAfter(history, boots)[i], Announced(history, boots)[i])
  {
    forall e ensures Carries(Render(e), e) {
      RenderCarries(e);
    }
    if boots != [] {
      var n := |boots| - 1;
      assert Windows(history, boots)[..n] == Windows(history, boots[..n]);
      AnnouncedIsRecorded(history, boots[..n]);
      var front := Announced(history, boots[..n]);
      assert [] + Rows(front) == Rows(front);
      RowsConcat(front, New(Rows(front), Windows(history, boots)[n]));
    }
  }

  /** The log itself after these boots, each recording into what the ones before left. */
  ghost function LogAfter(history: seq<Entry>, boots: seq<Boot>): seq<string>
    requires WindowsIn(history, boots)
  {
    if boots == [] then []
    else
      var n := |boots| - 1;
      Record(LogAfter(history, boots[..n]), history[boots[n].lo..boots[n].hi])
  }

  /** When nothing of the window is recorded the cap bounds the selection exactly if it is
      positive, or zero on an empty window: `entries[-0:]` is everything, and a negative
      cap drops that many of the oldest. */
  lemma CapBoundsExactly(entries: seq<Entry>, recorded: set<nat>, cap: int)
    requires forall e :: e in entries ==> e.pr !in recorded
    ensures |Select(entries, recorded, cap)| <= cap <==> cap > 0 || (cap == 0 && entries == [])
    ensures cap == 0 ==> Select(entries, recorded, cap) == entries
    ensures cap < 0 ==> |Select(entries, recorded, cap)| == if |entries| + cap > 0 then |entries| + cap else 0
  {
    assert forall i :: 0 <= i < |entries| ==> entries[i] in entries;
  }
}
