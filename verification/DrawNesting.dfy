/** The list helpers of browser/src/page/draw_nesting.ts. */
module DrawNesting {
  import opened Options
  import opened Rows

  // ---------- which step a draw anchors to ----------

  /** The loop of `attachmentIndex`: the first row that dispatched the anchor. */
  method AttachmentIndex(rows: seq<Row>, anchor: Option<CallId>) returns (index: Option<nat>)
    ensures index.Some? <==> anchor.Some? && exists k :: 0 <= k < |rows| && Made(rows[k], anchor.value)
    ensures index.Some? ==>
              && index.value < |rows|
              && Made(rows[index.value], anchor.value)
              && forall k :: 0 <= k < index.value ==> !Made(rows[k], anchor.value)
  {
    if anchor == None {
      return None;
    }
    for i := 0 to |rows|
      invariant forall k :: 0 <= k < i ==> !Made(rows[k], anchor.value)
    {
      if anchor.value in ToolCallIds(rows[i]) {
        return Some(i);
      }
    }
    return None;
  }

  predicate AnyDispatches(rows: seq<Row>, c: CallId) {
    exists k :: 0 <= k < |rows| && Made(rows[k], c)
  }

  lemma Regroup<T>(a: seq<T>, b: seq<T>, c: seq<T>)
    ensures (a + b) + c == a + (b + c)
  {
  }

  // ---------- replacing or appending a row by id ----------

  /** The position of the first row with this id, or -1. */
  function FindId(rows: seq<Row>, id: int): (i: int)
    ensures -1 <= i < |rows|
    ensures i >= 0 ==> rows[i].id == id && forall k :: 0 <= k < i ==> rows[k].id != id
    ensures i == -1 ==> forall k :: 0 <= k < |rows| ==> rows[k].id != id
  {
    if rows == [] then -1
    else if rows[0].id == id then 0
    else
      var i := FindId(rows[1..], id);
      assert forall k :: 1 <= k < |rows| ==> rows[k] == rows[1..][k - 1];
      if i == -1 then -1 else i + 1
  }

  function Upsert(rows: seq<Row>, entry: Row): seq<Row> {
    var i := FindId(rows, entry.id);
    if i == -1 then rows + [entry] else rows[i := entry]
  }

  /** A revision takes the place of the copy it revises; a new row is appended. */
  lemma UpsertRows(w: World, rows: seq<Row>, entry: Row)
    requires Follows(w, entry) && forall row :: row in rows ==> Follows(w, row)
    requires DistinctIds(rows)
    ensures DistinctIds(Upsert(rows, entry))
    ensures forall row :: row in Upsert(rows, entry) ==> row == entry || row in rows
    ensures entry in Upsert(rows, entry)
    ensures Cores(Upsert(rows, entry)) == Cores(rows) + {Core(entry)}
    ensures forall row :: row in rows && row.id != entry.id ==> row in Upsert(rows, entry)
    ensures var after := Upsert(rows, entry);
            && (forall k :: 0 <= k < |rows| ==>
                  k < |after| && after[k] == if rows[k].id == entry.id then entry else rows[k])
            && ((exists row :: row in rows && row.id == entry.id) ==> |after| == |rows|)
            && ((forall row :: row in rows ==> row.id != entry.id) ==> |after| == |rows| + 1 && after[|rows|] == entry)
  {
    var i := FindId(rows, entry.id);
    var after := Upsert(rows, entry);
    if i == -1 {
      assert after[|rows|] == entry;
    } else {
      assert after[i] == entry;
      assert rows[i] in rows && Follows(w, rows[i]);
      assert Core(rows[i]) == Core(entry);
    }
    forall row | row in rows ensures Core(row) in Cores(after) && (row.id != entry.id ==> row in after) {
      var k :| 0 <= k < |rows| && rows[k] == row;
      if k == i {
        assert Core(after[i]) == Core(row);
      } else {
        assert after[k] == row;
      }
    }
  }

  // ---------- dropping later copies ----------

  /** The loop of `dedupeDraws`: the first copy of every id, in order. */
  function Dedupe(draws: seq<Row>): seq<Row> {
    if draws == [] then []
    else
      var kept := Dedupe(draws[..|draws| - 1]);
      var last := draws[|draws| - 1];
      if FindId(draws[..|draws| - 1], last.id) == -1 then kept + [last] else kept
  }

  ghost function IdSet(rows: seq<Row>): set<int> {
    if rows == [] then {} else IdSet(rows[..|rows| - 1]) + {rows[|rows| - 1].id}
  }

  lemma {:induction false} InIdSet(rows: seq<Row>, id: int)
    ensures id in IdSet(rows) <==> FindId(rows, id) != -1
  {
    if rows != [] {
      InIdSet(rows[..|rows| - 1], id);
      FindIdAppend(rows[..|rows| - 1], rows[|rows| - 1], id);
      assert rows[..|rows| - 1] + [rows[|rows| - 1]] == rows;
    }
  }

  method DedupeDraws(draws: seq<Row>) returns (out: seq<Row>)
    ensures out == Dedupe(draws)
  {
    var seen: set<int> := {};
    out := [];
    for i := 0 to |draws|
      invariant seen == IdSet(draws[..i])
      invariant out == Dedupe(draws[..i])
    {
      assert draws[..i + 1][..i] == draws[..i] && draws[..i + 1][i] == draws[i];
      InIdSet(draws[..i], draws[i].id);
      if draws[i].id !in seen {
        seen := seen + {draws[i].id};
        out := out + [draws[i]];
      }
    }
    assert draws[..|draws|] == draws;
  }

  ghost predicate IsFirstCopy(draws: seq<Row>, row: Row) {
    var i := FindId(draws, row.id);
    i != -1 && draws[i] == row
  }

  /** Deduplicating keeps every id once and, of its copies, the first one. */
  lemma {:induction false} DedupeKeepsFirst(draws: seq<Row>)
    ensures DistinctIds(Dedupe(draws))
    ensures forall row :: row in Dedupe(draws) <==> IsFirstCopy(draws, row)
  {
    if draws != [] {
      var n := |draws| - 1;
      var front, last := draws[..n], draws[n];
      DedupeKeepsFirst(front);
      forall row ensures row in Dedupe(draws) <==> IsFirstCopy(draws, row) {
        FindIdAppend(front, last, row.id);
        assert front + [last] == draws;
      }
      if FindId(front, last.id) == -1 {
        forall i | 0 <= i < |Dedupe(front)| ensures Dedupe(front)[i].id != last.id {
          assert Dedupe(front)[i] in Dedupe(front);
          assert IsFirstCopy(front, Dedupe(front)[i]);
        }
      }
    }
  }

  /** What is kept stays in its order. */
  lemma {:induction false} DedupeOrder(draws: seq<Row>) returns (at: seq<nat>)
    ensures |at| == |Dedupe(draws)| && forall k :: 0 <= k < |at| ==> at[k] < |draws| && Dedupe(draws)[k] == draws[at[k]]
    ensures forall i, k :: 0 <= i < k < |at| ==> at[i] < at[k]
  {
    at := [];
    if draws != [] {
      var n := |draws| - 1;
      at := DedupeOrder(draws[..n]);
      if FindId(draws[..n], draws[n].id) == -1 {
        at := at + [n];
      }
    }
  }

  lemma FindIdAppend(front: seq<Row>, last: Row, id: int)
    ensures FindId(front + [last], id)
         == if FindId(front, id) != -1 then FindId(front, id) else if last.id == id then |front| else -1
  {
    var all := front + [last];
    var i := FindId(all, id);
    assert forall k :: 0 <= k < |front| ==> all[k] == front[k];
    assert all[|front|] == last;
  }

  // ---------- the timing window ----------

  function MinStart(rows: seq<Row>): (m: int)
    requires rows != []
    ensures exists row :: row in rows && row.endedAt - row.duration == m
    ensures forall row :: row in rows ==> m <= row.endedAt - row.duration
  {
    var s := StartedAt(rows[0]);
    assert rows[0] in rows;
    if |rows| == 1 then s
    else
      var m := MinStart(rows[1..]);
      assert forall row :: row in rows <==> row == rows[0] || row in rows[1..];
      if s < m then s else m
  }

  function MaxEnd(rows: seq<Row>): (m: int)
    requires rows != []
    ensures exists row :: row in rows && row.endedAt == m
    ensures forall row :: row in rows ==> row.endedAt <= m
  {
    var e := rows[0].endedAt;
    assert rows[0] in rows;
    if |rows| == 1 then e
    else
      var m := MaxEnd(rows[1..]);
      assert forall row :: row in rows <==> row == rows[0] || row in rows[1..];
      if e > m then e else m
  }

  function ApplyTiming(run: RunView): RunView
    requires AllRows(run) != []
  {
    var start := MinStart(AllRows(run));
    var end := MaxEnd(AllRows(run));
    run.(startedAt := start, endedAt := end, wallDuration := end - start)
  }

  /** A run's window runs from its earliest start to its latest end; a row ends at its time
      stamp and started as much earlier as it took. */
  ghost predicate WindowExact(run: RunView) {
    && (forall row :: row in AllRows(run) ==>
          run.startedAt <= row.endedAt - row.duration && row.endedAt <= run.endedAt)
    && (exists row :: row in AllRows(run) && row.endedAt - row.duration == run.startedAt)
    && (exists row :: row in AllRows(run) && row.endedAt == run.endedAt)
    && run.wallDuration == run.endedAt - run.startedAt
  }

  // ---------- totals ----------

  function SumDuration(rows: seq<Row>): int {
    if rows == [] then 0 else SumDuration(rows[..|rows| - 1]) + rows[|rows| - 1].duration
  }

  function SumIn(rows: seq<Row>): int {
    if rows == [] then 0 else SumIn(rows[..|rows| - 1]) + rows[|rows| - 1].inTokens
  }

  function SumOut(rows: seq<Row>): int {
    if rows == [] then 0 else SumOut(rows[..|rows| - 1]) + rows[|rows| - 1].outTokens
  }

  lemma {:induction false} SumsOfRevision(rows: seq<Row>, i: nat, entry: Row)
    requires i < |rows| && Core(rows[i]) == Core(entry)
    ensures SumDuration(rows[i := entry]) == SumDuration(rows)
    ensures SumIn(rows[i := entry]) == SumIn(rows)
    ensures SumOut(rows[i := entry]) == SumOut(rows)
  {
    var n := |rows| - 1;
    var after := rows[i := entry];
    assert Core(rows[i]).duration == rows[i].duration && Core(entry).duration == entry.duration;
    assert Core(rows[i]).inTokens == rows[i].inTokens && Core(entry).inTokens == entry.inTokens;
    assert Core(rows[i]).outTokens == rows[i].outTokens && Core(entry).outTokens == entry.outTokens;
    if i < n {
      SumsOfRevision(rows[..n], i, entry);
      assert after[..n] == rows[..n][i := entry];
    } else {
      assert after[..n] == rows[..n];
    }
  }

  // ---------- the order of the list ----------

  /** The position of the first run with this id, or -1. */
  function FindRun(runs: seq<RunView>, id: RunId): (i: int)
    ensures -1 <= i < |runs|
    ensures i >= 0 ==> runs[i].runId == id && forall k :: 0 <= k < i ==> runs[k].runId != id
    ensures i == -1 ==> forall k :: 0 <= k < |runs| ==> runs[k].runId != id
  {
    if runs == [] then -1
    else if runs[0].runId == id then 0
    else
      var i := FindRun(runs[1..], id);
      assert forall k :: 1 <= k < |runs| ==> runs[k] == runs[1..][k - 1];
      if i == -1 then -1 else i + 1
  }

  function MoveToFront(runs: seq<RunView>, id: RunId): seq<RunView> {
    var i := FindRun(runs, id);
    if i <= 0 then runs else [runs[i]] + runs[..i] + runs[i + 1..]
  }
}
