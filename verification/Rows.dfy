/** The promptlog rows and top-level runs that the Prompts tab shows
    (`PromptLogEntry` and `PromptLogRun` of browser/src/protocol.ts), reduced to
    what nesting, bookkeeping and ordering read.  Times are integers. */
module Rows {
  import opened Options
  import opened Filters

  datatype RunId = RunId(text: string)
  datatype CallId = CallId(text: string)

  /** One logged model call.  `parent` is null on a run's own prompt and names
      another run on a draw; `anchor` is the tool call the draw was made for;
      `dispatched` lists the ids of the response's tool calls as they were read;
      `discard` is the one field that a later copy of the row may change. */
  datatype Row = Row(
    id: int, runId: RunId, parent: Option<RunId>, anchor: Option<CallId>, dispatched: seq<CallId>,
    endedAt: int, duration: int, inTokens: int, outTokens: int, discard: Option<string>)

  /** A top-level run: its own prompts and the flat list of every draw below it. */
  datatype RunView = RunView(
    runId: RunId, promptCount: nat, startedAt: int, endedAt: int, totalDuration: int, wallDuration: int,
    inTokens: int, outTokens: int, outcome: Option<string>, reason: Option<string>,
    prompts: seq<Row>, draws: seq<Row>)

  /** What every copy of one logged row has in common. */
  function Core(row: Row): Row {
    row.(discard := None)
  }

  function StartedAt(row: Row): int {
    row.endedAt - row.duration
  }

  /** The row's response dispatched the tool call, under an id that can be read. */
  predicate Made(row: Row, c: CallId) {
    c.text != "" && c in row.dispatched
  }

  function NonEmptyIds(ids: seq<CallId>): (kept: seq<CallId>)
    ensures forall c :: c in kept <==> c.text != "" && c in ids
  {
    if ids == [] then []
    else
      assert ids == [ids[0]] + ids[1..];
      (if ids[0].text != "" then [ids[0]] else []) + NonEmptyIds(ids[1..])
  }

  /** The readable tool-call ids that a row's response dispatched. */
  function ToolCallIds(row: Row): (ids: seq<CallId>)
    ensures forall c :: c in ids <==> Made(row, c)
  {
    NonEmptyIds(row.dispatched)
  }

  /** They are all of them, in their order and as often as they were dispatched. */
  lemma ToolCallIdsAreAll(row: Row)
    ensures ToolCallIds(row) == Filtered((c: CallId) => c.text != "", row.dispatched)
  {
    NonEmptyIdsAre(row.dispatched);
  }

  lemma {:induction false} NonEmptyIdsAre(ids: seq<CallId>)
    ensures NonEmptyIds(ids) == Filtered((c: CallId) => c.text != "", ids)
  {
    if ids != [] {
      var keep := (c: CallId) => c.text != "";
      FilteredCons(keep, ids[0], ids[1..]);
      assert ids == [ids[0]] + ids[1..];
      NonEmptyIdsAre(ids[1..]);
    }
  }

  function AllRows(run: RunView): seq<Row> {
    run.prompts + run.draws
  }

  ghost function Cores(rows: seq<Row>): set<Row> {
    set row | row in rows :: Core(row)
  }

  ghost predicate DistinctIds(rows: seq<Row>) {
    forall i, j :: 0 <= i < j < |rows| ==> rows[i].id != rows[j].id
  }

  ghost predicate HasRow(rows: set<Row>, x: RunId) {
    exists row :: row in rows && row.runId == x
  }

  /** Some row of run `x` dispatched the tool call `c`. */
  ghost predicate Dispatched(rows: set<Row>, x: RunId, c: CallId) {
    exists row :: row in rows && row.runId == x && Made(row, c)
  }

  /** What the server guarantees about the rows it sends: the rows of one run agree
      on who its parent is, and every copy of one row id has the same core. */
  datatype World = World(parentOf: RunId -> Option<RunId>, logged: int -> Row)

  ghost predicate Follows(w: World, row: Row) {
    row.parent == w.parentOf(row.runId) && Core(row) == w.logged(row.id)
  }

  /** `n` steps up the parent chain of `x` lead to `h`. */
  ghost predicate Climbs(w: World, x: RunId, h: RunId, n: nat)
    decreases n
  {
    if n == 0 then x == h
    else w.parentOf(x).Some? && Climbs(w, w.parentOf(x).value, h, n - 1)
  }

  /** The parent chain of `x` reaches the run `h`. */
  ghost predicate Under(w: World, x: RunId, h: RunId) {
    exists n: nat :: Climbs(w, x, h, n)
  }

  /** A run without a parent is the only such run that any chain can reach. */
  lemma {:induction false} OneRoot(w: World, x: RunId, h: RunId, m: nat, g: RunId, n: nat)
    requires Climbs(w, x, h, m) && Climbs(w, x, g, n)
    requires w.parentOf(h) == None && w.parentOf(g) == None
    ensures h == g && m == n
    decreases m
  {
    if m > 0 && n > 0 {
      OneRoot(w, w.parentOf(x).value, h, m - 1, g, n - 1);
    }
  }

  lemma OneHost(w: World, x: RunId, h: RunId, g: RunId)
    requires Under(w, x, h) && Under(w, x, g)
    requires w.parentOf(h) == None && w.parentOf(g) == None
    ensures h == g
  {
    var m: nat :| Climbs(w, x, h, m);
    var n: nat :| Climbs(w, x, g, n);
    OneRoot(w, x, h, m, g, n);
  }

  lemma UnderStep(w: World, x: RunId, h: RunId)
    requires w.parentOf(x).Some? && Under(w, w.parentOf(x).value, h)
    ensures Under(w, x, h)
  {
    var n: nat :| Climbs(w, w.parentOf(x).value, h, n);
    assert Climbs(w, x, h, n + 1);
  }

  lemma UnderSelf(w: World, h: RunId)
    ensures Under(w, h, h)
  {
    assert Climbs(w, h, h, 0);
  }

  lemma UnderParent(w: World, x: RunId, h: RunId)
    requires w.parentOf(x).Some? && Under(w, x, h) && w.parentOf(h) == None
    ensures Under(w, w.parentOf(x).value, h)
  {
    var n: nat :| Climbs(w, x, h, n);
    assert n > 0;
    assert Climbs(w, w.parentOf(x).value, h, n - 1);
  }
}
