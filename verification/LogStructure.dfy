/** How the runs on screen are built: whose rows they carry, how draws chain up to their
    host, and that a run's totals and window are exact. */
module LogStructure {
  import opened Options
  import opened Rows
  import opened DrawNesting
  import opened RunLog

  ghost function Hosts(runs: seq<RunView>): set<RunId> {
    set run | run in runs :: run.runId
  }

  /** The cores of all rows on screen. */
  ghost function Shown(runs: seq<RunView>): set<Row> {
    set run, row | run in runs && row in Cores(AllRows(run)) :: row
  }

  /** Counts and totals are those of the run's own prompts: no draw and no revision
      adds to them. */
  ghost predicate Totalled(run: RunView) {
    && run.promptCount == |run.prompts|
    && run.totalDuration == SumDuration(run.prompts)
    && run.inTokens == SumIn(run.prompts)
    && run.outTokens == SumOut(run.prompts)
  }

  /** The totals are exact, and once a run has a row its window covers exactly its own
      prompts and its draws. */
  ghost predicate Bookkept(run: RunView) {
    Totalled(run) && (AllRows(run) != [] ==> WindowExact(run))
  }

  /** The parent of every draw is the host itself or another draw of the host. */
  ghost predicate Linked(host: RunId, draws: seq<Row>) {
    forall draw :: draw in draws && draw.parent.Some? && draw.parent.value != host ==>
                     exists other :: other in draws && other.runId == draw.parent.value
  }

  ghost predicate PromptsOk(w: World, host: RunId, prompts: seq<Row>) {
    && (forall row :: row in prompts ==> row.runId == host && Follows(w, row))
    && DistinctIds(prompts)
  }

  /** Every draw's parent chain, which cannot turn in a circle, reaches its own host. */
  ghost predicate DrawsOk(w: World, host: RunId, draws: seq<Row>) {
    && (forall draw :: draw in draws ==> Follows(w, draw) && draw.parent.Some? && Under(w, draw.runId, host))
    && DistinctIds(draws)
  }

  ghost predicate RunOk(w: World, run: RunView) {
    && w.parentOf(run.runId) == None
    && PromptsOk(w, run.runId, run.prompts)
    && DrawsOk(w, run.runId, run.draws)
    && Linked(run.runId, run.draws)
    && Bookkept(run)
  }

  ghost predicate DistinctRuns(runs: seq<RunView>) {
    forall i, j :: 0 <= i < j < |runs| ==> runs[i].runId != runs[j].runId
  }

  ghost predicate Structure(w: World, runs: seq<RunView>) {
    && DistinctRuns(runs)
    && forall run :: run in runs ==> RunOk(w, run)
  }

  // ---------- what a search finds ----------

  lemma FindContainerSome(w: World, runs: seq<RunView>, x: RunId)
    requires Structure(w, runs)
    ensures FindContainer(runs, x).Some? <==> x in Hosts(runs) || HasRow(Shown(runs), x)
  {
    hide FindContainer, Shown, HasRow;
    FindContainerFirst(runs, x, 0);
    forall run | run in runs && NamedIn(run, x) ensures x in Hosts(runs) || HasRow(Shown(runs), x) {
      NamedShows(runs, run, x);
    }
    if HasRow(Shown(runs), x) {
      var _ := ShownNamed(w, runs, x);
    }
  }

  lemma NamedShows(runs: seq<RunView>, run: RunView, x: RunId)
    requires run in runs && NamedIn(run, x)
    ensures x in Hosts(runs) || HasRow(Shown(runs), x)
  {
    if run.runId != x {
      var draw :| draw in run.draws && draw.runId == x;
      assert Core(draw) in Cores(AllRows(run));
      assert Core(draw) in Shown(runs);
    }
  }

  lemma ShownNamed(w: World, runs: seq<RunView>, x: RunId) returns (k: nat)
    requires Structure(w, runs) && HasRow(Shown(runs), x)
    ensures k < |runs| && NamedIn(runs[k], x)
  {
    var row :| row in Shown(runs) && row.runId == x;
    var run :| run in runs && row in Cores(AllRows(run));
    var copy :| copy in AllRows(run) && Core(copy) == row;
    k :| 0 <= k < |runs| && runs[k] == run;
    assert copy in run.prompts || copy in run.draws;
  }

  /** Every row that `x` names is in the container that the search returns, because a
      run id hangs under one host only. */
  lemma ContainerHoldsAll(w: World, runs: seq<RunView>, x: RunId, row: Row, run: RunView)
    requires Structure(w, runs) && FindContainer(runs, x).Some?
    requires run in runs && row in AllRows(run) && row.runId == x
    ensures run == runs[FindContainer(runs, x).value.index]
    ensures row in FindContainer(runs, x).value.rows
  {
    hide Bookkept, Linked;
    var c := FindContainer(runs, x).value;
    var found := runs[c.index];
    assert found in runs;
    UnderSelf(w, run.runId);
    UnderSelf(w, found.runId);
    if found.runId != x {
      assert c.rows[0] in found.draws && c.rows[0].runId == x;
    }
    OneHost(w, x, run.runId, found.runId);
    assert run == found;
  }

  lemma ShownAt(runs: seq<RunView>, run: RunView, row: Row)
    requires run in runs && row in AllRows(run)
    ensures Core(row) in Shown(runs)
  {
    assert Core(row) in Cores(AllRows(run));
  }

  lemma ShownFrom(runs: seq<RunView>, core: Row) returns (run: RunView, row: Row)
    requires core in Shown(runs)
    ensures run in runs && row in AllRows(run) && Core(row) == core
  {
    run :| run in runs && core in Cores(AllRows(run));
    row :| row in AllRows(run) && Core(row) == core;
  }

  lemma ContainerDispatches(w: World, runs: seq<RunView>, x: RunId, c: CallId)
    requires Structure(w, runs) && FindContainer(runs, x).Some?
    ensures AnyDispatches(FindContainer(runs, x).value.rows, c) <==> Dispatched(Shown(runs), x, c)
  {
    if AnyDispatches(FindContainer(runs, x).value.rows, c) {
      ContainerRowShown(w, runs, x, c);
    }
    if Dispatched(Shown(runs), x, c) {
      ShownRowContained(w, runs, x, c);
    }
  }

  lemma ShownRowContained(w: World, runs: seq<RunView>, x: RunId, c: CallId)
    requires Structure(w, runs) && FindContainer(runs, x).Some?
    requires Dispatched(Shown(runs), x, c)
    ensures AnyDispatches(FindContainer(runs, x).value.rows, c)
  {
    hide FindContainer, Structure;
    var found := FindContainer(runs, x).value;
    var core :| core in Shown(runs) && core.runId == x && Made(core, c);
    var host, row := ShownFrom(runs, core);
    assert core.runId == row.runId && core.dispatched == row.dispatched;
    ContainerHoldsAll(w, runs, x, row, host);
    var k :| 0 <= k < |found.rows| && found.rows[k] == row;
    assert Made(found.rows[k], c);
  }

  lemma ContainerRowShown(w: World, runs: seq<RunView>, x: RunId, c: CallId)
    requires Structure(w, runs) && FindContainer(runs, x).Some?
    requires AnyDispatches(FindContainer(runs, x).value.rows, c)
    ensures Dispatched(Shown(runs), x, c)
  {
    var found := FindContainer(runs, x).value;
    var run := runs[found.index];
    assert run in runs;
    var k :| 0 <= k < |found.rows| && Made(found.rows[k], c);
    var row := found.rows[k];
    assert row in found.rows;
    assert row.runId == x && row in AllRows(run);
    ShownAt(runs, run, row);
    assert Core(row).runId == x && Made(Core(row), c);
  }

  // ---------- what changing one run does ----------

  lemma MoveToFrontMembers(runs: seq<RunView>, id: RunId)
    ensures forall run :: run in MoveToFront(runs, id) <==> run in runs
  {
  }

  lemma MoveToFrontDistinct(runs: seq<RunView>, id: RunId)
    requires DistinctRuns(runs)
    ensures DistinctRuns(MoveToFront(runs, id))
  {
  }

  lemma MoveToFrontKeeps(w: World, runs: seq<RunView>, id: RunId)
    requires Structure(w, runs)
    ensures Structure(w, MoveToFront(runs, id))
    ensures Hosts(MoveToFront(runs, id)) == Hosts(runs)
    ensures Shown(MoveToFront(runs, id)) == Shown(runs)
  {
    MoveToFrontMembers(runs, id);
    MoveToFrontDistinct(runs, id);
  }

  lemma UpdateMembers(runs: seq<RunView>, i: nat, run: RunView)
    requires i < |runs|
    ensures run in runs[i := run]
    ensures forall other :: other in runs[i := run] ==> other == run || other in runs
    ensures forall other :: other in runs ==> other == runs[i] || other in runs[i := run]
  {
    var after := runs[i := run];
    assert after[i] == run;
    forall other | other in runs ensures other == runs[i] || other in after {
      var k :| 0 <= k < |runs| && runs[k] == other;
      assert after[k] == if k == i then run else other;
    }
  }

  lemma UpdateStructure(w: World, runs: seq<RunView>, i: nat, run: RunView)
    requires i < |runs| && Structure(w, runs) && RunOk(w, run) && run.runId == runs[i].runId
    ensures Structure(w, runs[i := run])
    ensures Hosts(runs[i := run]) == Hosts(runs)
  {
    UpdateMembers(runs, i, run);
    assert runs[i] in runs;
    assert forall k :: 0 <= k < |runs| ==> runs[i := run][k].runId == runs[k].runId;
  }

  lemma UpdateShown(runs: seq<RunView>, i: nat, run: RunView, core: Row)
    requires i < |runs|
    requires Cores(AllRows(run)) == Cores(AllRows(runs[i])) + {core}
    requires forall k :: 0 <= k < |runs| && k != i ==> runs[k] != runs[i]
    ensures Shown(runs[i := run]) == Shown(runs) + {core}
  {
    var after := runs[i := run];
    UpdateMembers(runs, i, run);
    assert runs[i] in runs;
    forall row | row in Shown(runs) + {core} ensures row in Shown(after) {
      if row in Shown(runs) {
        var other :| other in runs && row in Cores(AllRows(other));
        assert row in Cores(AllRows(if other == runs[i] then run else other));
      } else {
        assert row in Cores(AllRows(run));
      }
    }
    forall row | row in Shown(after) ensures row in Shown(runs) + {core} {
      var other :| other in after && row in Cores(AllRows(other));
      if other == run && row != core {
        assert row in Cores(AllRows(runs[i]));
      }
    }
  }

  lemma CoresConcat(a: seq<Row>, b: seq<Row>)
    ensures Cores(a + b) == Cores(a) + Cores(b)
  {
  }

  /** Recomputing the window makes it exact and changes nothing else. */
  lemma TimingExact(run: RunView)
    requires AllRows(run) != []
    ensures WindowExact(ApplyTiming(run))
    ensures var after := ApplyTiming(run);
            && after.runId == run.runId && after.prompts == run.prompts && after.draws == run.draws
            && after.promptCount == run.promptCount && after.totalDuration == run.totalDuration
            && after.inTokens == run.inTokens && after.outTokens == run.outTokens
            && after.outcome == run.outcome && after.reason == run.reason
  {
    assert AllRows(ApplyTiming(run)) == AllRows(run);
  }

  lemma WithDrawCores(w: World, run: RunView, draw: Row)
    requires RunOk(w, run) && Follows(w, draw)
    ensures Cores(AllRows(WithDraw(run, draw))) == Cores(AllRows(run)) + {Core(draw)}
    ensures draw in WithDraw(run, draw).draws
  {
    UpsertRows(w, run.draws, draw);
    CoresConcat(run.prompts, run.draws);
    CoresConcat(run.prompts, Upsert(run.draws, draw));
  }

  lemma WithDrawKeeps(w: World, run: RunView, draw: Row)
    requires RunOk(w, run) && Follows(w, draw) && draw.parent.Some?
    requires draw.parent.value == run.runId || exists other :: other in run.draws && other.runId == draw.parent.value
    ensures RunOk(w, WithDraw(run, draw))
  {
    var joined := run.(draws := Upsert(run.draws, draw));
    assert joined.draws != [];
    assert DrawsOk(w, run.runId, joined.draws) by {
      UpsertRows(w, run.draws, draw);
      DrawGoesUnder(w, run, draw);
    }
    assert Linked(run.runId, joined.draws) by {
      WithDrawLinked(w, run, draw);
    }
    TimingExact(joined);
  }

  lemma DrawGoesUnder(w: World, run: RunView, draw: Row)
    requires RunOk(w, run) && Follows(w, draw) && draw.parent.Some?
    requires draw.parent.value == run.runId || exists other :: other in run.draws && other.runId == draw.parent.value
    ensures Under(w, draw.runId, run.runId)
  {
    if draw.parent.value == run.runId {
      UnderSelf(w, run.runId);
    } else {
      var other :| other in run.draws && other.runId == draw.parent.value;
    }
    UnderStep(w, draw.runId, run.runId);
  }

  lemma WithDrawLinked(w: World, run: RunView, draw: Row)
    requires RunOk(w, run) && Follows(w, draw) && draw.parent.Some?
    requires draw.parent.value == run.runId || exists other :: other in run.draws && other.runId == draw.parent.value
    ensures Linked(run.runId, Upsert(run.draws, draw))
  {
    UpsertRows(w, run.draws, draw);
    var after := Upsert(run.draws, draw);
    forall d | d in after && d.parent.Some? && d.parent.value != run.runId
      ensures exists other :: other in after && other.runId == d.parent.value
    {
      var other :| other in run.draws && other.runId == d.parent.value;
      UpsertKeepsRun(w, run.draws, draw, other);
    }
  }

  /** Replacing a copy leaves a row of the same run in its place. */
  lemma UpsertKeepsRun(w: World, rows: seq<Row>, entry: Row, other: Row)
    requires Follows(w, entry) && other in rows && Follows(w, other)
    ensures exists row :: row in Upsert(rows, entry) && row.runId == other.runId
  {
    var k :| 0 <= k < |rows| && rows[k] == other;
    var i := FindId(rows, entry.id);
    if i == k {
      assert Core(entry) == Core(other);
      assert Core(entry).runId == entry.runId && Core(other).runId == other.runId;
    }
    assert Upsert(rows, entry)[k].runId == other.runId;
  }

  lemma WithPromptKeeps(w: World, run: RunView, p: Row)
    requires RunOk(w, run) && Follows(w, p) && p.runId == run.runId
    ensures RunOk(w, WithPrompt(run, p))
  {
    WithPromptTotalled(w, run, p);
    UpsertNonEmpty(run.prompts, p);
    TimingExact(BeforeTiming(run, p));
    assert PromptsOk(w, run.runId, Upsert(run.prompts, p)) by {
      UpsertRows(w, run.prompts, p);
    }
  }

  lemma WithPromptTotalled(w: World, run: RunView, p: Row)
    requires PromptsOk(w, run.runId, run.prompts) && Totalled(run) && Follows(w, p)
    ensures Totalled(BeforeTiming(run, p))
  {
    UpsertTotals(w, run.prompts, p);
  }

  lemma UpsertNonEmpty(rows: seq<Row>, entry: Row)
    ensures Upsert(rows, entry) != []
  {
  }

  lemma WithPromptCores(w: World, run: RunView, p: Row)
    requires RunOk(w, run) && Follows(w, p)
    ensures Cores(AllRows(WithPrompt(run, p))) == Cores(AllRows(run)) + {Core(p)}
    ensures p in WithPrompt(run, p).prompts
  {
    UpsertRows(w, run.prompts, p);
    CoresConcat(run.prompts, run.draws);
    CoresConcat(Upsert(run.prompts, p), run.draws);
  }

  lemma UpsertTotals(w: World, prompts: seq<Row>, p: Row)
    requires Follows(w, p) && forall row :: row in prompts ==> Follows(w, row)
    ensures var n := if FindId(prompts, p.id) == -1 then 1 else 0;
            && SumDuration(Upsert(prompts, p)) == SumDuration(prompts) + n * p.duration
            && SumIn(Upsert(prompts, p)) == SumIn(prompts) + n * p.inTokens
            && SumOut(Upsert(prompts, p)) == SumOut(prompts) + n * p.outTokens
  {
    var i := FindId(prompts, p.id);
    if i == -1 {
      assert (prompts + [p])[..|prompts|] == prompts;
    } else {
      assert prompts[i] in prompts && Follows(w, prompts[i]);
      SumsOfRevision(prompts, i, p);
    }
  }

  lemma NewRunOk(w: World, p: Row)
    requires Follows(w, p) && p.parent == None
    ensures RunOk(w, NewRun(p))
    ensures Cores(AllRows(NewRun(p))) == {Core(p)}
  {
  }

  lemma ConsKeeps(w: World, runs: seq<RunView>, run: RunView)
    requires Structure(w, runs) && RunOk(w, run) && run.runId !in Hosts(runs)
    ensures Structure(w, [run] + runs)
    ensures Hosts([run] + runs) == Hosts(runs) + {run.runId}
    ensures Shown([run] + runs) == Shown(runs) + Cores(AllRows(run))
  {
    hide RunOk, AllRows;
    var after := [run] + runs;
    assert forall other :: other in after <==> other == run || other in runs;
    assert forall k :: 0 <= k < |runs| ==> runs[k] in runs;
    forall row | row in Shown(runs) + Cores(AllRows(run)) ensures row in Shown(after) {
      if row in Cores(AllRows(run)) {
        assert run in after;
      }
    }
  }
}
