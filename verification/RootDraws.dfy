/** The draws that hang directly under a run of their own on screen, copy by copy: what each
    message does to the copies of one such draw, held or shown. */
module RootDraws {
  import opened Options
  import opened Rows
  import opened DrawNesting
  import opened RunLog
  import opened LogStructure
  import opened LogInvariant
  import opened Keeping
  import opened LeastClosure
  import opened Copies

  /** The row `id` is a draw of `x`, and `x` is nobody's draw. */
  ghost predicate RootDraw(w: World, x: RunId, id: int) {
    w.logged(id).parent == Some(x) && w.parentOf(x) == None
  }

  // ---------- the run ----------

  function OwnRows(runs: seq<RunView>, x: RunId): seq<Row> {
    if FindRun(runs, x) == -1 then [] else runs[FindRun(runs, x)].prompts
  }

  predicate OnTab(runs: seq<RunView>, x: RunId) {
    FindRun(runs, x) != -1
  }

  lemma OwnRowsOf(runs: seq<RunView>, run: RunView)
    requires DistinctRuns(runs) && run in runs
    ensures OnTab(runs, run.runId) && OwnRows(runs, run.runId) == run.prompts
  {
    RunIdDetermines(runs, run, runs[FindRun(runs, run.runId)]);
  }

  lemma {:induction false} NoRowsOf(draws: seq<Row>, x: RunId)
    requires forall draw :: draw in draws ==> draw.runId != x
    ensures RowsOf(draws, x) == []
  {
    if draws != [] {
      assert draws[0] in draws && forall draw :: draw in draws[1..] ==> draw in draws;
      NoRowsOf(draws[1..], x);
    }
  }

  /** The rows that a search finds for such a run are its own prompts. */
  lemma RootContainer(w: World, runs: seq<RunView>, x: RunId)
    requires Structure(w, runs) && w.parentOf(x) == None
    ensures FindContainer(runs, x).Some? <==> OnTab(runs, x)
    ensures OnTab(runs, x) ==> FindContainer(runs, x).value.rows == OwnRows(runs, x)
  {
    hide Bookkept, Linked;
    FindContainerFirst(runs, x, 0);
    var c := FindContainer(runs, x);
    if c.Some? {
      var run := runs[c.value.index];
      assert run in runs;
      NoRowsOf(run.draws, x);
      assert run.runId == x;
      OwnRowsOf(runs, run);
    }
  }

  /** Changing the draws of one run, and moving it, leaves everybody's own prompts. */
  lemma SameOwnRows(runs: seq<RunView>, i: nat, run: RunView, x: RunId)
    requires i < |runs| && DistinctRuns(runs) && run.runId == runs[i].runId
    ensures var after := MoveToFront(runs[i := run], run.runId);
            && (OnTab(after, x) <==> OnTab(runs, x))
            && OwnRows(after, x) == if x == run.runId then run.prompts else OwnRows(runs, x)
  {
    var changed := runs[i := run];
    var after := MoveToFront(changed, run.runId);
    assert forall k :: 0 <= k < |runs| ==> changed[k].runId == runs[k].runId;
    MoveToFrontMembers(changed, run.runId);
    MoveToFrontDistinct(changed, run.runId);
    UpdateMembers(runs, i, run);
    if OnTab(runs, x) {
      var found := runs[FindRun(runs, x)];
      assert found in runs;
      if x == run.runId {
        OwnRowsOf(after, run);
      } else {
        OwnRowsOf(after, found);
      }
    } else {
      NotOnTab(runs, after, run, x);
    }
  }

  lemma NotOnTab(runs: seq<RunView>, after: seq<RunView>, run: RunView, x: RunId)
    requires !OnTab(runs, x) && run.runId in Hosts(runs)
    requires forall other :: other in after ==> other == run || other in runs
    ensures !OnTab(after, x) && x != run.runId
  {
    var twin :| twin in runs && twin.runId == run.runId;
    assert forall k :: 0 <= k < |after| ==> after[k] in after;
    assert forall k :: 0 <= k < |runs| ==> runs[k] in runs;
  }

  // ---------- one draw ----------

  /** What matters about the copies of one draw: the last ones held, and the one shown. */
  datatype Aspect = Aspect(
    onTab: bool, dispatched: bool, byParent: Option<Row>, byStep: Option<Row>, shown: set<Row>)

  ghost function AspectOf(w: World, s: State, x: RunId, id: int): Aspect {
    var anchor := w.logged(id).anchor;
    Aspect(OnTab(s.runs, x), anchor.Some? && AnyDispatches(OwnRows(s.runs, x), anchor.value),
        LastOf(Select(s.held, ByParent(x)), id),
           if anchor.Some? then LastOf(Select(s.held, ByStep(x, anchor.value)), id) else None, CopiesOf(s.runs, id))
  }

  /** The item concerns neither the draw nor what waits for its run. */
  ghost predicate Apart(t: Task, x: RunId, id: int) {
    match t
    case Attach(row) => row.id != id
    case DrainParent(y) => y != x
    case DrainStep(y, _) => y != x
  }

  lemma ReleaseApart(w: World, s: State, key: Key, x: RunId, id: int)
    requires Kept(w, s) && RootDraw(w, x, id) && key.run != x
    ensures AspectOf(w, Release(s, key).0, x, id) == AspectOf(w, s, x, id)
    ensures forall t :: t in Release(s, key).1 ==> Apart(t, x, id)
  {
    SelectOther(s.held, key, ByParent(x));
    if w.logged(id).anchor.Some? {
      SelectOther(s.held, key, ByStep(x, w.logged(id).anchor.value));
    }
    ReleaseKept(w, s, key);
    forall t | t in Release(s, key).1 ensures Apart(t, x, id) {
      assert HeldRight(w, Held(key, t.draw));
      assert Core(t.draw).parent == t.draw.parent;
    }
  }

  lemma HoldApart(w: World, s: State, key: Key, draw: Row, x: RunId, id: int)
    requires draw.id != id
    ensures AspectOf(w, Hold(s, key, draw), x, id) == AspectOf(w, s, x, id)
  {
    HoldAspect(w, s, key, draw, x, id, ByParent(x));
    if w.logged(id).anchor.Some? {
      HoldAspect(w, s, key, draw, x, id, ByStep(x, w.logged(id).anchor.value));
    }
  }

  lemma HoldAspect(w: World, s: State, key: Key, draw: Row, x: RunId, id: int, at: Key)
    ensures LastOf(Select(s.held + [Held(key, draw)], at), id)
         == if key == at && draw.id == id then Some(draw) else LastOf(Select(s.held, at), id)
  {
    SelectAppend(s.held, Held(key, draw), at);
    LastOfConcat(Select(s.held, at), if key == at then [draw] else [], id);
    assert Select(s.held, at) + [] == Select(s.held, at);
  }

  /** Placing any draw under any run leaves the own prompts, and copies of other rows. */
  lemma PlaceAspect(w: World, s: State, draw: Row, x: RunId, id: int)
    requires Kept(w, s) && Follows(w, draw) && draw.parent.Some?
    requires FindContainer(s.runs, draw.parent.value).Some?
    ensures var placed := Place(s, FindContainer(s.runs, draw.parent.value).value.index, draw);
            AspectOf(w, placed, x, id)
            == if draw.id == id then AspectOf(w, s, x, id).(shown := {draw}) else AspectOf(w, s, x, id)
  {
    hide RunOk;
    var i := FindContainer(s.runs, draw.parent.value).value.index;
    PlaceCopies(w, s, draw, id);
    SameOwnRows(s.runs, i, WithDraw(s.runs[i], draw), x);
    assert s.runs[i] in s.runs;
    if x == s.runs[i].runId {
      OwnRowsOf(s.runs, s.runs[i]);
    }
  }

  /** The drains of a draw never concern a run that is nobody's draw. */
  lemma DrainsApart(w: World, draw: Row, x: RunId, id: int)
    requires Follows(w, draw) && draw.parent.Some? && w.parentOf(x) == None
    ensures forall t :: t in Drains(draw) ==> Apart(t, x, id)
  {
  }

  lemma DoApart(w: World, s: State, t: Task, x: RunId, id: int)
    requires Kept(w, s) && FlightOk(w, [t]) && RootDraw(w, x, id) && Apart(t, x, id)
    ensures AspectOf(w, Do(s, t).0, x, id) == AspectOf(w, s, x, id)
    ensures forall u :: u in Do(s, t).1 ==> Apart(u, x, id)
  {
    hide Kept, AspectOf;
    assert t in [t];
    match t
    case DrainParent(y) => ReleaseApart(w, s, ByParent(y), x, id);
    case DrainStep(y, c) => ReleaseApart(w, s, ByStep(y, c), x, id);
    case Attach(draw) =>
      var c := FindContainer(s.runs, draw.parent.value);
      if c.None? || WaitsForStep(c.value.rows, draw) {
        HoldApart(w, s, KeyOf(draw, c.Some?), draw, x, id);
      } else {
        PlaceAspect(w, s, draw, x, id);
        DrainsApart(w, draw, x, id);
      }
  }

  lemma {:induction false} WorkApart(w: World, s: State, agenda: seq<Task>, x: RunId, id: int)
    requires Kept(w, s) && FlightOk(w, agenda) && RootDraw(w, x, id)
    requires forall t :: t in agenda ==> Apart(t, x, id)
    ensures AspectOf(w, Work(s, agenda), x, id) == AspectOf(w, s, x, id)
    decreases |s.held| + |InFlight(agenda)|, |agenda| - |InFlight(agenda)|, |InFlight(agenda)|
  {
    hide Kept, AspectOf;
    if agenda != [] {
      assert agenda[0] in agenda;
      DoKept(w, s, agenda[0]);
      DoApart(w, s, agenda[0], x, id);
      DoDecreases(s, agenda);
      InFlightLength(agenda);
      assert forall t :: t in Do(s, agenda[0]).1 + agenda[1..] ==> t in Do(s, agenda[0]).1 || t in agenda;
      WorkApart(w, Do(s, agenda[0]).0, Do(s, agenda[0]).1 + agenda[1..], x, id);
    }
  }

  // ---------- attaching copies ----------

  /** The draw can be shown: its run is on screen, and its step too if it has one. */
  predicate IsReady(a: Aspect, anchor: Option<CallId>) {
    a.onTab && (anchor.Some? ==> a.dispatched)
  }

  /** Where a copy of the draw ends up. */
  ghost function Copied(a: Aspect, anchor: Option<CallId>, copy: Row): Aspect {
    if !a.onTab then a.(byParent := Some(copy))
    else if IsReady(a, anchor) then a.(shown := {copy})
    else a.(byStep := Some(copy))
  }

  lemma AttachAspect(w: World, s: State, draw: Row, x: RunId, id: int)
    requires Kept(w, s) && RootDraw(w, x, id) && Follows(w, draw) && draw.parent.Some?
    ensures Kept(w, Work(s, [Attach(draw)]))
    ensures AspectOf(w, Work(s, [Attach(draw)]), x, id)
         == if draw.id == id then Copied(AspectOf(w, s, x, id), w.logged(id).anchor, draw) else AspectOf(w, s, x, id)
  {
    AttachOutcome(w, s, draw);
    if draw.id != id {
      WorkApart(w, s, [Attach(draw)], x, id);
    } else {
      assert Core(draw).parent == draw.parent && Core(draw).anchor == draw.anchor;
      RootContainer(w, s.runs, x);
      CopyAspect(w, s, draw, x, id);
    }
  }

  lemma CopyAspect(w: World, s: State, draw: Row, x: RunId, id: int)
    requires Kept(w, s) && RootDraw(w, x, id) && Follows(w, draw) && draw.id == id
    requires draw.parent == Some(x) && draw.anchor == w.logged(id).anchor
    requires FindContainer(s.runs, x).Some? <==> OnTab(s.runs, x)
    requires OnTab(s.runs, x) ==> FindContainer(s.runs, x).value.rows == OwnRows(s.runs, x)
    ensures AspectOf(w, Work(s, [Attach(draw)]), x, id) == Copied(AspectOf(w, s, x, id), draw.anchor, draw)
  {
    AttachOutcome(w, s, draw);
    var c := FindContainer(s.runs, x);
    if c.Some? && !WaitsForStep(c.value.rows, draw) {
      PlacedCopyAspect(w, s, draw, x, id);
    } else {
      var key := KeyOf(draw, c.Some?);
      HoldAspect(w, s, key, draw, x, id, ByParent(x));
      if draw.anchor.Some? {
        HoldAspect(w, s, key, draw, x, id, ByStep(x, draw.anchor.value));
      }
    }
  }

  lemma PlacedCopyAspect(w: World, s: State, draw: Row, x: RunId, id: int)
    requires Kept(w, s) && RootDraw(w, x, id) && Follows(w, draw) && draw.id == id && draw.parent == Some(x)
    requires FindContainer(s.runs, x).Some?
    ensures AspectOf(w, Work(Place(s, FindContainer(s.runs, x).value.index, draw), Drains(draw)), x, id)
         == AspectOf(w, s, x, id).(shown := {draw})
  {
    hide AspectOf, Place;
    var placed := Place(s, FindContainer(s.runs, x).value.index, draw);
    PlaceAspect(w, s, draw, x, id);
    PlacedKept(w, s, draw);
    DrainsApart(w, draw, x, id);
    assert FlightOk(w, Drains(draw));
    WorkApart(w, placed, Drains(draw), x, id);
  }

  // ---------- draining copies ----------

  ghost function CopiedLast(a: Aspect, anchor: Option<CallId>, last: Option<Row>): Aspect {
    if last.Some? then Copied(a, anchor, last.value) else a
  }

  /** Of several copies attached in a row, the last one counts. */
  lemma {:induction false} AttachAllAspect(w: World, s: State, draws: seq<Row>, x: RunId, id: int)
    requires Kept(w, s) && RootDraw(w, x, id)
    requires forall draw :: draw in draws ==> Follows(w, draw) && draw.parent.Some?
    ensures Kept(w, Work(s, AttachAll(draws)))
    ensures AspectOf(w, Work(s, AttachAll(draws)), x, id)
         == CopiedLast(AspectOf(w, s, x, id), w.logged(id).anchor, LastOf(draws, id))
    decreases |draws|
  {
    if draws == [] {
      assert Work(s, AttachAll(draws)) == s;
    } else {
      hide Kept, AspectOf, Work, RootDraw, Follows, CopiedLast;
      assert draws[0] in draws && forall draw :: draw in draws[1..] ==> draw in draws;
      AttachAspect(w, s, draws[0], x, id);
      AttachAllAspect(w, Work(s, [Attach(draws[0])]), draws[1..], x, id);
      WorkConcat(s, [Attach(draws[0])], AttachAll(draws[1..]));
      CopiedAgain(AspectOf(w, s, x, id), w.logged(id).anchor, draws, id);
    }
  }

  /** A later copy takes the place of the first one. */
  lemma CopiedAgain(a: Aspect, anchor: Option<CallId>, draws: seq<Row>, id: int)
    requires draws != []
    ensures var first := if draws[0].id == id then Copied(a, anchor, draws[0]) else a;
            CopiedLast(a, anchor, LastOf(draws, id)) == CopiedLast(first, anchor, LastOf(draws[1..], id))
  {
  }

  /** The held copies once one key is taken out. */
  ghost function Taken(a: Aspect, anchor: Option<CallId>, key: Key): Aspect {
    match key
    case ByParent(_) => a.(byParent := None)
    case ByStep(_, c) => if anchor == Some(c) then a.(byStep := None) else a
  }

  ghost function LastUnder(a: Aspect, anchor: Option<CallId>, key: Key): Option<Row> {
    match key
    case ByParent(_) => a.byParent
    case ByStep(_, c) => if anchor == Some(c) then a.byStep else None
  }

  ghost function Drained(a: Aspect, anchor: Option<CallId>, key: Key): Aspect {
    CopiedLast(Taken(a, anchor, key), anchor, LastUnder(a, anchor, key))
  }

  lemma TakenAspect(w: World, s: State, key: Key, x: RunId, id: int)
    requires Kept(w, s) && RootDraw(w, x, id) && key.run == x
    ensures AspectOf(w, s.(held := Without(s.held, key)), x, id)
            == Taken(AspectOf(w, s, x, id), w.logged(id).anchor, key)
    ensures LastOf(Select(s.held, key), id) == LastUnder(AspectOf(w, s, x, id), w.logged(id).anchor, key)
  {
    SelectOther(s.held, key, ByParent(x));
    if w.logged(id).anchor.Some? {
      SelectOther(s.held, key, ByStep(x, w.logged(id).anchor.value));
    }
    if key.ByStep? && w.logged(id).anchor != Some(key.call) {
      NotUnderStep(w, s, key, id);
    }
  }

  /** Under another step there is no copy. */
  lemma NotUnderStep(w: World, s: State, key: Key, id: int)
    requires Kept(w, s) && key.ByStep? && w.logged(id).anchor != Some(key.call)
    ensures LastOf(Select(s.held, key), id) == None
  {
    ReleaseKept(w, s, key);
    LastOfMember(Select(s.held, key), id);
    forall draw | draw in Select(s.held, key) ensures draw.id != id {
      assert HeldRight(w, Held(key, draw));
      assert Core(draw).anchor == draw.anchor;
    }
  }

  lemma DrainAspect(w: World, s: State, key: Key, x: RunId, id: int)
    requires Kept(w, s) && RootDraw(w, x, id) && key.run == x
    ensures Kept(w, Work(s, [DrainOf(key)]))
    ensures AspectOf(w, Work(s, [DrainOf(key)]), x, id) == Drained(AspectOf(w, s, x, id), w.logged(id).anchor, key)
  {
    hide Kept, AspectOf;
    DrainOutcome(w, s, key);
    TakenAspect(w, s, key, x, id);
    forall draw | draw in Select(s.held, key) ensures Follows(w, draw) && draw.parent.Some? {
      assert HeldRight(w, Held(key, draw));
    }
    AttachAllAspect(w, s.(held := Without(s.held, key)), Select(s.held, key), x, id);
  }

  /** Draining the steps of a row drains the draw's own step if it is among them. */
  lemma {:induction false} DrainStepsAspect(w: World, s: State, calls: seq<CallId>, x: RunId, id: int)
    requires Kept(w, s) && RootDraw(w, x, id)
    ensures var anchor := w.logged(id).anchor;
            AspectOf(w, Work(s, DrainSteps(x, calls)), x, id)
            == if anchor.Some? && anchor.value in calls
               then Drained(AspectOf(w, s, x, id), anchor, ByStep(x, anchor.value)) else AspectOf(w, s, x, id)
    decreases |calls|
  {
    hide Kept, AspectOf;
    if calls != [] {
      DrainAspect(w, s, ByStep(x, calls[0]), x, id);
      DrainStepsAspect(w, Work(s, [DrainStep(x, calls[0])]), calls[1..], x, id);
      WorkConcat(s, [DrainStep(x, calls[0])], DrainSteps(x, calls[1..]));
      assert forall c :: c in calls <==> c == calls[0] || c in calls[1..];
    }
  }

  // ---------- messages ----------

  /** What an own prompt of the run does to the copies: those held for the run come first,
      then those held for the step. */
  ghost function Prompted(a: Aspect, anchor: Option<CallId>, x: RunId, p: Row): Aspect {
    var dispatches := anchor.Some? && Made(p, anchor.value);
    var shown := a.(onTab := true, dispatched := a.dispatched || dispatches);
    var drained := Drained(shown, anchor, ByParent(x));
    if dispatches then Drained(drained, anchor, ByStep(x, anchor.value)) else drained
  }

  lemma ShowPromptAspect(w: World, s: State, p: Row, x: RunId, id: int)
    requires Kept(w, s) && RootDraw(w, x, id) && Follows(w, p) && p.parent == None
    ensures Kept(w, ShowPrompt(s, p))
    ensures var a, anchor := AspectOf(w, s, x, id), w.logged(id).anchor;
            AspectOf(w, ShowPrompt(s, p), x, id)
            == if p.runId != x then a
               else a.(onTab := true, dispatched := a.dispatched || (anchor.Some? && Made(p, anchor.value)))
  {
    ShowPromptStructure(w, s, p);
    PromptCopies(w, s, p, id);
    assert p.id != id by {
      assert Core(p).parent == p.parent;
    }
    ShowPromptRows(w, s.runs, s, p, x);
    if w.logged(id).anchor.Some? {
      UpsertDispatches(w, OwnRows(s.runs, p.runId), p, w.logged(id).anchor.value);
    }
  }

  lemma ShowPromptRows(w: World, runs: seq<RunView>, s: State, p: Row, x: RunId)
    requires Structure(w, runs) && runs == s.runs && Follows(w, p) && p.parent == None
    ensures OnTab(ShowPrompt(s, p).runs, x) <==> OnTab(runs, x) || x == p.runId
    ensures OwnRows(ShowPrompt(s, p).runs, x) == if x == p.runId then Upsert(OwnRows(runs, x), p) else OwnRows(runs, x)
    ensures forall row :: row in OwnRows(runs, p.runId) ==> Follows(w, row)
  {
    var i := FindRun(runs, p.runId);
    if i != -1 {
      assert runs[i] in runs;
      SameOwnRows(runs, i, WithPrompt(runs[i], p), x);
    } else {
      NewRunRows(runs, p, x);
    }
  }

  lemma NewRunRows(runs: seq<RunView>, p: Row, x: RunId)
    requires FindRun(runs, p.runId) == -1
    ensures OnTab([NewRun(p)] + runs, x) <==> OnTab(runs, x) || x == p.runId
    ensures OwnRows([NewRun(p)] + runs, x) == if x == p.runId then [p] else OwnRows(runs, x)
  {
    assert ([NewRun(p)] + runs)[1..] == runs;
  }

  /** A revised row dispatches what its copy did. */
  lemma UpsertDispatches(w: World, rows: seq<Row>, p: Row, c: CallId)
    requires Follows(w, p) && forall row :: row in rows ==> Follows(w, row)
    ensures AnyDispatches(Upsert(rows, p), c) <==> AnyDispatches(rows, c) || Made(p, c)
  {
    var i := FindId(rows, p.id);
    var after := Upsert(rows, p);
    if i == -1 {
      assert forall k :: 0 <= k < |rows| ==> after[k] == rows[k];
      assert after[|rows|] == p;
    } else {
      assert rows[i] in rows && Core(rows[i]) == Core(p);
      assert ToolCallIds(Core(rows[i])) == ToolCallIds(rows[i]) && ToolCallIds(Core(p)) == ToolCallIds(p);
      assert after[i] == p && forall k :: 0 <= k < |rows| && k != i ==> after[k] == rows[k];
    }
  }

  lemma PromptAspect(w: World, s: State, p: Row, x: RunId, id: int)
    requires Kept(w, s) && RootDraw(w, x, id) && Follows(w, p) && p.parent == None
    ensures var a := AspectOf(w, s, x, id);
            AspectOf(w, HandleRow(s, p), x, id) == if p.runId == x then Prompted(a, w.logged(id).anchor, x, p) else a
  {
    hide Kept, AspectOf, ShowPrompt;
    var s' := ShowPrompt(s, p);
    ShowPromptAspect(w, s, p, x, id);
    if p.runId == x {
      WorkConcat(s', [DrainParent(x)], DrainSteps(x, ToolCallIds(p)));
      DrainAspect(w, s', ByParent(x), x, id);
      DrainStepsAspect(w, Work(s', [DrainParent(x)]), ToolCallIds(p), x, id);
    } else {
      assert FlightOk(w, Drains(p));
      WorkApart(w, s', Drains(p), x, id);
    }
  }

  lemma StartAspect(w: World, s: State, y: RunId, at: int, x: RunId, id: int)
    requires DistinctRuns(s.runs)
    ensures var a := AspectOf(w, s, x, id);
            AspectOf(w, StartRun(s, y, at), x, id) == if y == x then a.(onTab := true) else a
  {
    hide CopiesOf, LastOf, Select;
    StartCopies(s, y, at, id);
    var i := FindRun(s.runs, y);
    if i == -1 {
      StartRows(s.runs, y, at, x);
    } else {
      assert s.runs[i := s.runs[i]] == s.runs;
      SameOwnRows(s.runs, i, s.runs[i], x);
    }
  }

  lemma StartRows(runs: seq<RunView>, y: RunId, at: int, x: RunId)
    requires FindRun(runs, y) == -1
    ensures OnTab([Shell(y, at)] + runs, x) <==> OnTab(runs, x) || x == y
    ensures OwnRows([Shell(y, at)] + runs, x) == OwnRows(runs, x)
  {
    assert ([Shell(y, at)] + runs)[1..] == runs;
  }

  lemma FinishAspect(w: World, s: State, y: RunId, outcome: string, reason: string, x: RunId, id: int)
    requires DistinctRuns(s.runs)
    ensures AspectOf(w, Finish(s, y, outcome, reason), x, id) == AspectOf(w, s, x, id)
  {
    FinishCopies(s, y, outcome, reason, id);
    var i := FindRun(s.runs, y);
    if i != -1 {
      SameOwnRows(s.runs, i, s.runs[i].(outcome := Some(outcome), reason := Some(reason)), x);
    }
  }

  /** What a message does to the copies of the draw `id` of the run `x`. */
  ghost function After(a: Aspect, anchor: Option<CallId>, x: RunId, id: int, m: Message): Aspect {
    match m
    case Started(y, _) => if y == x then a.(onTab := true) else a
    case Ended(_, _, _) => a
    case Logged(row) =>
      if row.id == id then Copied(a, anchor, row)
      else if row.parent == None && row.runId == x then Prompted(a, anchor, x, row)
      else a
  }

  lemma MessageAspect(w: World, s: State, m: Message, x: RunId, id: int)
    requires Kept(w, s) && RootDraw(w, x, id) && (m.Logged? ==> Follows(w, m.row))
    ensures AspectOf(w, Handle(s, m), x, id) == After(AspectOf(w, s, x, id), w.logged(id).anchor, x, id, m)
  {
    hide AspectOf, HandleRow;
    match m
    case Started(y, at) => StartAspect(w, s, y, at, x, id);
    case Ended(y, outcome, reason) => FinishAspect(w, s, y, outcome, reason, x, id);
    case Logged(row) =>
      assert Core(row).parent == row.parent;
      if row.parent.Some? {
        AttachAspect(w, s, row, x, id);
        HandleDraw(s, row);
      } else {
        PromptAspect(w, s, row, x, id);
      }
  }

  lemma HandleDraw(s: State, row: Row)
    requires row.parent.Some?
    ensures HandleRow(s, row) == Work(s, [Attach(row)])
  {
  }

  const NOWHERE := Aspect(false, false, None, None, {})

  ghost function Story(messages: seq<Message>, anchor: Option<CallId>, x: RunId, id: int): Aspect {
    if messages == [] then NOWHERE
    else After(Story(messages[..|messages| - 1], anchor, x, id), anchor, x, id, messages[|messages| - 1])
  }

  /** Over any stream, the copies of the draw are where its story says. */
  lemma {:induction false} StreamAspect(w: World, messages: seq<Message>, x: RunId, id: int)
    requires Consistent(w, messages) && RootDraw(w, x, id)
    ensures AspectOf(w, Play(messages), x, id) == Story(messages, w.logged(id).anchor, x, id)
  {
    if messages != [] {
      var before := messages[..|messages| - 1];
      StreamAspect(w, before, x, id);
      PlayKeeps(w, before);
      InvIsKept(w, Play(before), Received(before));
      MessageAspect(w, Play(before), messages[|messages| - 1], x, id);
    }
  }
}
