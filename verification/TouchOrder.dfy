/** What one message does to the list as a whole: one run is touched and comes to the
    front, every other run keeps its place and its contents. */
module TouchOrder {
  import opened Options
  import opened Rows
  import opened DrawNesting
  import opened RunLog
  import opened LogStructure
  import opened LogInvariant
  import opened LeastClosure

  /** The list without the run `h`. */
  function Others(runs: seq<RunView>, h: RunId): seq<RunView> {
    var i := FindRun(runs, h);
    if i == -1 then runs else runs[..i] + runs[i + 1..]
  }

  /** `after` is `before` with the run `h` changed (or new) and in front. */
  ghost predicate TouchedOnly(before: seq<RunView>, after: seq<RunView>, h: RunId) {
    after != [] && after[0].runId == h && after[1..] == Others(before, h)
  }

  // ---------- everything a row drains is under the row's own host ----------

  ghost predicate TaskUnder(w: World, t: Task, h: RunId) {
    match t
    case Attach(draw) => draw.parent.Some? && Under(w, draw.parent.value, h)
    case DrainParent(x) => Under(w, x, h)
    case DrainStep(x, _) => Under(w, x, h)
  }

  ghost predicate AllUnder(w: World, agenda: seq<Task>, h: RunId) {
    forall t :: t in agenda ==> TaskUnder(w, t, h)
  }

  lemma DrainsUnder(w: World, row: Row, h: RunId)
    requires Under(w, row.runId, h)
    ensures AllUnder(w, Drains(row), h)
  {
    assert forall t :: t in Drains(row) ==> t == DrainParent(row.runId) || t in DrainSteps(row.runId, ToolCallIds(row));
  }

  lemma ReleaseUnder(w: World, s: State, agenda: seq<Task>, key: Key, h: RunId)
    requires HeldOk(w, Hosts(s.runs), Shown(s.runs), agenda, s.held) && Under(w, key.run, h)
    ensures AllUnder(w, Release(s, key).1, h)
  {
    SelectWithout(s.held, key);
    forall t | t in Release(s, key).1 ensures TaskUnder(w, t, h) {
      assert Held(key, t.draw) in s.held;
      assert Waits(Hosts(s.runs), Shown(s.runs), agenda, Held(key, t.draw));
    }
  }

  lemma FrontContainer(w: World, runs: seq<RunView>, x: RunId, h: RunId)
    requires Structure(w, runs) && runs != [] && runs[0].runId == h
    requires Under(w, x, h) && FindContainer(runs, x).Some?
    ensures FindContainer(runs, x).value.index == 0
  {
    var c := FindContainer(runs, x).value;
    var run := runs[c.index];
    assert run in runs && runs[0] in runs;
    UnderSelf(w, run.runId);
    if run.runId != x {
      assert c.rows[0] in run.draws;
    }
    OneHost(w, x, run.runId, h);
  }

  /** Only the run `h` in front is changed, and not its outcome. */
  ghost predicate FrontOnly(before: seq<RunView>, after: seq<RunView>, h: RunId) {
    && before != [] && after != [] && before[0].runId == h && after[0].runId == h
    && after[1..] == before[1..] && after[0].outcome == before[0].outcome
  }

  lemma FrontOnlyAgain(a: seq<RunView>, b: seq<RunView>, c: seq<RunView>, h: RunId)
    requires FrontOnly(a, b, h) && FrontOnly(b, c, h)
    ensures FrontOnly(a, c, h)
  {
  }

  /** The run `h` is in front, and everything on the agenda is under it. */
  ghost predicate WorksInFront(w: World, s: State, agenda: seq<Task>, received: set<Row>, h: RunId) {
    Inv(w, s, agenda, received) && AllUnder(w, agenda, h) && s.runs != [] && s.runs[0].runId == h
  }

  /** While everything on the agenda is under the front run, only that run changes. */
  lemma {:induction false} WorkStaysInFront(w: World, s: State, agenda: seq<Task>, received: set<Row>, h: RunId)
    requires WorksInFront(w, s, agenda, received, h)
    ensures FrontOnly(s.runs, Work(s, agenda).runs, h)
    decreases |s.held| + |InFlight(agenda)|, |agenda| - |InFlight(agenda)|, |InFlight(agenda)|
  {
    if agenda == [] {
      assert Work(s, agenda) == s;
    } else {
      hide WorksInFront, FrontOnly, Do, InFlight;
      assert agenda == [agenda[0]] + agenda[1..];
      var next := Do(s, agenda[0]).0;
      FirstStaysInFront(w, s, agenda[0], agenda[1..], received, h);
      DoDecreases(s, agenda);
      InFlightLength(agenda);
      WorkStaysInFront(w, next, Do(s, agenda[0]).1 + agenda[1..], received, h);
      FrontOnlyAgain(s.runs, next.runs, Work(s, agenda).runs, h);
    }
  }

  lemma FirstStaysInFront(w: World, s: State, t: Task, rest: seq<Task>, received: set<Row>, h: RunId)
    requires WorksInFront(w, s, [t] + rest, received, h)
    ensures WorksInFront(w, Do(s, t).0, Do(s, t).1 + rest, received, h) && FrontOnly(s.runs, Do(s, t).0.runs, h)
  {
    DoStaysInFront(w, s, t, rest, received, h);
    DoKeeps(w, s, t, rest, received);
  }

  lemma DoStaysInFront(w: World, s: State, t: Task, rest: seq<Task>, received: set<Row>, h: RunId)
    requires Inv(w, s, [t] + rest, received) && AllUnder(w, [t] + rest, h)
    requires s.runs != [] && s.runs[0].runId == h
    ensures AllUnder(w, Do(s, t).1 + rest, h)
    ensures FrontOnly(s.runs, Do(s, t).0.runs, h)
  {
    assert t in [t] + rest;
    assert forall u :: u in rest ==> u in [t] + rest;
    match t {
      case DrainParent(x) => ReleaseUnder(w, s, [t] + rest, ByParent(x), h);
      case DrainStep(x, c) => ReleaseUnder(w, s, [t] + rest, ByStep(x, c), h);
      case Attach(draw) =>
        var c := FindContainer(s.runs, draw.parent.value);
        if c.Some? && !WaitsForStep(c.value.rows, draw) {
          FrontContainer(w, s.runs, draw.parent.value, h);
          var before := DropAttach(w, s, draw, rest, received);
          UnderStep(w, draw.runId, h);
          DrainsUnder(w, draw, h);
        }
    }
  }

  // ---------- one logged row ----------

  lemma PlaceTouches(runs: seq<RunView>, i: nat, run: RunView)
    requires i < |runs| && DistinctRuns(runs) && run.runId == runs[i].runId
    ensures TouchedOnly(runs, MoveToFront(runs[i := run], run.runId), run.runId)
  {
    var changed := runs[i := run];
    assert FindRun(runs, run.runId) == i;
    assert forall k :: 0 <= k < |runs| ==> changed[k].runId == runs[k].runId;
    assert FindRun(changed, run.runId) == i;
    if i == 0 {
      assert changed[1..] == runs[1..] && runs[..0] + runs[1..] == runs[1..];
    } else {
      assert changed[..i] == runs[..i] && changed[i + 1..] == runs[i + 1..];
      assert MoveToFront(changed, run.runId)[1..] == changed[..i] + changed[i + 1..];
    }
  }

  /** A draw that has to wait changes nothing on screen and is held last, for what it
      lacks.  A draw that can be shown comes, with everything that waited for it, under
      its own host, which moves to the front; nothing else on screen changes. */
  lemma DrawTouches(w: World, s: State, draw: Row, received: set<Row>)
    requires Inv(w, s, [], received) && Follows(w, draw) && draw.parent.Some?
    ensures !Ready(Hosts(s.runs), Shown(s.runs), draw) ==>
              exists key :: HandleRow(s, draw) == Hold(s, key, draw) && key.run == draw.parent.value
    ensures Ready(Hosts(s.runs), Shown(s.runs), draw) ==>
              exists h :: Under(w, draw.runId, h) && TouchedOnly(s.runs, HandleRow(s, draw).runs, h)
  {
    var c := FindContainer(s.runs, draw.parent.value);
    FindContainerSome(w, s.runs, draw.parent.value);
    AddAttach(w, s, draw, received);
    if c.None? {
      HeldAtOnce(s, draw);
    } else {
      WaitsExactly(w, s.runs, draw);
      if WaitsForStep(c.value.rows, draw) {
        HeldAtOnce(s, draw);
      } else {
        PlacedDrawTouches(w, s, draw, received);
      }
    }
  }

  lemma HeldAtOnce(s: State, draw: Row)
    requires draw.parent.Some?
    requires var c := FindContainer(s.runs, draw.parent.value); c.None? || WaitsForStep(c.value.rows, draw)
    ensures exists key :: HandleRow(s, draw) == Hold(s, key, draw) && key.run == draw.parent.value
  {
    WorkOne(s, Attach(draw));
    assert Do(s, Attach(draw)).0 == Hold(s, KeyOf(draw, FindContainer(s.runs, draw.parent.value).Some?), draw);
  }

  lemma PlacedDrawTouches(w: World, s: State, draw: Row, received: set<Row>)
    requires Inv(w, s, [], received) && Follows(w, draw) && draw.parent.Some?
    requires var c := FindContainer(s.runs, draw.parent.value); c.Some? && !WaitsForStep(c.value.rows, draw)
    ensures var h := s.runs[FindContainer(s.runs, draw.parent.value).value.index].runId;
            Under(w, draw.runId, h) && TouchedOnly(s.runs, HandleRow(s, draw).runs, h)
  {
    var i := FindContainer(s.runs, draw.parent.value).value.index;
    var h := s.runs[i].runId;
    PlacedFirst(s, i, draw);
    PlaceAndDrainKeeps(w, s, draw, received);
    ContainerAbove(w, s.runs, draw);
    DrainsUnder(w, draw, h);
    WorkTouches(w, s.runs, Place(s, i, draw), Drains(draw), received + {Core(draw)}, h);
    PlacedThenDrained(s, draw);
  }

  lemma PlacedFirst(s: State, i: nat, draw: Row)
    requires i < |s.runs| && DistinctRuns(s.runs)
    ensures TouchedOnly(s.runs, Place(s, i, draw).runs, s.runs[i].runId)
  {
    PlaceTouches(s.runs, i, WithDraw(s.runs[i], draw));
  }

  lemma PlacedThenDrained(s: State, draw: Row)
    requires draw.parent.Some?
    requires var c := FindContainer(s.runs, draw.parent.value); c.Some? && !WaitsForStep(c.value.rows, draw)
    ensures HandleRow(s, draw)
         == Work(Place(s, FindContainer(s.runs, draw.parent.value).value.index, draw), Drains(draw))
  {
    WorkOne(s, Attach(draw));
  }

  lemma WorkTouches(w: World, before: seq<RunView>, s: State, agenda: seq<Task>, received: set<Row>, h: RunId)
    requires Inv(w, s, agenda, received) && AllUnder(w, agenda, h) && TouchedOnly(before, s.runs, h)
    ensures TouchedOnly(before, Work(s, agenda).runs, h)
  {
    WorkStaysInFront(w, s, agenda, received, h);
  }

  lemma PlaceAndDrainKeeps(w: World, s: State, draw: Row, received: set<Row>)
    requires Inv(w, s, [], received) && Follows(w, draw) && draw.parent.Some?
    requires var c := FindContainer(s.runs, draw.parent.value); c.Some? && !WaitsForStep(c.value.rows, draw)
    ensures Inv(w, Place(s, FindContainer(s.runs, draw.parent.value).value.index, draw),
            Drains(draw), received + {Core(draw)})
  {
    AppendNothing(Drains(draw));
    PlaceKeeps(w, s, draw, [], received);
  }

  lemma AppendNothing(tasks: seq<Task>)
    ensures tasks + [] == tasks
  {
  }

  /** The container's run is the host that the draw's chain leads to. */
  lemma ContainerAbove(w: World, runs: seq<RunView>, draw: Row)
    requires Structure(w, runs) && Follows(w, draw) && draw.parent.Some?
    requires FindContainer(runs, draw.parent.value).Some?
    ensures Under(w, draw.runId, runs[FindContainer(runs, draw.parent.value).value.index].runId)
  {
    var c := FindContainer(runs, draw.parent.value).value;
    var run := runs[c.index];
    assert run in runs;
    if run.runId == draw.parent.value {
      UnderSelf(w, run.runId);
    } else {
      assert c.rows[0] in run.draws;
    }
    UnderStep(w, draw.runId, run.runId);
  }

  /** An own prompt touches its own run, with everything that waited for it. */
  lemma PromptTouches(w: World, s: State, p: Row, received: set<Row>)
    requires Inv(w, s, [], received) && Follows(w, p) && p.parent == None
    ensures TouchedOnly(s.runs, HandleRow(s, p).runs, p.runId)
  {
    ShowTouches(s, p);
    ShowPromptStructure(w, s, p);
    ShowKeeps(w, s, ShowPrompt(s, p), p, [], received);
    AppendNothing(Drains(p));
    UnderSelf(w, p.runId);
    DrainsUnder(w, p, p.runId);
    WorkTouches(w, s.runs, ShowPrompt(s, p), Drains(p), received + {Core(p)}, p.runId);
  }

  lemma ShowTouches(s: State, p: Row)
    requires DistinctRuns(s.runs)
    ensures TouchedOnly(s.runs, ShowPrompt(s, p).runs, p.runId)
  {
    var i := FindRun(s.runs, p.runId);
    if i != -1 {
      PlaceTouches(s.runs, i, WithPrompt(s.runs[i], p));
    }
  }

  // ---------- starts and outcomes ----------

  /** A run's own call puts the run in front, unchanged when it is on screen already. */
  lemma StartTouches(s: State, x: RunId, at: int)
    requires DistinctRuns(s.runs)
    ensures TouchedOnly(s.runs, StartRun(s, x, at).runs, x) && StartRun(s, x, at).held == s.held
    ensures StartRun(s, x, at).runs[0] == if FindRun(s.runs, x) == -1 then Shell(x, at) else s.runs[FindRun(s.runs, x)]
  {
    var i := FindRun(s.runs, x);
    if i != -1 {
      assert s.runs[i := s.runs[i]] == s.runs;
      PlaceTouches(s.runs, i, s.runs[i]);
    }
  }

  /** An outcome puts its run in front, with its rows, totals and window as they were; for a
      run that is not on screen it does nothing. */
  lemma FinishTouches(s: State, x: RunId, outcome: string, reason: string)
    requires DistinctRuns(s.runs)
    ensures FindRun(s.runs, x) == -1 ==> Finish(s, x, outcome, reason) == s
    ensures FindRun(s.runs, x) != -1 ==>
              && TouchedOnly(s.runs, Finish(s, x, outcome, reason).runs, x)
              && Finish(s, x, outcome, reason).runs[0]
                 == s.runs[FindRun(s.runs, x)].(outcome := Some(outcome), reason := Some(reason))
              && Finish(s, x, outcome, reason).held == s.held
  {
    var i := FindRun(s.runs, x);
    if i != -1 {
      var run := s.runs[i].(outcome := Some(outcome), reason := Some(reason));
      PlaceTouches(s.runs, i, run);
      assert forall k :: 0 <= k < |s.runs| ==> s.runs[i := run][k].runId == s.runs[k].runId;
      assert FindRun(s.runs[i := run], x) == i;
    }
  }

  // ---------- revisions ----------

  ghost predicate Idle(held: seq<Held>, t: Task) {
    match t
    case Attach(_) => false
    case DrainParent(_) => forall h :: h in held ==> DrainOf(h.key) != t
    case DrainStep(_, _) => forall h :: h in held ==> DrainOf(h.key) != t
  }

  /** Drains that find nothing held do nothing. */
  lemma {:induction false} IdleDrains(s: State, agenda: seq<Task>)
    requires forall t :: t in agenda ==> Idle(s.held, t)
    ensures Work(s, agenda) == s
  {
    if agenda != [] {
      var t := agenda[0];
      IdleDrain(s, t);
      hide Do, Idle;
      assert [] + agenda[1..] == agenda[1..];
      IdleDrains(s, agenda[1..]);
    }
  }

  lemma IdleDrain(s: State, t: Task)
    requires Idle(s.held, t)
    ensures Do(s, t) == (s, [])
  {
    NothingSelected(s.held, if t.DrainParent? then ByParent(t.run) else ByStep(t.run, t.call));
  }

  lemma {:induction false} NothingSelected(held: seq<Held>, key: Key)
    requires forall h :: h in held ==> h.key != key
    ensures Select(held, key) == [] && Without(held, key) == held
  {
    if held != [] {
      NothingSelected(held[1..], key);
    }
  }

  /** Nothing waits for a row that is already on screen. */
  lemma NothingWaitsFor(w: World, hosts: set<RunId>, shown: set<Row>, held: seq<Held>, row: Row)
    requires HeldOk(w, hosts, shown, [], held) && Core(row) in shown
    ensures forall t :: t in Drains(row) ==> Idle(held, t)
  {
  }

  lemma ReDrainIdle(w: World, s: State, s': State, row: Row, received: set<Row>)
    requires Inv(w, s, [], received) && Core(row) in Shown(s.runs) && s'.held == s.held
    ensures Work(s', Drains(row)) == s'
  {
    NothingWaitsFor(w, Hosts(s.runs), Shown(s.runs), s.held, row);
    IdleDrains(s', Drains(row));
  }

  /** A revision of an own prompt on screen releases no held draw: it takes its copy's
      place in its run, which moves to the front with the same totals. */
  lemma PromptRevision(w: World, s: State, p: Row, received: set<Row>)
    requires Inv(w, s, [], received) && Follows(w, p) && p.parent == None && Core(p) in Shown(s.runs)
    ensures HandleRow(s, p) == ShowPrompt(s, p)
    ensures FindRun(s.runs, p.runId) != -1 && HandleRow(s, p).runs != []
    ensures var before, after := s.runs[FindRun(s.runs, p.runId)], HandleRow(s, p).runs[0];
            && p in after.prompts && after.draws == before.draws
            && after.promptCount == before.promptCount && after.totalDuration == before.totalDuration
            && after.inTokens == before.inTokens && after.outTokens == before.outTokens
  {
    ReDrainIdle(w, s, ShowPrompt(s, p), p, received);
    var run, copy := OwnCopy(w, s.runs, p);
    RevisedTotals(w, run, p, copy);
    FrontIs(s, p);
  }

  lemma OwnCopy(w: World, runs: seq<RunView>, p: Row) returns (run: RunView, copy: Row)
    requires Structure(w, runs) && Core(p) in Shown(runs) && p.parent == None
    ensures FindRun(runs, p.runId) != -1 && run == runs[FindRun(runs, p.runId)] && run in runs
    ensures copy in run.prompts && copy.id == p.id
  {
    run, copy := ShownFrom(runs, Core(p));
    assert Core(copy).parent == copy.parent && Core(copy).runId == copy.runId && Core(copy).id == copy.id;
    assert Core(p).parent == p.parent && Core(p).runId == p.runId && Core(p).id == p.id;
    assert copy in run.prompts && run.runId == p.runId;
    RunIdDetermines(runs, run, runs[FindRun(runs, p.runId)]);
  }

  lemma FrontIs(s: State, p: Row)
    requires FindRun(s.runs, p.runId) != -1
    ensures ShowPrompt(s, p).runs[0] == WithPrompt(s.runs[FindRun(s.runs, p.runId)], p)
  {
    var i := FindRun(s.runs, p.runId);
    var changed := s.runs[i := WithPrompt(s.runs[i], p)];
    assert forall k :: 0 <= k < |changed| ==> changed[k].runId == s.runs[k].runId;
    assert FindRun(changed, p.runId) == i;
  }

  lemma RevisedTotals(w: World, run: RunView, p: Row, copy: Row)
    requires RunOk(w, run) && Follows(w, p) && copy in run.prompts && copy.id == p.id
    ensures var after := WithPrompt(run, p);
            && p in after.prompts && after.draws == run.draws
            && after.promptCount == run.promptCount && after.totalDuration == run.totalDuration
            && after.inTokens == run.inTokens && after.outTokens == run.outTokens
  {
    WithPromptCores(w, run, p);
    assert FindId(run.prompts, p.id) != -1;
  }

  /** A revision of a draw on screen releases no held draw either: it takes its copy's
      place under its host, which moves to the front. */
  lemma DrawRevision(w: World, s: State, draw: Row, received: set<Row>)
    requires Inv(w, s, [], received) && SupportedState(s) && Follows(w, draw) && draw.parent.Some?
    requires Core(draw) in Shown(s.runs)
    ensures FindContainer(s.runs, draw.parent.value).Some?
    ensures HandleRow(s, draw) == Place(s, FindContainer(s.runs, draw.parent.value).value.index, draw)
    ensures HandleRow(s, draw).runs != [] && draw in HandleRow(s, draw).runs[0].draws
  {
    ShownDrawPlaced(w, s, draw);
    var i := FindContainer(s.runs, draw.parent.value).value.index;
    WorkOne(s, Attach(draw));
    ReDrainIdle(w, s, Place(s, i, draw), draw, received);
    PlacedInFront(w, s, i, draw);
  }

  lemma ShownDrawPlaced(w: World, s: State, draw: Row)
    requires Structure(w, s.runs) && SupportedState(s) && draw.parent.Some? && Core(draw) in Shown(s.runs)
    ensures var c := FindContainer(s.runs, draw.parent.value); c.Some? && !WaitsForStep(c.value.rows, draw)
  {
    assert Core(draw).parent == draw.parent && Core(draw).anchor == draw.anchor;
    assert Ready(Hosts(s.runs), Shown(s.runs), Core(draw));
    FindContainerSome(w, s.runs, draw.parent.value);
    WaitsExactly(w, s.runs, draw);
  }

  lemma PlacedInFront(w: World, s: State, i: nat, draw: Row)
    requires Structure(w, s.runs) && i < |s.runs| && Follows(w, draw)
    ensures var s' := Place(s, i, draw); s'.runs != [] && draw in s'.runs[0].draws
  {
    var run := s.runs[i];
    assert run in s.runs;
    WithDrawCores(w, run, draw);
    ChangedInFront(s.runs, i, WithDraw(run, draw));
  }

  lemma ChangedInFront(runs: seq<RunView>, i: nat, run: RunView)
    requires DistinctRuns(runs) && i < |runs| && run.runId == runs[i].runId
    ensures MoveToFront(runs[i := run], run.runId) != [] && MoveToFront(runs[i := run], run.runId)[0] == run
  {
    var changed := runs[i := run];
    assert forall k :: 0 <= k < |changed| ==> changed[k].runId == runs[k].runId;
    assert FindRun(changed, run.runId) == i;
  }
}
