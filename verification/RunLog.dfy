/** The live run log of browser/src/page/prompts.ts as a function of its state: what
    each handler leaves on screen and what it leaves waiting.  The recursion of
    `attachDraw` and `drainWaitingOn` is unrolled into one list of pending items, so
    that a state between two nested calls is a state and an agenda.  The class in
    PromptsTab.dfy is proved to compute these functions. */
module RunLog {
  import opened Options
  import opened Rows
  import opened DrawNesting

  /** What a held draw waits for: a row of its parent run, or one tool call of it. */
  datatype Key = ByParent(run: RunId) | ByStep(run: RunId, call: CallId)

  datatype Held = Held(key: Key, draw: Row)

  /** The runs on screen, front first, and the held draws in the order they were held. */
  datatype State = State(runs: seq<RunView>, held: seq<Held>)

  datatype Container = Container(index: nat, rows: seq<Row>)

  // ---------- finding a container ----------

  function RowsOf(draws: seq<Row>, x: RunId): (rows: seq<Row>)
    ensures forall row :: row in rows <==> row in draws && row.runId == x
  {
    if draws == [] then []
    else
      assert draws == [draws[0]] + draws[1..];
      (if draws[0].runId == x then [draws[0]] else []) + RowsOf(draws[1..], x)
  }

  /** The rows that `x` names in one run: its own prompts, or the draws of that id. */
  function ContainedIn(run: RunView, x: RunId): Option<seq<Row>> {
    if run.runId == x then Some(run.prompts)
    else if RowsOf(run.draws, x) != [] then Some(RowsOf(run.draws, x))
    else None
  }

  function FindContainer(runs: seq<RunView>, x: RunId, from: nat := 0): (c: Option<Container>)
    requires from <= |runs|
    ensures c.Some? ==>
              from <= c.value.index < |runs| && ContainedIn(runs[c.value.index], x) == Some(c.value.rows)
    decreases |runs| - from
  {
    if from == |runs| then None
    else if ContainedIn(runs[from], x).Some? then Some(Container(from, ContainedIn(runs[from], x).value))
    else FindContainer(runs, x, from + 1)
  }

  /** The id is the run's own or one of its draws'. */
  predicate NamedIn(run: RunView, x: RunId) {
    run.runId == x || exists draw :: draw in run.draws && draw.runId == x
  }

  lemma ContainedExactly(run: RunView, x: RunId)
    ensures ContainedIn(run, x).Some? <==> NamedIn(run, x)
  {
    if RowsOf(run.draws, x) != [] {
      assert RowsOf(run.draws, x)[0] in RowsOf(run.draws, x);
    }
  }

  /** The search finds the first run that has rows for `x`, if any run has. */
  lemma {:induction false} FindContainerFirst(runs: seq<RunView>, x: RunId, from: nat)
    requires from <= |runs|
    ensures var c := FindContainer(runs, x, from);
            && (forall k :: from <= k < (if c.Some? then c.value.index else |runs|) ==> !NamedIn(runs[k], x))
            && (c.Some? ==>
                  var run := runs[c.value.index];
                  && NamedIn(run, x) && (run.runId == x ==> c.value.rows == run.prompts)
                  && (run.runId != x ==> forall row :: row in c.value.rows <==> row in run.draws && row.runId == x))
    decreases |runs| - from
  {
    if from < |runs| {
      ContainedExactly(runs[from], x);
      if ContainedIn(runs[from], x).None? {
        FindContainerFirst(runs, x, from + 1);
      }
    }
  }

  // ---------- the held draws ----------

  function Select(held: seq<Held>, key: Key): seq<Row> {
    if held == [] then []
    else (if held[0].key == key then [held[0].draw] else []) + Select(held[1..], key)
  }

  lemma SelectCons(h: Held, rest: seq<Held>, key: Key)
    ensures Select([h] + rest, key) == (if h.key == key then [h.draw] else []) + Select(rest, key)
  {
    assert ([h] + rest)[1..] == rest;
  }

  function Without(held: seq<Held>, key: Key): (rest: seq<Held>)
    ensures |rest| + |Select(held, key)| == |held|
  {
    if held == [] then []
    else (if held[0].key == key then [] else [held[0]]) + Without(held[1..], key)
  }

  // ---------- the agenda ----------

  datatype Task = Attach(draw: Row) | DrainParent(run: RunId) | DrainStep(run: RunId, call: CallId)

  function InFlight(agenda: seq<Task>): seq<Row> {
    if agenda == [] then []
    else (if agenda[0].Attach? then [agenda[0].draw] else []) + InFlight(agenda[1..])
  }

  function AttachAll(draws: seq<Row>): (tasks: seq<Task>)
    ensures |tasks| == |draws|
    ensures forall t :: t in tasks <==> t.Attach? && t.draw in draws
  {
    if draws == [] then []
    else
      assert draws == [draws[0]] + draws[1..];
      [Attach(draws[0])] + AttachAll(draws[1..])
  }

  function DrainSteps(x: RunId, calls: seq<CallId>): (tasks: seq<Task>)
    ensures |tasks| == |calls|
    ensures forall t :: t in tasks <==> t.DrainStep? && t.run == x && t.call in calls
  {
    if calls == [] then []
    else
      assert calls == [calls[0]] + calls[1..];
      [DrainStep(x, calls[0])] + DrainSteps(x, calls[1..])
  }

  /** `drainWaitingOn`: first what waits for the arrived row's run, then what waits for
      each of the row's own tool calls. */
  function Drains(arrived: Row): seq<Task> {
    [DrainParent(arrived.runId)] + DrainSteps(arrived.runId, ToolCallIds(arrived))
  }

  // ---------- one item of the agenda ----------

  function KeyOf(draw: Row, parentShown: bool): Key
    requires draw.parent.Some? && (parentShown ==> draw.anchor.Some?)
  {
    if parentShown then ByStep(draw.parent.value, draw.anchor.value) else ByParent(draw.parent.value)
  }

  function Hold(s: State, key: Key, draw: Row): State {
    s.(held := s.held + [Held(key, draw)])
  }

  function WithDraw(run: RunView, draw: Row): RunView {
    ApplyTiming(run.(draws := Upsert(run.draws, draw)))
  }

  /** The draw joins its host, whose window is recomputed and which moves to the front. */
  function Place(s: State, i: nat, draw: Row): State
    requires i < |s.runs|
  {
    var run := WithDraw(s.runs[i], draw);
    s.(runs := MoveToFront(s.runs[i := run], run.runId))
  }

  /** Whether the draw has to wait for its step. */
  predicate WaitsForStep(rows: seq<Row>, draw: Row) {
    draw.anchor.Some? && !AnyDispatches(rows, draw.anchor.value)
  }

  function Release(s: State, key: Key): (State, seq<Task>) {
    (s.(held := Without(s.held, key)), AttachAll(Select(s.held, key)))
  }

  /** One item, and the items that a recursive call would work off before its caller goes on. */
  function Do(s: State, t: Task): (State, seq<Task>) {
    match t
    case DrainParent(x) => Release(s, ByParent(x))
    case DrainStep(x, c) => Release(s, ByStep(x, c))
    case Attach(draw) =>
      if draw.parent == None then (s, [])
      else
        var c := FindContainer(s.runs, draw.parent.value);
        if c.None? then (Hold(s, KeyOf(draw, false), draw), [])
        else if WaitsForStep(c.value.rows, draw) then (Hold(s, KeyOf(draw, true), draw), [])
        else (Place(s, c.value.index, draw), Drains(draw))
  }

  lemma {:induction false} InFlightConcat(a: seq<Task>, b: seq<Task>)
    ensures InFlight(a + b) == InFlight(a) + InFlight(b)
  {
    if a == [] {
      assert a + b == b;
    } else {
      assert (a + b)[0] == a[0] && (a + b)[1..] == a[1..] + b;
      InFlightConcat(a[1..], b);
      Regroup(if a[0].Attach? then [a[0].draw] else [], InFlight(a[1..]), InFlight(b));
    }
  }

  lemma {:induction false} InFlightAttachAll(draws: seq<Row>)
    ensures InFlight(AttachAll(draws)) == draws
  {
    if draws != [] {
      InFlightAttachAll(draws[1..]);
      assert AttachAll(draws)[1..] == AttachAll(draws[1..]);
    }
  }

  lemma {:induction false} InFlightDrainSteps(x: RunId, calls: seq<CallId>)
    ensures InFlight(DrainSteps(x, calls)) == []
  {
    if calls != [] {
      InFlightDrainSteps(x, calls[1..]);
      assert DrainSteps(x, calls)[1..] == DrainSteps(x, calls[1..]);
    }
  }

  lemma InFlightDrains(row: Row)
    ensures InFlight(Drains(row)) == []
  {
    InFlightDrainSteps(row.runId, ToolCallIds(row));
    assert Drains(row)[1..] == DrainSteps(row.runId, ToolCallIds(row));
  }

  /** An item never leaves more draws held and in flight together, and placing a draw leaves
      fewer. */
  lemma DoProgress(s: State, t: Task)
    ensures var (s', more) := Do(s, t);
            && |s'.held| + |InFlight(more)| <= |s.held| + |InFlight([t])|
            && (t.Attach? && more != [] ==> |s'.held| + |InFlight(more)| < |s.held| + |InFlight([t])|)
            && |more| - |InFlight(more)| >= 0
            && (!t.Attach? ==> |more| == |InFlight(more)|)
  {
    match t
    case DrainParent(x) => InFlightAttachAll(Select(s.held, ByParent(x)));
    case DrainStep(x, c) => InFlightAttachAll(Select(s.held, ByStep(x, c)));
    case Attach(draw) => InFlightDrains(draw);
  }

  lemma {:induction false} InFlightLength(agenda: seq<Task>)
    ensures |InFlight(agenda)| <= |agenda|
  {
    if agenda != [] {
      InFlightLength(agenda[1..]);
    }
  }

  lemma DoDecreases(s: State, agenda: seq<Task>)
    requires agenda != []
    ensures var (s', more) := Do(s, agenda[0]);
            var n, n' := |s.held| + |InFlight(agenda)|, |s'.held| + |InFlight(more + agenda[1..])|;
            var d, d' := |agenda| - |InFlight(agenda)|, |more + agenda[1..]| - |InFlight(more + agenda[1..])|;
            && 0 <= d' && n' <= n
            && (n' < n || d' < d || (d' == d && |InFlight(more + agenda[1..])| < |InFlight(agenda)|))
  {
    var (s', more) := Do(s, agenda[0]);
    DoProgress(s, agenda[0]);
    InFlightConcat([agenda[0]], agenda[1..]);
    assert agenda == [agenda[0]] + agenda[1..];
    InFlightConcat(more, agenda[1..]);
    InFlightLength(more + agenda[1..]);
  }

  /** The whole recursion: the first item, then what it gave rise to, then the rest.
      It ends although drained draws may be held again: an item that places a draw leaves
      fewer draws held or in flight, a drain leaves fewer drains, a hold less in flight. */
  function Work(s: State, agenda: seq<Task>): State
    decreases |s.held| + |InFlight(agenda)|, |agenda| - |InFlight(agenda)|, |InFlight(agenda)|
  {
    if agenda == [] then s
    else
      var (s', more) := Do(s, agenda[0]);
      DoDecreases(s, agenda);
      InFlightLength(agenda);
      Work(s', more + agenda[1..])
  }

  /** A recursive call that returns before its caller goes on does the same work. */
  lemma {:induction false} WorkConcat(s: State, a: seq<Task>, b: seq<Task>)
    ensures Work(s, a + b) == Work(Work(s, a), b)
    decreases |s.held| + |InFlight(a)|, |a| - |InFlight(a)|, |InFlight(a)|
  {
    if a == [] {
      assert a + b == b;
    } else {
      var s', more := Do(s, a[0]).0, Do(s, a[0]).1;
      assert more + (a + b)[1..] == (more + a[1..]) + b;
      DoDecreases(s, a);
      InFlightLength(a);
      WorkConcat(s', more + a[1..], b);
    }
  }

  lemma WorkOne(s: State, t: Task)
    ensures Work(s, [t]) == Work(Do(s, t).0, Do(s, t).1)
  {
    assert Do(s, t).1 + [t][1..] == Do(s, t).1;
  }

  // ---------- own prompts ----------

  function NewRun(p: Row): RunView {
    RunView(p.runId, 1, StartedAt(p), p.endedAt, p.duration, p.endedAt - StartedAt(p),
            p.inTokens, p.outTokens, None, None, [p], [])
  }

  /** `updateExistingRun` up to the window: a revision replaces its copy and moves no total. */
  function BeforeTiming(run: RunView, p: Row): RunView {
    var prompts := Upsert(run.prompts, p);
    var appended := FindId(run.prompts, p.id) == -1;
    run.(
      prompts := prompts,
      promptCount := |prompts|,
      totalDuration := run.totalDuration + if appended then p.duration else 0,
      inTokens := run.inTokens + if appended then p.inTokens else 0,
      outTokens := run.outTokens + if appended then p.outTokens else 0)
  }

  function WithPrompt(run: RunView, p: Row): RunView {
    ApplyTiming(BeforeTiming(run, p))
  }

  /** The screen just after an own prompt, before what waited for it is drained. */
  function ShowPrompt(s: State, p: Row): State {
    var i := FindRun(s.runs, p.runId);
    if i == -1 then s.(runs := [NewRun(p)] + s.runs)
    else s.(runs := MoveToFront(s.runs[i := WithPrompt(s.runs[i], p)], p.runId))
  }

  /** `handlePromptUpdate` on the runs and the held draws. */
  function HandleRow(s: State, row: Row): State {
    if row.parent.Some? then Work(s, [Attach(row)])
    else Work(ShowPrompt(s, row), Drains(row))
  }

  // ---------- runs that have no row yet, and outcomes ----------

  function Shell(x: RunId, startedAt: int): RunView {
    RunView(x, 0, startedAt, startedAt, 0, 0, 0, 0, None, None, [], [])
  }

  /** `handleCallStarted` for a run's own call: an existing run comes to the front, a new
      one gets an empty shell.  Nothing is drained. */
  function StartRun(s: State, x: RunId, startedAt: int): State {
    if FindRun(s.runs, x) == -1 then s.(runs := [Shell(x, startedAt)] + s.runs)
    else s.(runs := MoveToFront(s.runs, x))
  }

  /** `handleRunOutcome` on the runs. */
  function Finish(s: State, x: RunId, outcome: string, reason: string): State {
    var i := FindRun(s.runs, x);
    if i == -1 then s
    else s.(runs := MoveToFront(s.runs[i := s.runs[i].(outcome := Some(outcome), reason := Some(reason))], x))
  }
}
