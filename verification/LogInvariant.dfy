/** What every reachable state of the run log keeps, between any two nested calls. */
module LogInvariant {
  import opened Options
  import opened Rows
  import opened DrawNesting
  import opened RunLog
  import opened LogStructure

  ghost predicate OnScreen(hosts: set<RunId>, shown: set<Row>, x: RunId) {
    x in hosts || HasRow(shown, x)
  }

  /** The draw's parent is on screen, and so is the step that it was made for. */
  ghost predicate Ready(hosts: set<RunId>, shown: set<Row>, draw: Row)
    requires draw.parent.Some?
  {
    && OnScreen(hosts, shown, draw.parent.value)
    && (draw.anchor.Some? ==> Dispatched(shown, draw.parent.value, draw.anchor.value))
  }

  /** Nothing is on screen that had to wait. */
  ghost predicate Supported(hosts: set<RunId>, shown: set<Row>) {
    forall row :: row in shown && row.parent.Some? ==> Ready(hosts, shown, row)
  }

  /** A held draw is held for what it lacks, unless the agenda is about to drain it:
      its parent has no row on screen, or its parent is there but not the step. */
  ghost predicate Waits(hosts: set<RunId>, shown: set<Row>, agenda: seq<Task>, held: Held) {
    match held.key
    case ByParent(p) =>
      && held.draw.parent == Some(p)
      && (HasRow(shown, p) ==> DrainParent(p) in agenda)
    case ByStep(x, c) =>
      && held.draw.parent == Some(x) && held.draw.anchor == Some(c)
      && OnScreen(hosts, shown, x)
      && (Dispatched(shown, x, c) ==> DrainStep(x, c) in agenda)
  }

  ghost function HeldCores(held: seq<Held>): set<Row> {
    set h | h in held :: Core(h.draw)
  }

  ghost function FlightCores(agenda: seq<Task>): set<Row> {
    set t | t in agenda && t.Attach? :: Core(t.draw)
  }

  ghost predicate HeldOk(w: World, hosts: set<RunId>, shown: set<Row>, agenda: seq<Task>, held: seq<Held>) {
    forall h :: h in held ==> Follows(w, h.draw) && Waits(hosts, shown, agenda, h)
  }

  ghost predicate FlightOk(w: World, agenda: seq<Task>) {
    forall t :: t in agenda && t.Attach? ==> Follows(w, t.draw) && t.draw.parent.Some?
  }

  /** The invariant, with the cores of all rows received so far. */
  ghost predicate Inv(w: World, s: State, agenda: seq<Task>, received: set<Row>) {
    && Structure(w, s.runs)
    && HeldOk(w, Hosts(s.runs), Shown(s.runs), agenda, s.held)
    && FlightOk(w, agenda)
    && received == Shown(s.runs) + HeldCores(s.held) + FlightCores(agenda)
  }

  // ---------- holding and releasing ----------

  lemma {:induction false} SelectWithout(held: seq<Held>, key: Key)
    ensures forall h :: h in Without(held, key) <==> h in held && h.key != key
    ensures forall draw :: draw in Select(held, key) <==> Held(key, draw) in held
  {
    if held != [] {
      SelectWithout(held[1..], key);
      assert held == [held[0]] + held[1..];
    }
  }

  function DrainOf(key: Key): Task {
    match key
    case ByParent(p) => DrainParent(p)
    case ByStep(x, c) => DrainStep(x, c)
  }

  /** A drain leaves nothing behind under its own key. */
  lemma ReleaseHeld(w: World, hosts: set<RunId>, shown: set<Row>, held: seq<Held>, key: Key, rest: seq<Task>)
    requires HeldOk(w, hosts, shown, [DrainOf(key)] + rest, held)
    ensures HeldOk(w, hosts, shown, AttachAll(Select(held, key)) + rest, Without(held, key))
  {
    SelectWithout(held, key);
    forall h | h in Without(held, key) ensures Waits(hosts, shown, AttachAll(Select(held, key)) + rest, h) {
      assert Waits(hosts, shown, [DrainOf(key)] + rest, h);
      assert DrainOf(h.key) != DrainOf(key);
      assert DrainOf(h.key) in [DrainOf(key)] + rest ==> DrainOf(h.key) in rest;
    }
  }

  lemma ReleaseFlight(w: World, hosts: set<RunId>, shown: set<Row>, held: seq<Held>, key: Key, rest: seq<Task>)
    requires HeldOk(w, hosts, shown, [DrainOf(key)] + rest, held) && FlightOk(w, [DrainOf(key)] + rest)
    ensures FlightOk(w, AttachAll(Select(held, key)) + rest)
  {
    SelectWithout(held, key);
    forall t | t in AttachAll(Select(held, key)) + rest && t.Attach?
      ensures Follows(w, t.draw) && t.draw.parent.Some?
    {
      if t in rest {
        assert t in [DrainOf(key)] + rest;
      } else {
        assert Held(key, t.draw) in held;
      }
    }
  }

  lemma ReleaseKeeps(w: World, s: State, key: Key, rest: seq<Task>, received: set<Row>)
    requires Inv(w, s, [DrainOf(key)] + rest, received)
    ensures Inv(w, Release(s, key).0, Release(s, key).1 + rest, received)
  {
    ReleaseHeld(w, Hosts(s.runs), Shown(s.runs), s.held, key, rest);
    ReleaseFlight(w, Hosts(s.runs), Shown(s.runs), s.held, key, rest);
    ReleaseCores(s.held, key, DrainOf(key), rest);
  }

  lemma ReleaseCores(held: seq<Held>, key: Key, task: Task, rest: seq<Task>)
    requires !task.Attach?
    ensures HeldCores(held) + FlightCores([task] + rest)
         == HeldCores(Without(held, key)) + FlightCores(AttachAll(Select(held, key)) + rest)
  {
    SelectWithout(held, key);
    var more := AttachAll(Select(held, key));
    FlightConcat([task], rest);
    FlightConcat(more, rest);
    forall h | h in held ensures Core(h.draw) in HeldCores(Without(held, key)) + FlightCores(more) {
      if h.key == key {
        assert Attach(h.draw) in more;
      }
    }
    forall t | t in more ensures Core(t.draw) in HeldCores(held) {
      assert Held(key, t.draw) in held;
    }
  }

  lemma FlightConcat(a: seq<Task>, b: seq<Task>)
    ensures FlightCores(a + b) == FlightCores(a) + FlightCores(b)
  {
  }

  lemma HeldOkAgenda(w: World, hosts: set<RunId>, shown: set<Row>, draw: Row, rest: seq<Task>, held: seq<Held>)
    requires HeldOk(w, hosts, shown, [Attach(draw)] + rest, held)
    ensures HeldOk(w, hosts, shown, rest, held)
  {
    assert forall t :: t in [Attach(draw)] + rest && !t.Attach? ==> t in rest;
  }

  lemma HeldCoresAppend(held: seq<Held>, h: Held)
    ensures HeldCores(held + [h]) == HeldCores(held) + {Core(h.draw)}
  {
    assert forall g :: g in held + [h] <==> g in held || g == h;
  }

  lemma HoldKeeps(w: World, s: State, key: Key, draw: Row, rest: seq<Task>, received: set<Row>)
    requires Inv(w, s, rest, received) && Follows(w, draw)
    requires Waits(Hosts(s.runs), Shown(s.runs), rest, Held(key, draw))
    ensures Inv(w, Hold(s, key, draw), rest, received + {Core(draw)})
  {
    HeldCoresAppend(s.held, Held(key, draw));
    assert forall g :: g in Hold(s, key, draw).held <==> g in s.held || g == Held(key, draw);
  }

  // ---------- a row comes on screen ----------

  lemma ShowHeld(w: World, hosts: set<RunId>, shown: set<Row>, hosts': set<RunId>, row: Row,
                 rest: seq<Task>, held: seq<Held>)
    requires HeldOk(w, hosts, shown, rest, held) && hosts <= hosts'
    ensures HeldOk(w, hosts', shown + {Core(row)}, Drains(row) + rest, held)
  {
  }

  lemma DrainsFlight(w: World, row: Row, rest: seq<Task>)
    requires FlightOk(w, rest)
    ensures FlightOk(w, Drains(row) + rest) && FlightCores(Drains(row) + rest) == FlightCores(rest)
  {
  }

  /** The common part of placing a draw and showing an own prompt: the new row is drained. */
  lemma ShowKeeps(w: World, s: State, s': State, row: Row, rest: seq<Task>, received: set<Row>)
    requires Inv(w, s, rest, received)
    requires Structure(w, s'.runs) && s'.held == s.held
    requires Hosts(s.runs) <= Hosts(s'.runs) && Shown(s'.runs) == Shown(s.runs) + {Core(row)}
    ensures Inv(w, s', Drains(row) + rest, received + {Core(row)})
  {
    ShowHeld(w, Hosts(s.runs), Shown(s.runs), Hosts(s'.runs), row, rest, s.held);
    DrainsFlight(w, row, rest);
  }

  lemma PlaceStructure(w: World, s: State, draw: Row)
    requires Structure(w, s.runs) && Follows(w, draw) && draw.parent.Some?
    requires FindContainer(s.runs, draw.parent.value).Some?
    ensures var s' := Place(s, FindContainer(s.runs, draw.parent.value).value.index, draw);
            && Structure(w, s'.runs)
            && Hosts(s'.runs) == Hosts(s.runs)
            && Shown(s'.runs) == Shown(s.runs) + {Core(draw)}
  {
    var c := FindContainer(s.runs, draw.parent.value).value;
    var run := s.runs[c.index];
    assert run in s.runs;
    if run.runId != draw.parent.value {
      assert c.rows[0] in run.draws;
    }
    WithDrawKeeps(w, run, draw);
    WithDrawCores(w, run, draw);
    ReplaceKeeps(w, s.runs, c.index, WithDraw(run, draw), Core(draw));
  }

  lemma ReplaceKeeps(w: World, runs: seq<RunView>, i: nat, run: RunView, core: Row)
    requires i < |runs| && Structure(w, runs) && RunOk(w, run) && run.runId == runs[i].runId
    requires Cores(AllRows(run)) == Cores(AllRows(runs[i])) + {core}
    ensures var runs' := MoveToFront(runs[i := run], run.runId);
            Structure(w, runs') && Hosts(runs') == Hosts(runs) && Shown(runs') == Shown(runs) + {core}
  {
    UpdateStructure(w, runs, i, run);
    assert forall k :: 0 <= k < |runs| && k != i ==> runs[k].runId != runs[i].runId;
    UpdateShown(runs, i, run, core);
    MoveToFrontKeeps(w, runs[i := run], run.runId);
  }

  lemma PlaceKeeps(w: World, s: State, draw: Row, rest: seq<Task>, received: set<Row>)
    requires Inv(w, s, rest, received) && Follows(w, draw) && draw.parent.Some?
    requires FindContainer(s.runs, draw.parent.value).Some?
    ensures var s' := Place(s, FindContainer(s.runs, draw.parent.value).value.index, draw);
            && Inv(w, s', Drains(draw) + rest, received + {Core(draw)})
            && Hosts(s'.runs) == Hosts(s.runs)
            && Shown(s'.runs) == Shown(s.runs) + {Core(draw)}
  {
    PlaceStructure(w, s, draw);
    var s' := Place(s, FindContainer(s.runs, draw.parent.value).value.index, draw);
    ShowKeeps(w, s, s', draw, rest, received);
  }

  /** What is left to say of the rest of the agenda once a draw is taken from its head. */
  lemma DropAttach(w: World, s: State, draw: Row, rest: seq<Task>, received: set<Row>) returns (before: set<Row>)
    requires Inv(w, s, [Attach(draw)] + rest, received)
    ensures Inv(w, s, rest, before)
    ensures received == before + {Core(draw)}
    ensures Follows(w, draw) && draw.parent.Some?
  {
    before := Shown(s.runs) + HeldCores(s.held) + FlightCores(rest);
    HeldOkAgenda(w, Hosts(s.runs), Shown(s.runs), draw, rest, s.held);
    DropFlight(w, draw, rest);
  }

  lemma DropFlight(w: World, draw: Row, rest: seq<Task>)
    requires FlightOk(w, [Attach(draw)] + rest)
    ensures FlightOk(w, rest) && Follows(w, draw) && draw.parent.Some?
    ensures FlightCores([Attach(draw)] + rest) == FlightCores(rest) + {Core(draw)}
  {
  }

  // ---------- one item, and the whole recursion ----------

  lemma DoKeeps(w: World, s: State, t: Task, rest: seq<Task>, received: set<Row>)
    requires Inv(w, s, [t] + rest, received)
    ensures Inv(w, Do(s, t).0, Do(s, t).1 + rest, received)
    ensures Supported(Hosts(s.runs), Shown(s.runs)) ==> Supported(Hosts(Do(s, t).0.runs), Shown(Do(s, t).0.runs))
    ensures Hosts(Do(s, t).0.runs) == Hosts(s.runs) && Shown(s.runs) <= Shown(Do(s, t).0.runs)
  {
    match t
    case DrainParent(x) => ReleaseKeeps(w, s, ByParent(x), rest, received);
    case DrainStep(x, c) => ReleaseKeeps(w, s, ByStep(x, c), rest, received);
    case Attach(draw) =>
      var before := DropAttach(w, s, draw, rest, received);
      AttachKeeps(w, s, draw, rest, before);
  }

  lemma AttachKeeps(w: World, s: State, draw: Row, rest: seq<Task>, before: set<Row>)
    requires Inv(w, s, rest, before) && Follows(w, draw) && draw.parent.Some?
    ensures var s', more := Do(s, Attach(draw)).0, Do(s, Attach(draw)).1;
            && Inv(w, s', more + rest, before + {Core(draw)})
            && (Supported(Hosts(s.runs), Shown(s.runs)) ==> Supported(Hosts(s'.runs), Shown(s'.runs)))
            && Hosts(s'.runs) == Hosts(s.runs) && Shown(s.runs) <= Shown(s'.runs)
  {
    var c := FindContainer(s.runs, draw.parent.value);
    assert [] + rest == rest;
    if c.None? {
      HoldByParentKeeps(w, s, draw, rest, before);
    } else if WaitsForStep(c.value.rows, draw) {
      HoldByStepKeeps(w, s, draw, rest, before);
    } else {
      PlaceKeeps(w, s, draw, rest, before);
      WaitsExactly(w, s.runs, draw);
      SupportedGrows(Hosts(s.runs), Shown(s.runs), Hosts(s.runs), draw);
    }
  }

  lemma HoldByParentKeeps(w: World, s: State, draw: Row, rest: seq<Task>, before: set<Row>)
    requires Inv(w, s, rest, before) && Follows(w, draw) && draw.parent.Some?
    requires FindContainer(s.runs, draw.parent.value).None?
    ensures Inv(w, Hold(s, KeyOf(draw, false), draw), rest, before + {Core(draw)})
  {
    FindContainerSome(w, s.runs, draw.parent.value);
    HoldKeeps(w, s, KeyOf(draw, false), draw, rest, before);
  }

  lemma HoldByStepKeeps(w: World, s: State, draw: Row, rest: seq<Task>, before: set<Row>)
    requires Inv(w, s, rest, before) && Follows(w, draw) && draw.parent.Some?
    requires FindContainer(s.runs, draw.parent.value).Some?
    requires WaitsForStep(FindContainer(s.runs, draw.parent.value).value.rows, draw)
    ensures Inv(w, Hold(s, KeyOf(draw, true), draw), rest, before + {Core(draw)})
  {
    WaitsExactly(w, s.runs, draw);
    HoldKeeps(w, s, KeyOf(draw, true), draw, rest, before);
  }

  /** The code's test for a missing step, in terms of the rows on screen. */
  lemma WaitsExactly(w: World, runs: seq<RunView>, draw: Row)
    requires Structure(w, runs) && draw.parent.Some? && FindContainer(runs, draw.parent.value).Some?
    ensures OnScreen(Hosts(runs), Shown(runs), draw.parent.value)
    ensures WaitsForStep(FindContainer(runs, draw.parent.value).value.rows, draw)
       <==> draw.anchor.Some? && !Dispatched(Shown(runs), draw.parent.value, draw.anchor.value)
  {
    FindContainerSome(w, runs, draw.parent.value);
    if draw.anchor.Some? {
      ContainerDispatches(w, runs, draw.parent.value, draw.anchor.value);
    }
  }

  lemma SupportedGrows(hosts: set<RunId>, shown: set<Row>, hosts': set<RunId>, row: Row)
    requires hosts <= hosts'
    requires row.parent.Some? ==> Ready(hosts, shown, row)
    ensures Supported(hosts, shown) ==> Supported(hosts', shown + {Core(row)})
  {
  }

  /** Whatever is on the agenda, the recursion keeps the invariant. */
  lemma {:induction false} WorkKeeps(w: World, s: State, agenda: seq<Task>, received: set<Row>)
    requires Inv(w, s, agenda, received)
    ensures Inv(w, Work(s, agenda), [], received)
    ensures Supported(Hosts(s.runs), Shown(s.runs))
        ==> Supported(Hosts(Work(s, agenda).runs), Shown(Work(s, agenda).runs))
    ensures Hosts(Work(s, agenda).runs) == Hosts(s.runs) && Shown(s.runs) <= Shown(Work(s, agenda).runs)
    decreases |s.held| + |InFlight(agenda)|, |agenda| - |InFlight(agenda)|, |InFlight(agenda)|
  {
    if agenda != [] {
      assert agenda == [agenda[0]] + agenda[1..];
      DoKeeps(w, s, agenda[0], agenda[1..], received);
      DoDecreases(s, agenda);
      InFlightLength(agenda);
      WorkKeeps(w, Do(s, agenda[0]).0, Do(s, agenda[0]).1 + agenda[1..], received);
    }
  }

  // ---------- one message ----------

  lemma ShowPromptStructure(w: World, s: State, p: Row)
    requires Structure(w, s.runs) && Follows(w, p) && p.parent == None
    ensures var s' := ShowPrompt(s, p);
            && Structure(w, s'.runs)
            && Hosts(s'.runs) == Hosts(s.runs) + {p.runId}
            && Shown(s'.runs) == Shown(s.runs) + {Core(p)}
  {
    hide RunOk;
    var i := FindRun(s.runs, p.runId);
    if i == -1 {
      NewRunOk(w, p);
      ConsKeeps(w, s.runs, NewRun(p));
    } else {
      var run := s.runs[i];
      assert run in s.runs;
      WithPromptKeeps(w, run, p);
      WithPromptCores(w, run, p);
      ReplaceKeeps(w, s.runs, i, WithPrompt(run, p), Core(p));
    }
  }

  ghost predicate SupportedState(s: State) {
    Supported(Hosts(s.runs), Shown(s.runs))
  }

  ghost function OwnRun(row: Row): set<RunId> {
    if row.parent == None then {row.runId} else {}
  }

  /** Every logged row keeps the invariant and is, from then on, accounted for. */
  lemma HandleRowKeeps(w: World, s: State, row: Row, received: set<Row>)
    requires Inv(w, s, [], received) && Follows(w, row)
    ensures Inv(w, HandleRow(s, row), [], received + {Core(row)})
    ensures SupportedState(s) ==> SupportedState(HandleRow(s, row))
    ensures Hosts(HandleRow(s, row).runs) == Hosts(s.runs) + OwnRun(row)
    ensures Shown(s.runs) <= Shown(HandleRow(s, row).runs)
    ensures row.parent == None ==> Core(row) in Shown(HandleRow(s, row).runs)
  {
    hide Inv, HandleRow, SupportedState, Hosts, Shown, Core;
    if row.parent.Some? {
      HandleDrawKeeps(w, s, row, received);
    } else {
      HandlePromptKeeps(w, s, row, received);
    }
  }

  lemma HandleDrawKeeps(w: World, s: State, row: Row, received: set<Row>)
    requires Inv(w, s, [], received) && Follows(w, row) && row.parent.Some?
    ensures Inv(w, HandleRow(s, row), [], received + {Core(row)})
    ensures SupportedState(s) ==> SupportedState(HandleRow(s, row))
    ensures Hosts(HandleRow(s, row).runs) == Hosts(s.runs)
    ensures Shown(s.runs) <= Shown(HandleRow(s, row).runs)
  {
    AddAttach(w, s, row, received);
    WorkKeeps(w, s, [Attach(row)], received + {Core(row)});
  }

  lemma HandlePromptKeeps(w: World, s: State, row: Row, received: set<Row>)
    requires Inv(w, s, [], received) && Follows(w, row) && row.parent == None
    ensures Inv(w, HandleRow(s, row), [], received + {Core(row)})
    ensures SupportedState(s) ==> SupportedState(HandleRow(s, row))
    ensures Hosts(HandleRow(s, row).runs) == Hosts(s.runs) + {row.runId}
    ensures Shown(s.runs) + {Core(row)} <= Shown(HandleRow(s, row).runs)
  {
    hide Structure, Work;
    var s' := ShowPrompt(s, row);
    ShowPromptStructure(w, s, row);
    ShowKeeps(w, s, s', row, [], received);
    SupportedGrows(Hosts(s.runs), Shown(s.runs), Hosts(s'.runs), row);
    assert Drains(row) + [] == Drains(row);
    WorkKeeps(w, s', Drains(row), received + {Core(row)});
  }

  lemma AddAttach(w: World, s: State, row: Row, received: set<Row>)
    requires Inv(w, s, [], received) && Follows(w, row) && row.parent.Some?
    ensures Inv(w, s, [Attach(row)], received + {Core(row)})
  {
    var agenda := [Attach(row)];
    assert forall t :: t in agenda <==> t == Attach(row);
    assert FlightCores(agenda) == {Core(row)};
    forall h | h in s.held ensures Waits(Hosts(s.runs), Shown(s.runs), agenda, h) {
      assert Waits(Hosts(s.runs), Shown(s.runs), [], h);
    }
  }

  /** A shell adds a host and nothing else; nothing is drained, and nothing needs to be. */
  lemma StartRunKeeps(w: World, s: State, x: RunId, startedAt: int, received: set<Row>)
    requires Inv(w, s, [], received) && w.parentOf(x) == None
    ensures Inv(w, StartRun(s, x, startedAt), [], received)
    ensures SupportedState(s) ==> SupportedState(StartRun(s, x, startedAt))
    ensures Hosts(StartRun(s, x, startedAt).runs) == Hosts(s.runs) + {x}
    ensures Shown(StartRun(s, x, startedAt).runs) == Shown(s.runs)
  {
    StartRunStructure(w, s, x, startedAt);
    HeldOkHosts(w, Hosts(s.runs), Hosts(s.runs) + {x}, Shown(s.runs), s.held);
  }

  lemma HeldOkHosts(w: World, hosts: set<RunId>, hosts': set<RunId>, shown: set<Row>, held: seq<Held>)
    requires HeldOk(w, hosts, shown, [], held) && hosts <= hosts'
    ensures HeldOk(w, hosts', shown, [], held)
  {
  }

  lemma StartRunStructure(w: World, s: State, x: RunId, startedAt: int)
    requires Structure(w, s.runs) && w.parentOf(x) == None
    ensures var s' := StartRun(s, x, startedAt);
            && Structure(w, s'.runs)
            && Hosts(s'.runs) == Hosts(s.runs) + {x}
            && Shown(s'.runs) == Shown(s.runs)
  {
    hide RunOk;
    var i := FindRun(s.runs, x);
    if i == -1 {
      ShellOk(w, x, startedAt);
      ConsKeeps(w, s.runs, Shell(x, startedAt));
    } else {
      assert s.runs[i] in s.runs;
      MoveToFrontKeeps(w, s.runs, x);
    }
  }

  lemma ShellOk(w: World, x: RunId, startedAt: int)
    requires w.parentOf(x) == None
    ensures RunOk(w, Shell(x, startedAt)) && Cores(AllRows(Shell(x, startedAt))) == {}
  {
    assert AllRows(Shell(x, startedAt)) == [];
  }

  lemma FinishKeeps(w: World, s: State, x: RunId, outcome: string, reason: string, received: set<Row>)
    requires Inv(w, s, [], received)
    ensures Inv(w, Finish(s, x, outcome, reason), [], received)
    ensures SupportedState(s) ==> SupportedState(Finish(s, x, outcome, reason))
    ensures Hosts(Finish(s, x, outcome, reason).runs) == Hosts(s.runs)
    ensures Shown(Finish(s, x, outcome, reason).runs) == Shown(s.runs)
  {
    var i := FindRun(s.runs, x);
    if i != -1 {
      var run := s.runs[i].(outcome := Some(outcome), reason := Some(reason));
      assert s.runs[i] in s.runs;
      assert AllRows(run) == AllRows(s.runs[i]);
      UpdateStructure(w, s.runs, i, run);
      UpdateSameRows(s.runs, i, run);
      MoveToFrontKeeps(w, s.runs[i := run], x);
    }
  }

  lemma UpdateSameRows(runs: seq<RunView>, i: nat, run: RunView)
    requires i < |runs| && AllRows(run) == AllRows(runs[i])
    ensures Shown(runs[i := run]) == Shown(runs)
  {
    UpdateMembers(runs, i, run);
    assert runs[i] in runs;
    forall row | row in Shown(runs) ensures row in Shown(runs[i := run]) {
      var other :| other in runs && row in Cores(AllRows(other));
      assert row in Cores(AllRows(if other == runs[i] then run else other));
    }
  }
}
