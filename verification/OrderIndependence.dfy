/** Two streams of messages that bring the same rows leave the same screen, and every
    row they bring is in exactly one place. */
module OrderIndependence {
  import opened Options
  import opened Rows
  import opened RunLog
  import opened LogStructure
  import opened LogInvariant
  import opened LeastClosure

  // ---------- where a held draw is held ----------

  ghost function HeldPlaces(s: State): set<(Key, Row)> {
    set h | h in s.held :: (h.key, Core(h.draw))
  }

  /** What a draw that is not on screen lacks: its parent, or the step in its parent. */
  ghost function Lacks(shown: set<Row>, draw: Row): Key
    requires draw.parent.Some?
  {
    if HasRow(shown, draw.parent.value) && draw.anchor.Some?
    then ByStep(draw.parent.value, draw.anchor.value)
    else ByParent(draw.parent.value)
  }

  /** Unless its own parent is an unlogged run, a received row is on screen or held, not
      both, and held under one key only, the one that names what it lacks. */
  lemma HeldExactly(w: World, s: State, received: set<Row>, row: Row)
    requires Inv(w, s, [], received) && SupportedState(s) && row in received
    requires row.parent.Some? && row.parent.value in Hosts(s.runs) ==> HasRow(Shown(s.runs), row.parent.value)
    ensures row !in Shown(s.runs) ==> row.parent.Some?
    ensures forall key :: (key, row) in HeldPlaces(s) <==>
                            row !in Shown(s.runs) && key == Lacks(Shown(s.runs), row)
  {
    assert FlightCores([]) == {};
    forall h | h in s.held && Core(h.draw) == row ensures row !in Shown(s.runs) && h.key == Lacks(Shown(s.runs), row) {
      HeldIsNotShown(w, s, received, h);
    }
    if row !in Shown(s.runs) {
      var h :| h in s.held && Core(h.draw) == row;
      HeldIsNotShown(w, s, received, h);
      assert (h.key, Core(h.draw)) in HeldPlaces(s);
    }
  }

  lemma HeldIsNotShown(w: World, s: State, received: set<Row>, h: Held)
    requires Inv(w, s, [], received) && SupportedState(s) && h in s.held
    requires h.draw.parent.Some? && h.draw.parent.value in Hosts(s.runs) ==>
               HasRow(Shown(s.runs), h.draw.parent.value)
    ensures Core(h.draw) !in Shown(s.runs)
    ensures h.draw.parent.Some? && h.key == Lacks(Shown(s.runs), Core(h.draw))
  {
    assert Waits(Hosts(s.runs), Shown(s.runs), [], h);
    assert Core(h.draw).parent == h.draw.parent && Core(h.draw).anchor == h.draw.anchor;
  }

  /** So the screen says where everything else is held, when no draw names an unlogged run. */
  lemma HeldFromScreen(w: World, s: State, received: set<Row>)
    requires Inv(w, s, [], received) && SupportedState(s) && ShellsUnnamed(s, received)
    ensures forall row :: row in received - Shown(s.runs) ==> row.parent.Some?
    ensures HeldPlaces(s) == set row | row in received - Shown(s.runs) :: (Lacks(Shown(s.runs), row), row)
  {
    forall row | row in received
      ensures row !in Shown(s.runs) ==> row.parent.Some?
      ensures forall key :: (key, row) in HeldPlaces(s) <==>
                              row !in Shown(s.runs) && key == Lacks(Shown(s.runs), row)
    {
      HeldExactly(w, s, received, row);
    }
    assert FlightCores([]) == {};
    assert forall place :: place in HeldPlaces(s) ==> place.1 in received;
  }

  /** A row on screen is in one run's list and at one position of it. */
  lemma ShownOnce(w: World, runs: seq<RunView>, a: RunView, b: RunView, row: Row, copy: Row)
    requires Structure(w, runs) && a in runs && b in runs && row in AllRows(a) && copy in AllRows(b)
    requires row.id == copy.id
    ensures a == b && row == copy
    ensures row in a.prompts <==> row !in a.draws
  {
    assert Follows(w, row) && Follows(w, copy);
    assert Core(row).runId == row.runId && Core(copy).runId == copy.runId;
    UnderSelf(w, a.runId);
    UnderSelf(w, b.runId);
    OneHost(w, row.runId, a.runId, b.runId);
    RunIdDetermines(runs, a, b);
    assert Core(row).parent == row.parent && Core(copy).parent == copy.parent;
    if row in a.prompts {
      assert row.parent == None;
    }
    SameCopy(w, a, row, copy);
  }

  lemma SameCopy(w: World, a: RunView, row: Row, copy: Row)
    requires RunOk(w, a) && row in AllRows(a) && copy in AllRows(a) && row.id == copy.id && row.parent == copy.parent
    ensures row == copy
  {
  }

  // ---------- which runs are on screen ----------

  ghost function StartedRuns(messages: seq<Message>): set<RunId> {
    if messages == [] then {}
    else
      var m := messages[|messages| - 1];
      StartedRuns(messages[..|messages| - 1]) + if m.Started? then {m.run} else {}
  }

  ghost function OwnRuns(received: set<Row>): set<RunId> {
    set row | row in received && row.parent == None :: row.runId
  }

  /** The run that a message brings on screen. */
  ghost function BroughtBy(m: Message): set<RunId> {
    match m
    case Logged(row) => OwnRun(row)
    case Started(x, _) => {x}
    case Ended(_, _, _) => {}
  }

  /** The runs on screen are those that started or logged a prompt of their own. */
  lemma {:induction false} HostsOfPlay(w: World, messages: seq<Message>)
    requires Consistent(w, messages)
    ensures Hosts(Play(messages).runs) == StartedRuns(messages) + OwnRuns(Received(messages))
  {
    if messages == [] {
      assert Hosts([]) == {};
    } else {
      hide Handle, Hosts, OwnRuns, StartedRuns, Received, Inv, OwnRun;
      var before, m := messages[..|messages| - 1], messages[|messages| - 1];
      HostsOfPlay(w, before);
      PlayKeeps(w, before);
      HandleHosts(w, Play(before), m, Received(before));
      BroughtOnScreen(messages);
    }
  }

  lemma BroughtOnScreen(messages: seq<Message>)
    requires messages != []
    ensures var before, m := messages[..|messages| - 1], messages[|messages| - 1];
            StartedRuns(messages) + OwnRuns(Received(messages))
            == StartedRuns(before) + OwnRuns(Received(before)) + BroughtBy(m)
  {
    var before, m := messages[..|messages| - 1], messages[|messages| - 1];
    if m.Logged? {
      OwnRunsGrow(Received(before), m.row);
    }
  }

  lemma OwnRunsGrow(received: set<Row>, row: Row)
    ensures OwnRuns(received + {Core(row)}) == OwnRuns(received) + OwnRun(row)
  {
    assert Core(row).parent == row.parent && Core(row).runId == row.runId;
  }

  lemma HandleHosts(w: World, s: State, m: Message, received: set<Row>)
    requires Inv(w, s, [], received)
    requires (m.Logged? ==> Follows(w, m.row)) && (m.Started? ==> w.parentOf(m.run) == None)
    ensures Hosts(Handle(s, m).runs) == Hosts(s.runs) + BroughtBy(m)
  {
    match m {
      case Logged(row) => HandleRowKeeps(w, s, row, received);
      case Started(x, at) => StartRunKeeps(w, s, x, at, received);
      case Ended(x, outcome, reason) => FinishKeeps(w, s, x, outcome, reason, received);
    }
  }

  /** The runs that have started and not logged a prompt of their own. */
  ghost function Unlogged(messages: seq<Message>): set<RunId> {
    StartedRuns(messages) - OwnRuns(Received(messages))
  }

  /** An own prompt of a run is on screen exactly when one was received. */
  lemma OwnRunShown(w: World, messages: seq<Message>, h: RunId)
    requires Consistent(w, messages) && h in Hosts(Play(messages).runs)
    ensures HasRow(Shown(Play(messages).runs), h) <==> h in OwnRuns(Received(messages))
  {
    PlayKeeps(w, messages);
    OwnRowShown(w, Play(messages), Received(messages), h);
  }

  lemma OwnRowShown(w: World, s: State, received: set<Row>, h: RunId)
    requires Inv(w, s, [], received) && h in Hosts(s.runs)
    ensures HasRow(Shown(s.runs), h) <==> h in OwnRuns(received)
  {
    if HasRow(Shown(s.runs), h) {
      var row :| row in Shown(s.runs) && row.runId == h;
      ShownFollows(w, s.runs, row);
      HostsAreRoots(w, s.runs, h);
      assert row in received;
    }
    if h in OwnRuns(received) {
      var row :| row in received && row.parent == None && row.runId == h;
      ShownClosed(w, s, received);
      assert row in Shown(s.runs);
    }
  }

  lemma NoShellsExactly(w: World, messages: seq<Message>)
    requires Consistent(w, messages)
    ensures NoShells(Play(messages)) <==> Unlogged(messages) == {}
  {
    hide Play, Consistent, Shown, OwnRuns, HasRow, Hosts, StartedRuns;
    HostsOfPlay(w, messages);
    forall h | h in Hosts(Play(messages).runs)
      ensures HasRow(Shown(Play(messages).runs), h) <==> h !in Unlogged(messages)
    {
      OwnRunShown(w, messages, h);
    }
    assert Unlogged(messages) <= Hosts(Play(messages).runs);
    assert NoShells(Play(messages)) <==> forall h :: h in Hosts(Play(messages).runs) ==> h !in Unlogged(messages);
    assert Unlogged(messages) == {} <==> forall h :: h in Hosts(Play(messages).runs) ==> h !in Unlogged(messages);
  }

  /** No received draw names a run that has started and not logged. */
  ghost predicate NamesNoShell(messages: seq<Message>) {
    forall row :: row in Received(messages) && row.parent.Some? ==> row.parent.value !in Unlogged(messages)
  }

  lemma UnnamedExactly(w: World, messages: seq<Message>)
    requires Consistent(w, messages)
    ensures ShellsUnnamed(Play(messages), Received(messages)) <==> NamesNoShell(messages)
  {
    HostsOfPlay(w, messages);
    forall h | h in Hosts(Play(messages).runs)
      ensures HasRow(Shown(Play(messages).runs), h) <==> h in OwnRuns(Received(messages))
    {
      OwnRunShown(w, messages, h);
    }
  }

  // ---------- the theorem ----------

  /** The same hosts, the same rows on screen, each under the same host, and the same
      draws held for the same reasons. */
  ghost predicate SameScreen(a: State, b: State) {
    && Hosts(a.runs) == Hosts(b.runs)
    && Shown(a.runs) == Shown(b.runs)
    && HeldPlaces(a) == HeldPlaces(b)
    && forall r, q :: r in a.runs && q in b.runs && r.runId == q.runId ==>
                        Cores(r.prompts) == Cores(q.prompts) && Cores(r.draws) == Cores(q.draws)
  }

  /** What a stream leaves on screen when no draw names an unlogged run: the least set with
      every own prompt and every draw whose parent and step it has. */
  lemma ScreenOfStream(w: World, messages: seq<Message>)
    requires Consistent(w, messages) && NamesNoShell(messages)
    ensures IsLeastClosure(Shown(Play(messages).runs), Received(messages))
  {
    PlayIsLeast(w, messages);
  }

  /** The streams bring the same rows, each as often and in whatever order, and leave the
      same runs started without a prompt. */
  ghost predicate Alike(a: seq<Message>, b: seq<Message>) {
    && (forall row :: row in Received(a) <==> row in Received(b))
    && (forall x :: x in Unlogged(a) <==> x in Unlogged(b))
  }

  lemma AlikeStreams(a: seq<Message>, b: seq<Message>)
    requires Alike(a, b) && NamesNoShell(a)
    ensures NamesNoShell(b) && Received(a) == Received(b)
    ensures StartedRuns(a) + OwnRuns(Received(a)) == StartedRuns(b) + OwnRuns(Received(b))
  {
    assert Received(a) == Received(b) && Unlogged(a) == Unlogged(b);
    assert StartedRuns(a) + OwnRuns(Received(a)) == Unlogged(a) + OwnRuns(Received(a));
    assert StartedRuns(b) + OwnRuns(Received(b)) == Unlogged(b) + OwnRuns(Received(b));
  }

  /** Any two streams that bring the same, in any order and with any repetitions, end with
      the same screen, when no draw names a run that has started and not logged. */
  lemma OrderDoesNotMatter(w: World, a: seq<Message>, b: seq<Message>)
    requires Consistent(w, a) && Consistent(w, b) && Alike(a, b) && NamesNoShell(a)
    ensures SameScreen(Play(a), Play(b))
  {
    hide Inv, IsLeastClosure, SupportedState, ShellsUnnamed, ShellsBare, Alike, NamesNoShell,
        Received, Play, Consistent;
    AlikeStreams(a, b);
    PlayIsLeast(w, a);
    PlayIsLeast(w, b);
    HostsOfPlay(w, a);
    HostsOfPlay(w, b);
    SameStates(w, Play(a), Play(b), Received(a));
  }

  lemma SameStates(w: World, s: State, t: State, received: set<Row>)
    requires Inv(w, s, [], received) && SupportedState(s) && ShellsUnnamed(s, received)
    requires Inv(w, t, [], received) && SupportedState(t) && ShellsUnnamed(t, received)
    requires IsLeastClosure(Shown(s.runs), received) && IsLeastClosure(Shown(t.runs), received)
    requires Hosts(s.runs) == Hosts(t.runs)
    ensures SameScreen(s, t)
  {
    hide Inv, IsLeastClosure, SupportedState, ShellsUnnamed;
    SameLeast(Shown(s.runs), Shown(t.runs), received);
    HeldFromScreen(w, s, received);
    HeldFromScreen(w, t, received);
    StructureOf(w, s, received);
    StructureOf(w, t, received);
    HostsHaveSameRows(w, s.runs, t.runs);
  }

  lemma SameLeast(a: set<Row>, b: set<Row>, received: set<Row>)
    requires IsLeastClosure(a, received) && IsLeastClosure(b, received)
    ensures a == b
  {
    assert a <= b && b <= a;
  }

  lemma StructureOf(w: World, s: State, received: set<Row>)
    requires Inv(w, s, [], received)
    ensures Structure(w, s.runs)
  {
  }

  lemma HostsHaveSameRows(w: World, runs: seq<RunView>, others: seq<RunView>)
    requires Structure(w, runs) && Structure(w, others) && Shown(runs) == Shown(others)
    ensures forall r, q :: r in runs && q in others && r.runId == q.runId ==>
                             Cores(r.prompts) == Cores(q.prompts) && Cores(r.draws) == Cores(q.draws)
  {
    forall r, q | r in runs && q in others && r.runId == q.runId
      ensures Cores(r.prompts) == Cores(q.prompts) && Cores(r.draws) == Cores(q.draws)
    {
      HostHasRows(w, runs, r, others, q);
      HostHasRows(w, others, q, runs, r);
    }
  }

  lemma PlayIsLeast(w: World, messages: seq<Message>)
    requires Consistent(w, messages) && NamesNoShell(messages)
    ensures Inv(w, Play(messages), [], Received(messages)) && SupportedState(Play(messages))
    ensures ShellsUnnamed(Play(messages), Received(messages)) && ShellsBare(Play(messages))
    ensures IsLeastClosure(Shown(Play(messages).runs), Received(messages))
  {
    hide Inv, IsLeastClosure, ShellsUnnamed, ShellsBare;
    PlayKeeps(w, messages);
    UnnamedExactly(w, messages);
    UnnamedShellsAreBare(w, Play(messages), Received(messages));
    ScreenIsLeastClosure(w, Play(messages), Received(messages));
  }

  lemma HostHasRows(w: World, runs: seq<RunView>, run: RunView, others: seq<RunView>, other: RunView)
    requires Structure(w, runs) && Structure(w, others) && Shown(runs) == Shown(others)
    requires run in runs && other in others && run.runId == other.runId
    ensures Cores(run.prompts) <= Cores(other.prompts) && Cores(run.draws) <= Cores(other.draws)
  {
    forall row | row in AllRows(run)
      ensures row in run.prompts ==> Core(row) in Cores(other.prompts)
      ensures row in run.draws ==> Core(row) in Cores(other.draws)
    {
      ShownAt(runs, run, row);
      var host, copy := ShownFrom(others, Core(row));
      SameHost(w, runs, run, row, others, other, host, copy);
    }
  }

  lemma SameHost(w: World, runs: seq<RunView>, run: RunView, row: Row,
                 others: seq<RunView>, other: RunView, host: RunView, copy: Row)
    requires Structure(w, runs) && Structure(w, others)
    requires run in runs && other in others && host in others && run.runId == other.runId
    requires row in AllRows(run) && copy in AllRows(host) && Core(row) == Core(copy)
    ensures host == other
    ensures (row in run.prompts ==> copy in other.prompts) && (row in run.draws ==> copy in other.draws)
  {
    assert Core(row).runId == row.runId && Core(copy).runId == copy.runId;
    assert Core(row).parent == row.parent && Core(copy).parent == copy.parent;
    UnderSelf(w, run.runId);
    UnderSelf(w, host.runId);
    OneHost(w, row.runId, run.runId, host.runId);
    RunIdDetermines(others, host, other);
  }
}
