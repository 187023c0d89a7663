/** What the live run log shows does not depend on the order of its messages: it is the
    least set of rows that contains every own prompt and every draw whose parent and
    step it contains. */
module LeastClosure {
  import opened Options
  import opened Rows
  import opened RunLog
  import opened LogStructure
  import opened LogInvariant

  /** `rows` has every received own prompt, and every received draw whose parent run is
      started or has a row in `rows` and whose anchor, if it has one, is a tool call
      that a row of that run in `rows` dispatched. */
  ghost predicate Closed(rows: set<Row>, received: set<Row>, started: set<RunId>) {
    forall row :: row in received && (row.parent.Some? ==> Ready(started, rows, row)) ==> row in rows
  }

  ghost predicate IsLeastClosure(rows: set<Row>, received: set<Row>) {
    && rows <= received
    && Closed(rows, received, {})
    && forall other: set<Row> :: Closed(other, received, {}) ==> rows <= other
  }

  // ---------- nothing is shown too early ----------

  /** The runs that shown draws hang under directly are started or have a row. */
  ghost predicate HostsCount(hosts: set<RunId>, shown: set<Row>, rows: set<Row>, started: set<RunId>) {
    forall row :: row in shown && row.parent.Some? && row.parent.value in hosts ==>
                    OnScreen(started, rows, row.parent.value)
  }

  ghost predicate ParentsFollow(w: World, shown: set<Row>) {
    forall row :: row in shown ==> row.parent == w.parentOf(row.runId)
  }

  /** By induction on the length of its parent chain, a shown row is in every closed set
      that accounts for the hosts. */
  lemma {:induction false} ShownInEveryClosed(
      w: World, hosts: set<RunId>, shown: set<Row>, received: set<Row>, rows: set<Row>, started: set<RunId>,
      row: Row, h: RunId, n: nat)
    requires Supported(hosts, shown) && shown <= received && ParentsFollow(w, shown)
    requires Closed(rows, received, started) && HostsCount(hosts, shown, rows, started)
    requires row in shown && Climbs(w, row.runId, h, n) && w.parentOf(h) == None
    ensures row in rows
    decreases n
  {
    if row.parent.Some? {
      var q := row.parent.value;
      assert n > 0 && Climbs(w, q, h, n - 1);
      forall up | up in shown && up.runId == q ensures up in rows {
        ShownInEveryClosed(w, hosts, shown, received, rows, started, up, h, n - 1);
      }
      ReadyCarries(hosts, shown, rows, started, row);
    }
  }

  /** What makes a shown draw ready makes it ready in every set with the rows of its parent. */
  lemma ReadyCarries(hosts: set<RunId>, shown: set<Row>, rows: set<Row>, started: set<RunId>, row: Row)
    requires Supported(hosts, shown) && HostsCount(hosts, shown, rows, started)
    requires row in shown && row.parent.Some?
    requires forall up :: up in shown && up.runId == row.parent.value ==> up in rows
    ensures Ready(started, rows, row)
  {
    assert Ready(hosts, shown, row);
  }

  lemma ShownFollows(w: World, runs: seq<RunView>, row: Row)
    requires Structure(w, runs) && row in Shown(runs)
    ensures row.parent == w.parentOf(row.runId)
    ensures exists h :: h in Hosts(runs) && Under(w, row.runId, h)
  {
    var run, copy := ShownFrom(runs, row);
    assert Core(copy).runId == copy.runId && Core(copy).parent == copy.parent;
    if copy in run.prompts {
      UnderSelf(w, run.runId);
    }
    assert run.runId in Hosts(runs) && Under(w, row.runId, run.runId);
  }

  lemma HostsAreRoots(w: World, runs: seq<RunView>, h: RunId)
    requires Structure(w, runs) && h in Hosts(runs)
    ensures w.parentOf(h) == None
  {
  }

  lemma ShownWithin(w: World, s: State, received: set<Row>, rows: set<Row>, started: set<RunId>)
    requires Inv(w, s, [], received) && SupportedState(s)
    requires Closed(rows, received, started) && HostsCount(Hosts(s.runs), Shown(s.runs), rows, started)
    ensures Shown(s.runs) <= rows
  {
    forall row | row in Shown(s.runs) ensures row.parent == w.parentOf(row.runId) {
      ShownFollows(w, s.runs, row);
    }
    forall row | row in Shown(s.runs) ensures row in rows {
      ShownFollows(w, s.runs, row);
      var h :| h in Hosts(s.runs) && Under(w, row.runId, h);
      HostsAreRoots(w, s.runs, h);
      var n: nat :| Climbs(w, row.runId, h, n);
      ShownInEveryClosed(w, Hosts(s.runs), Shown(s.runs), received, rows, started, row, h, n);
    }
  }

  // ---------- nothing waits too long ----------

  /** Every received row is on screen or held, and a held draw lacks what it is held for. */
  lemma ShownClosed(w: World, s: State, received: set<Row>)
    requires Inv(w, s, [], received)
    ensures Closed(Shown(s.runs), received, {})
  {
    forall row | row in received && row !in Shown(s.runs)
      ensures row.parent.Some? && !Ready({}, Shown(s.runs), row)
    {
      assert row in HeldCores(s.held) by {
        assert FlightCores([]) == {};
      }
      var h :| h in s.held && Core(h.draw) == row;
      assert h.draw.parent == row.parent && h.draw.anchor == row.anchor;
      assert Waits(Hosts(s.runs), Shown(s.runs), [], h);
    }
  }

  // ---------- shells ----------

  /** Every run on screen has a logged prompt of its own. */
  ghost predicate NoShells(s: State) {
    forall h :: h in Hosts(s.runs) ==> HasRow(Shown(s.runs), h)
  }

  /** A run that has not logged a prompt yet carries no draw. */
  ghost predicate ShellsBare(s: State) {
    forall run :: run in s.runs && run.prompts == [] ==> run.draws == []
  }

  /** No received draw names a run on screen that has not logged a prompt yet. */
  ghost predicate ShellsUnnamed(s: State, received: set<Row>) {
    forall row :: row in received && row.parent.Some? && row.parent.value in Hosts(s.runs) ==>
                    HasRow(Shown(s.runs), row.parent.value)
  }

  /** A run that carries draws carries one of its very own. */
  lemma {:induction false} TopDraw(w: World, run: RunView, draw: Row, n: nat) returns (top: Row)
    requires RunOk(w, run) && draw in run.draws && Climbs(w, draw.runId, run.runId, n)
    ensures top in run.draws && top.parent == Some(run.runId)
    decreases n
  {
    hide Bookkept;
    if draw.parent.value == run.runId {
      top := draw;
    } else {
      var other :| other in run.draws && other.runId == draw.parent.value;
      top := TopDraw(w, run, other, n - 1);
    }
  }

  lemma UnnamedShellsAreBare(w: World, s: State, received: set<Row>)
    requires Inv(w, s, [], received) && ShellsUnnamed(s, received)
    ensures ShellsBare(s)
  {
    forall run | run in s.runs && run.prompts == [] ensures run.draws == [] {
      OwnRowOf(w, s, run);
      if run.draws != [] {
        NamedByDraw(w, s, run, received);
      }
    }
  }

  lemma NamedByDraw(w: World, s: State, run: RunView, received: set<Row>)
    requires Inv(w, s, [], received) && run in s.runs && run.draws != []
    ensures exists row :: row in received && row.parent == Some(run.runId) && row in Shown(s.runs)
  {
    var n: nat :| Climbs(w, run.draws[0].runId, run.runId, n);
    var top := TopDraw(w, run, run.draws[0], n);
    ShownAt(s.runs, run, top);
    assert Core(top).parent == top.parent;
  }

  lemma OwnRowOf(w: World, s: State, run: RunView)
    requires Structure(w, s.runs) && run in s.runs
    ensures HasRow(Shown(s.runs), run.runId) <==> run.prompts != []
  {
    if run.prompts != [] {
      assert run.prompts[0] in AllRows(run);
      ShownAt(s.runs, run, run.prompts[0]);
      assert Core(run.prompts[0]).runId == run.runId;
    }
    if HasRow(Shown(s.runs), run.runId) {
      var row :| row in Shown(s.runs) && row.runId == run.runId;
      var other, copy := ShownFrom(s.runs, row);
      assert Core(copy).runId == copy.runId;
      RowOfHost(w, s.runs, run, other, copy);
    }
  }

  lemma RowOfHost(w: World, runs: seq<RunView>, run: RunView, other: RunView, copy: Row)
    requires Structure(w, runs) && run in runs && other in runs && copy in AllRows(other)
    requires copy.runId == run.runId
    ensures copy in run.prompts && other == run
  {
  }

  /** The screen is the least closure of the received rows exactly when no draw has been
      attached to a run that has not logged a prompt yet. */
  lemma ScreenIsLeastClosure(w: World, s: State, received: set<Row>)
    requires Inv(w, s, [], received) && SupportedState(s)
    ensures IsLeastClosure(Shown(s.runs), received) <==> ShellsBare(s)
  {
    ShownClosed(w, s, received);
    if ShellsBare(s) {
      forall other: set<Row> | Closed(other, received, {}) ensures Shown(s.runs) <= other {
        ShownLeast(w, s, received, other);
      }
    }
    if !ShellsBare(s) {
      var run :| run in s.runs && run.prompts == [] && run.draws != [];
      ShellDrawsAreExtra(w, s, received, run);
    }
  }

  lemma ShownLeast(w: World, s: State, received: set<Row>, other: set<Row>)
    requires Inv(w, s, [], received) && SupportedState(s) && ShellsBare(s)
    requires Closed(other, received, {})
    ensures Shown(s.runs) <= other
  {
    forall row | row in Shown(s.runs) && row.parent.Some? && row.parent.value in Hosts(s.runs)
      ensures OnScreen({}, other, row.parent.value)
    {
      var run := HostOfChild(w, s.runs, row);
      assert run.prompts != [];
      var own := run.prompts[0];
      ShownAt(s.runs, run, own);
      assert Core(own).parent == None && Core(own).runId == run.runId;
      assert Core(own) in other;
    }
    ShownWithin(w, s, received, other, {});
  }

  /** A draw that hangs under a host directly is among that host's draws. */
  lemma HostOfChild(w: World, runs: seq<RunView>, row: Row) returns (run: RunView)
    requires Structure(w, runs) && row in Shown(runs) && row.parent.Some? && row.parent.value in Hosts(runs)
    ensures run in runs && run.runId == row.parent.value && run.draws != [] && row in Cores(run.draws)
  {
    var copy;
    run, copy := ShownFrom(runs, row);
    assert Core(copy).parent == copy.parent && copy in run.draws;
    var host :| host in runs && host.runId == row.parent.value;
    UnderParent(w, copy.runId, run.runId);
    UnderSelf(w, host.runId);
    OneHost(w, host.runId, run.runId, host.runId);
  }

  lemma RestClosed(w: World, s: State, received: set<Row>, run: RunView)
    requires Structure(w, s.runs) && Closed(Shown(s.runs), received, {})
    requires run in s.runs && run.prompts == [] && run.draws != []
    ensures Closed(Shown(s.runs) - Cores(run.draws), received, {})
  {
    hide Structure, Shown, Cores;
    var rest := Shown(s.runs) - Cores(run.draws);
    forall row | row in received && (row.parent.Some? ==> Ready({}, rest, row)) ensures row in rest {
      assert row.parent.Some? ==> Ready({}, Shown(s.runs), row);
      if row in Cores(run.draws) {
        NoRestAbove(w, s, run, row);
      }
    }
  }

  /** Without the draws of a bare run the rest of the screen is still closed. */
  lemma ShellDrawsAreExtra(w: World, s: State, received: set<Row>, run: RunView)
    requires Inv(w, s, [], received) && run in s.runs && run.prompts == [] && run.draws != []
    ensures !IsLeastClosure(Shown(s.runs), received)
  {
    var rest := Shown(s.runs) - Cores(run.draws);
    ShownClosed(w, s, received);
    RestClosed(w, s, received, run);
    ShownAt(s.runs, run, run.draws[0]);
    assert Core(run.draws[0]) in Shown(s.runs) && Core(run.draws[0]) !in rest;
  }

  lemma NoRestAbove(w: World, s: State, run: RunView, row: Row)
    requires Structure(w, s.runs) && run in s.runs && run.prompts == [] && row in Cores(run.draws)
    ensures row.parent.Some? && !HasRow(Shown(s.runs) - Cores(run.draws), row.parent.value)
  {
    var draw :| draw in run.draws && Core(draw) == row;
    assert Core(draw).parent == draw.parent;
    forall up | up in Shown(s.runs) && up.runId == row.parent.value ensures up in Cores(run.draws) {
      var other, copy := ShownFrom(s.runs, up);
      assert Core(copy).runId == copy.runId;
      UnderParent(w, draw.runId, run.runId);
      if copy in other.prompts {
        UnderSelf(w, other.runId);
      }
      OneHost(w, up.runId, run.runId, other.runId);
      RunIdDetermines(s.runs, run, other);
    }
  }

  lemma RunIdDetermines(runs: seq<RunView>, a: RunView, b: RunView)
    requires DistinctRuns(runs) && a in runs && b in runs && a.runId == b.runId
    ensures a == b
  {
  }

  // ---------- whole streams of messages ----------

  /** Messages that change the run log: a logged row, a run's own call starting, and a
      run's outcome. */
  datatype Message =
    | Logged(row: Row)
    | Started(run: RunId, at: int)
    | Ended(run: RunId, outcome: string, reason: string)

  function Handle(s: State, m: Message): State {
    match m
    case Logged(row) => HandleRow(s, row)
    case Started(x, at) => StartRun(s, x, at)
    case Ended(x, outcome, reason) => Finish(s, x, outcome, reason)
  }

  const BLANK := State([], [])

  function Play(messages: seq<Message>): State {
    if messages == [] then BLANK
    else Handle(Play(messages[..|messages| - 1]), messages[|messages| - 1])
  }

  /** The messages tell one consistent story: a run that starts has no parent. */
  ghost predicate Consistent(w: World, messages: seq<Message>) {
    messages == [] ||
    var m := messages[|messages| - 1];
    && Consistent(w, messages[..|messages| - 1])
    && (m.Logged? ==> Follows(w, m.row)) && (m.Started? ==> w.parentOf(m.run) == None)
  }

  ghost function Received(messages: seq<Message>): set<Row> {
    if messages == [] then {}
    else
      var m := messages[|messages| - 1];
      Received(messages[..|messages| - 1]) + if m.Logged? then {Core(m.row)} else {}
  }

  /** Every state that any messages lead to keeps the invariant: no row received is ever
      lost, none is invented, and what waits lacks what it waits for. */
  lemma {:induction false} PlayKeeps(w: World, messages: seq<Message>)
    requires Consistent(w, messages)
    ensures Inv(w, Play(messages), [], Received(messages)) && SupportedState(Play(messages))
  {
    if messages != [] {
      var before, m := messages[..|messages| - 1], messages[|messages| - 1];
      PlayKeeps(w, before);
      match m {
        case Logged(row) => HandleRowKeeps(w, Play(before), row, Received(before));
        case Started(x, at) => StartRunKeeps(w, Play(before), x, at, Received(before));
        case Ended(x, outcome, reason) => FinishKeeps(w, Play(before), x, outcome, reason, Received(before));
      }
    }
  }
}
