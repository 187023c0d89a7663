/** What the header of a run shows before its first row. */
module ShellHeaders {
  import opened Options
  import opened Rows
  import opened DrawNesting
  import opened RunLog
  import opened LogStructure
  import opened LeastClosure
  import opened OrderIndependence

  /** Where the first start of a run among the messages puts it in time. */
  function FirstStart(messages: seq<Message>, x: RunId): Option<int> {
    if messages == [] then None
    else
      var n := |messages| - 1;
      var before := FirstStart(messages[..n], x);
      if before.None? && messages[n].Started? && messages[n].run == x then Some(messages[n].at) else before
  }

  /** Runs without a row are among the earlier runs as they stand. */
  ghost predicate BareFrom(runs: seq<RunView>, before: seq<RunView>) {
    forall run :: run in runs && AllRows(run) == [] ==> run in before
  }

  lemma PlacedBare(runs: seq<RunView>, i: nat, run: RunView)
    requires i < |runs| && AllRows(run) != []
    ensures BareFrom(MoveToFront(runs[i := run], run.runId), runs)
  {
    MoveToFrontMembers(runs[i := run], run.runId);
  }

  lemma DoBare(s: State, t: Task)
    ensures BareFrom(Do(s, t).0.runs, s.runs)
  {
    if t.Attach? && t.draw.parent.Some? {
      var c := FindContainer(s.runs, t.draw.parent.value);
      if c.Some? && !WaitsForStep(c.value.rows, t.draw) {
        PlacedBare(s.runs, c.value.index, WithDraw(s.runs[c.value.index], t.draw));
      }
    }
  }

  lemma {:induction false} WorkBare(s: State, agenda: seq<Task>)
    ensures BareFrom(Work(s, agenda).runs, s.runs)
    decreases |s.held| + |InFlight(agenda)|, |agenda| - |InFlight(agenda)|, |InFlight(agenda)|
  {
    if agenda != [] {
      hide Do;
      var (s', more) := Do(s, agenda[0]);
      DoBare(s, agenda[0]);
      DoDecreases(s, agenda);
      InFlightLength(agenda);
      WorkBare(s', more + agenda[1..]);
    }
  }

  lemma ShowBare(s: State, p: Row)
    ensures BareFrom(ShowPrompt(s, p).runs, s.runs)
  {
    var i := FindRun(s.runs, p.runId);
    if i != -1 {
      PlacedBare(s.runs, i, WithPrompt(s.runs[i], p));
    }
  }

  lemma HandleRowBare(s: State, row: Row)
    ensures BareFrom(HandleRow(s, row).runs, s.runs)
  {
    hide ShowPrompt, Work;
    if row.parent.Some? {
      WorkBare(s, [Attach(row)]);
    } else {
      ShowBare(s, row);
      WorkBare(ShowPrompt(s, row), Drains(row));
    }
  }

  /** No count, no total, and a window that is the moment of the start. */
  ghost predicate ShowsStart(run: RunView, start: Option<int>) {
    && run.promptCount == 0 && run.totalDuration == 0 && run.inTokens == 0 && run.outTokens == 0
    && start.Some? && run.startedAt == run.endedAt == start.value && run.wallDuration == 0
  }

  /** A run without rows had none before the message and the same figures, unless the message
      put it on screen. */
  lemma WasBare(s: State, m: Message, run: RunView)
    requires run in Handle(s, m).runs && AllRows(run) == []
    ensures || (m.Started? && m.run == run.runId && FindRun(s.runs, m.run) == -1 && ShowsStart(run, Some(m.at)))
            || exists was :: was in s.runs && was.runId == run.runId && AllRows(was) == []
                             && forall start :: ShowsStart(was, start) ==> ShowsStart(run, start)
  {
    match m {
      case Logged(row) => HandleRowBare(s, row);
      case Started(x, at) =>
        MoveToFrontMembers(s.runs, x);
      case Ended(x, outcome, reason) =>
        var i := FindRun(s.runs, x);
        if i != -1 {
          var done := s.runs[i].(outcome := Some(outcome), reason := Some(reason));
          MoveToFrontMembers(s.runs[i := done], x);
          if run !in s.runs {
            assert run == done && s.runs[i] in s.runs;
          }
        }
    }
  }

  lemma {:induction false} NotStarted(messages: seq<Message>, x: RunId)
    requires x !in StartedRuns(messages)
    ensures FirstStart(messages, x) == None
  {
    if messages != [] {
      NotStarted(messages[..|messages| - 1], x);
    }
  }

  /** After any messages the header of a run without rows shows the run's first start. */
  lemma {:induction false} ShellHeader(w: World, messages: seq<Message>, run: RunView)
    requires Consistent(w, messages) && run in Play(messages).runs && AllRows(run) == []
    ensures ShowsStart(run, FirstStart(messages, run.runId))
  {
    if messages != [] {
      hide Handle, AllRows, ShowsStart;
      var front, m := messages[..|messages| - 1], messages[|messages| - 1];
      WasBare(Play(front), m, run);
      if m.Started? && m.run == run.runId && FindRun(Play(front).runs, m.run) == -1 && ShowsStart(run, Some(m.at)) {
        HostsOfPlay(w, front);
        assert m.run !in Hosts(Play(front).runs);
        NotStarted(front, m.run);
      } else {
        var was :| was in Play(front).runs && was.runId == run.runId && AllRows(was) == []
                   && forall start :: ShowsStart(was, start) ==> ShowsStart(run, start);
        ShellHeader(w, front, was);
        StartedStays(messages, run.runId, was);
      }
    }
  }

  lemma StartedStays(messages: seq<Message>, x: RunId, was: RunView)
    requires messages != [] && ShowsStart(was, FirstStart(messages[..|messages| - 1], x))
    ensures FirstStart(messages, x) == FirstStart(messages[..|messages| - 1], x)
  {
  }

  /** The first row of such a run makes it the run that the row alone would have made. */
  lemma ShellBecomesRun(x: RunId, at: int, p: Row)
    requires p.runId == x
    ensures WithPrompt(Shell(x, at), p) == NewRun(p)
  {
  }
}
