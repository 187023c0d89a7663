/** Which outcome a run's header shows. */
module Outcomes {
  import opened Options
  import opened Rows
  import opened DrawNesting
  import opened RunLog
  import opened LogStructure
  import opened LeastClosure
  import opened OrderIndependence

  /** Whether a run has started or logged a prompt of its own. */
  ghost predicate Came(messages: seq<Message>, x: RunId) {
    x in StartedRuns(messages) || x in OwnRuns(Received(messages))
  }

  /** The last outcome that was sent for a run after it came on screen. */
  ghost function LastOutcome(messages: seq<Message>, x: RunId): Option<(string, string)> {
    if messages == [] then None
    else
      var before, m := messages[..|messages| - 1], messages[|messages| - 1];
      if m.Ended? && m.run == x && Came(before, x) then Some((m.outcome, m.reason)) else LastOutcome(before, x)
  }

  ghost predicate ShowsOutcome(run: RunView, outcome: Option<(string, string)>) {
    && run.outcome == (if outcome.Some? then Some(outcome.value.0) else None)
    && run.reason == (if outcome.Some? then Some(outcome.value.1) else None)
  }

  ghost predicate SameOutcome(run: RunView, was: RunView) {
    run.runId == was.runId && run.outcome == was.outcome && run.reason == was.reason
  }

  /** Every run was there before with the same outcome. */
  ghost predicate OutcomesFrom(runs: seq<RunView>, before: seq<RunView>) {
    forall run :: run in runs ==> exists was :: was in before && SameOutcome(run, was)
  }

  lemma OutcomesStay(runs: seq<RunView>)
    ensures OutcomesFrom(runs, runs)
  {
    assert forall run :: run in runs ==> SameOutcome(run, run);
  }

  lemma OutcomesChain(runs: seq<RunView>, middle: seq<RunView>, before: seq<RunView>)
    requires OutcomesFrom(runs, middle) && OutcomesFrom(middle, before)
    ensures OutcomesFrom(runs, before)
  {
    forall run | run in runs ensures exists was :: was in before && SameOutcome(run, was) {
      var mid :| mid in middle && SameOutcome(run, mid);
      var was :| was in before && SameOutcome(mid, was);
      assert SameOutcome(run, was);
    }
  }

  lemma PlacedOutcomes(runs: seq<RunView>, i: nat, run: RunView)
    requires i < |runs| && SameOutcome(run, runs[i])
    ensures OutcomesFrom(MoveToFront(runs[i := run], run.runId), runs)
  {
    MoveToFrontMembers(runs[i := run], run.runId);
    hide MoveToFront;
    var updated := runs[i := run];
    forall r | r in updated ensures exists was :: was in runs && SameOutcome(r, was) {
      var was := if r == run then runs[i] else r;
      assert was in runs && SameOutcome(r, was);
    }
  }

  lemma DoOutcomes(s: State, t: Task)
    ensures OutcomesFrom(Do(s, t).0.runs, s.runs)
  {
    OutcomesStay(s.runs);
    if t.Attach? && t.draw.parent.Some? {
      var c := FindContainer(s.runs, t.draw.parent.value);
      if c.Some? && !WaitsForStep(c.value.rows, t.draw) {
        hide FindContainer, OutcomesFrom;
        PlacedOutcomes(s.runs, c.value.index, WithDraw(s.runs[c.value.index], t.draw));
      }
    }
  }

  lemma {:induction false} WorkOutcomes(s: State, agenda: seq<Task>)
    ensures OutcomesFrom(Work(s, agenda).runs, s.runs)
    decreases |s.held| + |InFlight(agenda)|, |agenda| - |InFlight(agenda)|, |InFlight(agenda)|
  {
    hide Do, OutcomesFrom;
    if agenda == [] {
      OutcomesStay(s.runs);
    } else {
      var (s', more) := Do(s, agenda[0]);
      DoOutcomes(s, agenda[0]);
      DoDecreases(s, agenda);
      InFlightLength(agenda);
      WorkOutcomes(s', more + agenda[1..]);
      OutcomesChain(Work(s, agenda).runs, s'.runs, s.runs);
    }
  }

  lemma ShowOutcomes(s: State, p: Row)
    ensures FindRun(s.runs, p.runId) != -1 ==> OutcomesFrom(ShowPrompt(s, p).runs, s.runs)
    ensures FindRun(s.runs, p.runId) == -1 ==> OutcomesFrom(ShowPrompt(s, p).runs, [NewRun(p)] + s.runs)
  {
    var i := FindRun(s.runs, p.runId);
    if i != -1 {
      PlacedOutcomes(s.runs, i, WithPrompt(s.runs[i], p));
    } else {
      OutcomesStay([NewRun(p)] + s.runs);
    }
  }

  lemma HandleRowOutcomes(s: State, row: Row)
    ensures var first := row.parent.None? && FindRun(s.runs, row.runId) == -1;
            OutcomesFrom(HandleRow(s, row).runs, (if first then [NewRun(row)] else []) + s.runs)
  {
    hide ShowPrompt, Work, OutcomesFrom;
    assert [] + s.runs == s.runs;
    if row.parent.Some? {
      WorkOutcomes(s, [Attach(row)]);
    } else {
      ShowOutcomes(s, row);
      WorkOutcomes(ShowPrompt(s, row), Drains(row));
      OutcomesChain(HandleRow(s, row).runs, ShowPrompt(s, row).runs,
                    (if FindRun(s.runs, row.runId) == -1 then [NewRun(row)] else []) + s.runs);
    }
  }

  /** What one message does to the outcome of a run on screen after it. */
  lemma OutcomeStep(s: State, m: Message, run: RunView)
    requires DistinctRuns(s.runs) && run in Handle(s, m).runs
    ensures || (FindRun(s.runs, run.runId) == -1 && ShowsOutcome(run, None))
            || (m.Ended? && m.run == run.runId && ShowsOutcome(run, Some((m.outcome, m.reason))))
            || (!(m.Ended? && m.run == run.runId) && exists was :: was in s.runs && SameOutcome(run, was))
  {
    match m {
      case Logged(row) =>
        HandleRowOutcomes(s, row);
        var was :| was in (if row.parent.None? && FindRun(s.runs, row.runId) == -1 then [NewRun(row)] else []) + s.runs
                   && SameOutcome(run, was);
        assert was in s.runs || (FindRun(s.runs, run.runId) == -1 && was == NewRun(row));
      case Started(x, at) =>
        MoveToFrontMembers(s.runs, x);
        assert SameOutcome(run, run);
      case Ended(x, outcome, reason) =>
        assert SameOutcome(run, run);
        var i := FindRun(s.runs, x);
        if i != -1 {
          var done := s.runs[i].(outcome := Some(outcome), reason := Some(reason));
          MoveToFrontMembers(s.runs[i := done], x);
        }
    }
  }

  lemma {:induction false} NotCame(messages: seq<Message>, x: RunId)
    requires !Came(messages, x)
    ensures LastOutcome(messages, x) == None
  {
    if messages != [] {
      var before := messages[..|messages| - 1];
      if Came(before, x) {
        StillCame(messages, x);
      } else {
        NotCame(before, x);
      }
    }
  }

  /** A run that came is still there. */
  lemma StillCame(messages: seq<Message>, x: RunId)
    requires messages != [] && Came(messages[..|messages| - 1], x)
    ensures Came(messages, x)
  {
    BroughtOnScreen(messages);
  }

  /** After any messages a run shows the last outcome that was sent for it since it came on
      screen; one that was sent before is lost. */
  lemma {:induction false} OutcomeExactly(w: World, messages: seq<Message>, run: RunView)
    requires Consistent(w, messages) && run in Play(messages).runs
    ensures ShowsOutcome(run, LastOutcome(messages, run.runId))
  {
    if messages != [] {
      hide Handle, StartedRuns, OwnRuns, Received;
      var before, m := messages[..|messages| - 1], messages[|messages| - 1];
      PlayKeeps(w, before);
      StructureOf(w, Play(before), Received(before));
      OutcomeStep(Play(before), m, run);
      CameOnScreen(w, before, run.runId);
      CameOnScreen(w, messages, run.runId);
      if FindRun(Play(before).runs, run.runId) == -1 {
        NotCame(before, run.runId);
      } else if !(m.Ended? && m.run == run.runId) {
        var was :| was in Play(before).runs && SameOutcome(run, was);
        OutcomeExactly(w, before, was);
      }
    }
  }

  lemma CameOnScreen(w: World, messages: seq<Message>, x: RunId)
    requires Consistent(w, messages)
    ensures Came(messages, x) <==> FindRun(Play(messages).runs, x) != -1
  {
    hide Play, OwnRuns, StartedRuns;
    HostsOfPlay(w, messages);
    assert x in Hosts(Play(messages).runs) <==> exists run :: run in Play(messages).runs && run.runId == x;
  }
}
