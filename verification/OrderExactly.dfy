/** Exactly when the order of the messages does not matter: when no received draw names a
    run that has started and not logged.  A draw that does waits or shows, depending on
    whether it came before the start or after it. */
module OrderExactly {
  import opened Options
  import opened Rows
  import opened RunLog
  import opened LogStructure
  import opened LogInvariant
  import opened LeastClosure
  import opened OrderIndependence

  // ---------- two orders of one stream ----------

  function StartsOf(messages: seq<Message>): seq<Message> {
    if messages == [] then []
    else
      var m := messages[|messages| - 1];
      StartsOf(messages[..|messages| - 1]) + if m.Started? then [m] else []
  }

  function LogsOf(messages: seq<Message>): seq<Message> {
    if messages == [] then []
    else
      var m := messages[|messages| - 1];
      LogsOf(messages[..|messages| - 1]) + if m.Logged? then [m] else []
  }

  lemma {:induction false} StreamConcat(w: World, a: seq<Message>, b: seq<Message>)
    ensures Received(a + b) == Received(a) + Received(b)
    ensures StartedRuns(a + b) == StartedRuns(a) + StartedRuns(b)
    ensures Consistent(w, a + b) <==> Consistent(w, a) && Consistent(w, b)
    decreases |b|
  {
    if b == [] {
      assert a + b == a;
    } else {
      var n := |b| - 1;
      assert (a + b)[..|a + b| - 1] == a + b[..n];
      StreamConcat(w, a, b[..n]);
    }
  }

  lemma StreamSnoc(w: World, a: seq<Message>, m: Message)
    ensures Received(a + [m]) == Received(a) + if m.Logged? then {Core(m.row)} else {}
    ensures StartedRuns(a + [m]) == StartedRuns(a) + if m.Started? then {m.run} else {}
    ensures Consistent(w, a + [m]) <==>
              Consistent(w, a) && (m.Logged? ==> Follows(w, m.row)) && (m.Started? ==> w.parentOf(m.run) == None)
  {
    assert (a + [m])[..|a|] == a;
  }

  lemma {:induction false} StartsPart(w: World, messages: seq<Message>)
    requires Consistent(w, messages)
    ensures Consistent(w, StartsOf(messages)) && Received(StartsOf(messages)) == {}
    ensures StartedRuns(StartsOf(messages)) == StartedRuns(messages)
    ensures forall m :: m in StartsOf(messages) ==> m.Started?
  {
    if messages != [] {
      var n := |messages| - 1;
      StartsPart(w, messages[..n]);
      if messages[n].Started? {
        StreamSnoc(w, StartsOf(messages[..n]), messages[n]);
      } else {
        assert StartsOf(messages) == StartsOf(messages[..n]);
      }
    }
  }

  lemma {:induction false} LogsPart(w: World, messages: seq<Message>)
    requires Consistent(w, messages)
    ensures Consistent(w, LogsOf(messages)) && Received(LogsOf(messages)) == Received(messages)
    ensures StartedRuns(LogsOf(messages)) == {}
    ensures forall m :: m in LogsOf(messages) ==> m.Logged?
  {
    if messages != [] {
      var n := |messages| - 1;
      LogsPart(w, messages[..n]);
      if messages[n].Logged? {
        StreamSnoc(w, LogsOf(messages[..n]), messages[n]);
      } else {
        assert LogsOf(messages) == LogsOf(messages[..n]);
      }
    }
  }

  /** Either part of the stream first. */
  lemma BothOrders(w: World, messages: seq<Message>)
    requires Consistent(w, messages)
    ensures Consistent(w, StartsOf(messages) + LogsOf(messages))
            && Alike(StartsOf(messages) + LogsOf(messages), messages)
    ensures Consistent(w, LogsOf(messages) + StartsOf(messages))
            && Alike(LogsOf(messages) + StartsOf(messages), messages)
    ensures Received(StartsOf(messages) + LogsOf(messages)) == Received(messages)
    ensures Received(LogsOf(messages) + StartsOf(messages)) == Received(messages)
  {
    StartsPart(w, messages);
    LogsPart(w, messages);
    StreamConcat(w, StartsOf(messages), LogsOf(messages));
    StreamConcat(w, LogsOf(messages), StartsOf(messages));
  }

  // ---------- starts hold and release nothing ----------

  lemma PlaySnoc(before: seq<Message>, m: Message)
    ensures Play(before + [m]) == Handle(Play(before), m)
  {
    assert (before + [m])[..|before|] == before;
  }

  lemma {:induction false} StartsHold(before: seq<Message>, starts: seq<Message>)
    requires forall m :: m in starts ==> m.Started?
    ensures Play(before + starts).held == Play(before).held
    decreases |starts|
  {
    hide Play;
    if starts == [] {
      assert before + starts == before;
    } else {
      var n := |starts| - 1;
      assert before + starts == (before + starts[..n]) + [starts[n]];
      assert starts[n] in starts && forall m :: m in starts[..n] ==> m in starts;
      StartsHold(before, starts[..n]);
      PlaySnoc(before + starts[..n], starts[n]);
    }
  }

  // ---------- once a run is on screen, nothing new waits for it ----------

  ghost predicate NoneHeld(held: seq<Held>, x: RunId) {
    forall h :: h in held ==> h.key != ByParent(x)
  }

  lemma DoNoneHeld(w: World, s: State, t: Task, rest: seq<Task>, received: set<Row>, x: RunId)
    requires Inv(w, s, [t] + rest, received) && x in Hosts(s.runs) && NoneHeld(s.held, x)
    ensures NoneHeld(Do(s, t).0.held, x)
  {
    hide RunOk, HeldOk;
    assert t in [t] + rest;
    match t
    case DrainParent(y) => SelectWithout(s.held, ByParent(y));
    case DrainStep(y, c) => SelectWithout(s.held, ByStep(y, c));
    case Attach(draw) => FindContainerSome(w, s.runs, draw.parent.value);
  }

  lemma {:induction false} WorkNoneHeld(w: World, s: State, agenda: seq<Task>, received: set<Row>, x: RunId)
    requires Inv(w, s, agenda, received) && x in Hosts(s.runs) && NoneHeld(s.held, x)
    ensures NoneHeld(Work(s, agenda).held, x)
    decreases |s.held| + |InFlight(agenda)|, |agenda| - |InFlight(agenda)|, |InFlight(agenda)|
  {
    hide Inv, NoneHeld;
    if agenda != [] {
      assert agenda == [agenda[0]] + agenda[1..];
      DoNoneHeld(w, s, agenda[0], agenda[1..], received, x);
      DoKeeps(w, s, agenda[0], agenda[1..], received);
      DoDecreases(s, agenda);
      InFlightLength(agenda);
      WorkNoneHeld(w, Do(s, agenda[0]).0, Do(s, agenda[0]).1 + agenda[1..], received, x);
    }
  }

  lemma RowNoneHeld(w: World, s: State, row: Row, received: set<Row>, x: RunId)
    requires Inv(w, s, [], received) && Follows(w, row) && x in Hosts(s.runs) && NoneHeld(s.held, x)
    ensures NoneHeld(HandleRow(s, row).held, x)
  {
    hide Inv, NoneHeld;
    if row.parent.Some? {
      AddAttach(w, s, row, received);
      WorkNoneHeld(w, s, [Attach(row)], received + {Core(row)}, x);
    } else {
      PromptNoneHeld(w, s, row, received, x);
    }
  }

  lemma PromptNoneHeld(w: World, s: State, row: Row, received: set<Row>, x: RunId)
    requires Inv(w, s, [], received) && Follows(w, row) && row.parent == None
    requires x in Hosts(s.runs) && NoneHeld(s.held, x)
    ensures NoneHeld(HandleRow(s, row).held, x)
  {
    hide Structure;
    var s' := ShowPrompt(s, row);
    ShowPromptStructure(w, s, row);
    ShowKeeps(w, s, s', row, [], received);
    assert Drains(row) + [] == Drains(row);
    WorkNoneHeld(w, s', Drains(row), received + {Core(row)}, x);
  }

  lemma {:induction false} LogsNoneHeld(w: World, before: seq<Message>, logs: seq<Message>, x: RunId)
    requires Consistent(w, before + logs) && forall m :: m in logs ==> m.Logged?
    requires x in StartedRuns(before) && NoneHeld(Play(before).held, x)
    ensures NoneHeld(Play(before + logs).held, x)
    decreases |logs|
  {
    hide Inv, NoneHeld, Received, Play;
    if logs == [] {
      assert before + logs == before;
    } else {
      var n := |logs| - 1;
      var front := before + logs[..n];
      assert (before + logs)[..|before| + n] == front;
      assert logs[n] in logs && forall m :: m in logs[..n] ==> m in logs;
      LogsNoneHeld(w, before, logs[..n], x);
      PlayKeeps(w, front);
      HostsOfPlay(w, front);
      StreamConcat(w, before, logs[..n]);
      assert before + logs == front + [logs[n]];
      StreamSnoc(w, front, logs[n]);
      PlaySnoc(front, logs[n]);
      RowNoneHeld(w, Play(front), logs[n].row, Received(front), x);
    }
  }

  // ---------- the theorem ----------

  /** All logged rows first: a draw that names an unlogged run waits for it. */
  lemma WaitsWhenEarly(w: World, messages: seq<Message>, row: Row)
    requires Consistent(w, messages) && StartedRuns(messages) == {} && row in Received(messages)
    requires row.parent.Some? && row.parent.value !in OwnRuns(Received(messages))
            && w.parentOf(row.parent.value) == None
    ensures (ByParent(row.parent.value), row) in HeldPlaces(Play(messages))
  {
    var s, received, x := Play(messages), Received(messages), row.parent.value;
    PlayKeeps(w, messages);
    HostsOfPlay(w, messages);
    NoRowOfUnlogged(w, s, received, x);
    assert row !in Shown(s.runs) by {
      assert row in Shown(s.runs) ==> Ready(Hosts(s.runs), Shown(s.runs), row);
    }
    assert FlightCores([]) == {};
    var h :| h in s.held && Core(h.draw) == row;
    assert h.draw.parent == row.parent;
    assert Waits(Hosts(s.runs), Shown(s.runs), [], h);
    assert (h.key, Core(h.draw)) in HeldPlaces(s);
  }

  lemma NoRowOfUnlogged(w: World, s: State, received: set<Row>, x: RunId)
    requires Inv(w, s, [], received) && w.parentOf(x) == None && x !in OwnRuns(received)
    ensures !HasRow(Shown(s.runs), x)
  {
    forall row | row in Shown(s.runs) ensures row.runId != x {
      ShownFollows(w, s.runs, row);
      assert row in received;
    }
  }

  /** All starts first: nothing ever waits for a run that has started. */
  lemma NeverWaitsWhenLate(w: World, messages: seq<Message>, x: RunId)
    requires Consistent(w, messages) && x in StartedRuns(messages)
    ensures NoneHeld(Play(StartsOf(messages) + LogsOf(messages)).held, x)
  {
    StartsPart(w, messages);
    LogsPart(w, messages);
    BothOrders(w, messages);
    StartsHold([], StartsOf(messages));
    assert [] + StartsOf(messages) == StartsOf(messages);
    LogsNoneHeld(w, StartsOf(messages), LogsOf(messages), x);
  }

  lemma {:induction false} StartedHasNoParent(w: World, messages: seq<Message>, x: RunId)
    requires Consistent(w, messages) && x in StartedRuns(messages)
    ensures w.parentOf(x) == None
  {
    if messages != [] {
      var n := |messages| - 1;
      if x in StartedRuns(messages[..n]) {
        StartedHasNoParent(w, messages[..n], x);
      }
    }
  }

  lemma OrdersDiffer(w: World, messages: seq<Message>)
    requires Consistent(w, messages) && !NamesNoShell(messages)
    ensures !SameScreen(Play(StartsOf(messages) + LogsOf(messages)), Play(LogsOf(messages) + StartsOf(messages)))
  {
    hide SameScreen, Play;
    var row :| row in Received(messages) && row.parent.Some? && row.parent.value in Unlogged(messages);
    var x := row.parent.value;
    StartsPart(w, messages);
    LogsPart(w, messages);
    StartedHasNoParent(w, messages, x);
    WaitsWhenEarly(w, LogsOf(messages), row);
    StartsHold(LogsOf(messages), StartsOf(messages));
    NeverWaitsWhenLate(w, messages, x);
    PlacesDiffer(Play(StartsOf(messages) + LogsOf(messages)), Play(LogsOf(messages) + StartsOf(messages)), row);
  }

  lemma PlacesDiffer(s: State, t: State, row: Row)
    requires row.parent.Some? && NoneHeld(s.held, row.parent.value)
            && (ByParent(row.parent.value), row) in HeldPlaces(t)
    ensures !SameScreen(s, t)
  {
    assert (ByParent(row.parent.value), row) !in HeldPlaces(s);
  }

  /** Every order of what a stream brings ends with the same screen, exactly when no received
      draw names a run that has started and not logged. */
  lemma OrderMattersExactly(w: World, messages: seq<Message>)
    requires Consistent(w, messages)
    ensures (forall a, b :: Consistent(w, a) && Consistent(w, b) && Alike(a, messages) && Alike(b, messages) ==>
               SameScreen(Play(a), Play(b)))
       <==> NamesNoShell(messages)
  {
    hide SameScreen, Play, Consistent;
    if NamesNoShell(messages) {
      forall a, b | Consistent(w, a) && Consistent(w, b) && Alike(a, messages) && Alike(b, messages)
        ensures SameScreen(Play(a), Play(b))
      {
        AlikeStreams(messages, a);
        OrderDoesNotMatter(w, a, b);
      }
    } else {
      BothOrders(w, messages);
      OrdersDiffer(w, messages);
    }
  }
}
