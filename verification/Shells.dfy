/** Where arrival order does matter: a run whose first call has started but not logged is
    on screen as an empty shell, and putting the shell there drains nothing. */
module Shells {
  import opened Options
  import opened Rows
  import opened DrawNesting
  import opened RunLog
  import opened LogStructure
  import opened LogInvariant
  import opened LeastClosure

  const X := RunId("x")
  const P := Row(1, X, None, None, [], 5, 1, 0, 0, None)
  const D := Row(2, RunId("d"), Some(X), None, [], 4, 1, 0, 0, None)
  const REVISED := D.(discard := Some("degenerate_output"))
  const ANCHORED := D.(anchor := Some(CallId("c")))

  /** A draw that arrives before its parent's shell waits; after the shell it does not. */
  lemma ShellOrderMatters()
    ensures !(Core(D) in Shown(Play([Logged(D), Started(X, 0)]).runs))
    ensures Core(D) in Shown(Play([Started(X, 0), Logged(D)]).runs)
    ensures Received([Logged(D), Started(X, 0)]) == Received([Started(X, 0), Logged(D)])
  {
    HeldBeforeShell();
    var early := Play([Logged(D), Started(X, 0)]);
    assert early.runs == [Shell(X, 0)];
    assert AllRows(Shell(X, 0)) == [];
    ShellThenDraw();
    var late := Play([Started(X, 0), Logged(D)]);
    assert D in AllRows(late.runs[0]);
    ShownAt(late.runs, late.runs[0], D);
    assert forall m :: m in [Logged(D), Started(X, 0)] <==> m in [Started(X, 0), Logged(D)];
  }

  lemma PlayStep(before: seq<Message>, m: Message)
    ensures Play(before + [m]) == Handle(Play(before), m)
  {
    assert (before + [m])[..|before|] == before;
  }

  lemma HeldBeforeShell()
    ensures Play([Logged(D)]) == State([], [Held(ByParent(X), D)])
    ensures Play([Logged(D), Started(X, 0)]) == State([Shell(X, 0)], [Held(ByParent(X), D)])
  {
  }

  lemma ShellThenDraw()
    ensures Play([Started(X, 0), Logged(D)]).runs != [] && Play([Started(X, 0), Logged(D)]).runs[0].draws == [D]
  {
    PlayStep([], Started(X, 0));
    assert [] + [Started(X, 0)] == [Started(X, 0)];
    assert Play([]) == BLANK;
    assert [Shell(X, 0)] + BLANK.runs == [Shell(X, 0)];
    assert Play([Started(X, 0)]) == State([Shell(X, 0)], []);
    PlayStep([Started(X, 0)], Logged(D));
    assert [Started(X, 0)] + [Logged(D)] == [Started(X, 0), Logged(D)];
    PlacedOnShell([], D);
    assert Upsert([], D) == [D];
  }

  /** A draw without an anchor is placed straight on its parent's shell. */
  lemma PlacedOnShell(held: seq<Held>, draw: Row)
    requires draw.parent == Some(X) && draw.anchor == None && draw.dispatched == []
    requires forall h :: h in held ==> h.key.run == X
    requires draw.runId != X
    ensures HandleRow(State([Shell(X, 0)], held), draw) == State([WithDraw(Shell(X, 0), draw)], held)
  {
    var s := State([Shell(X, 0)], held);
    assert FindContainer(s.runs, X, 0) == Some(Container(0, []));
    assert Do(s, Attach(draw)) == (Place(s, 0, draw), Drains(draw));
    assert [Shell(X, 0)][0 := WithDraw(Shell(X, 0), draw)] == [WithDraw(Shell(X, 0), draw)];
    var placed := State([WithDraw(Shell(X, 0), draw)], held);
    assert Place(s, 0, draw) == placed;
    WorkOne(s, Attach(draw));
    assert Drains(draw) == [DrainParent(draw.runId)];
    NothingUnder(held, draw.runId);
    WorkOne(placed, DrainParent(draw.runId));
    assert Do(placed, DrainParent(draw.runId)) == (placed, []);
  }

  lemma {:induction false} NothingUnder(held: seq<Held>, x: RunId)
    requires forall h :: h in held ==> h.key.run != x
    ensures Select(held, ByParent(x)) == [] && Without(held, ByParent(x)) == held
  {
    if held != [] {
      NothingUnder(held[1..], x);
    }
  }

  /** A draw held before the shell and revised after it is in two places at once, and
      the own prompt that drains the older copy puts it back over the newer one. */
  lemma ShellLosesRevision()
    ensures var s := Play([Logged(D), Started(X, 0), Logged(REVISED)]);
            s.runs != [] && s.runs[0].draws == [REVISED] && s.held == [Held(ByParent(X), D)]
    ensures var s := Play([Logged(D), Started(X, 0), Logged(REVISED), Logged(P)]);
            s.runs != [] && s.runs[0].draws == [D] && s.held == []
  {
    hide Play, HandleRow, WithDraw;
    var three := [Logged(D), Started(X, 0)] + [Logged(REVISED)];
    HeldAndShown();
    assert three == [Logged(D), Started(X, 0), Logged(REVISED)];
    PlayStep(three, Logged(P));
    assert three + [Logged(P)] == [Logged(D), Started(X, 0), Logged(REVISED), Logged(P)];
    OlderCopyReturns(Play(three));
  }

  lemma HeldAndShown()
    ensures Play([Logged(D), Started(X, 0), Logged(REVISED)])
         == State([WithDraw(Shell(X, 0), REVISED)], [Held(ByParent(X), D)])
    ensures WithDraw(Shell(X, 0), REVISED).draws == [REVISED] && WithDraw(Shell(X, 0), REVISED).runId == X
  {
    HeldBeforeShell();
    PlayStep([Logged(D), Started(X, 0)], Logged(REVISED));
    assert [Logged(D), Started(X, 0)] + [Logged(REVISED)] == [Logged(D), Started(X, 0), Logged(REVISED)];
    PlacedOnShell([Held(ByParent(X), D)], REVISED);
    assert Upsert([], REVISED) == [REVISED];
  }

  lemma OlderCopyReturns(s: State)
    requires |s.runs| == 1 && s.runs[0].runId == X && s.runs[0].draws == [REVISED] && s.held == [Held(ByParent(X), D)]
    ensures HandleRow(s, P).runs != [] && HandleRow(s, P).runs[0].draws == [D] && HandleRow(s, P).held == []
  {
    var s1 := ShowPrompt(s, P);
    assert FindRun(s.runs, X) == 0;
    assert s1.runs == [WithPrompt(s.runs[0], P)] && s1.runs[0].draws == [REVISED] && s1.runs[0].runId == X;
    assert Drains(P) == [DrainParent(X)];
    WorkOne(s1, DrainParent(X));
    assert [Held(ByParent(X), D)][1..] == [];
    assert Select(s1.held, ByParent(X)) == [D] && Without(s1.held, ByParent(X)) == [];
    assert [D][1..] == [] && AttachAll([D]) == [Attach(D)];
    OlderCopyPlaced(s1.(held := []));
  }

  lemma OlderCopyPlaced(s: State)
    requires |s.runs| == 1 && s.runs[0].runId == X && s.runs[0].draws == [REVISED] && s.held == []
    ensures Work(s, [Attach(D)]).runs != []
            && Work(s, [Attach(D)]).runs[0].draws == [D] && Work(s, [Attach(D)]).held == []
  {
    WorkOne(s, Attach(D));
    assert FindContainer(s.runs, X, 0).value.index == 0;
    var placed := Place(s, 0, D);
    assert FindId([REVISED], D.id) == 0 && Upsert([REVISED], D) == [D];
    assert placed.runs == [WithDraw(s.runs[0], D)];
    assert Drains(D) == [DrainParent(D.runId)];
    WorkOne(placed, DrainParent(D.runId));
    assert Do(placed, DrainParent(D.runId)) == (placed, []);
  }

  /** A draw with an anchor that comes before the shell and again after it is held twice:
      for the run, and for the step. */
  lemma ShellSplitsDraw()
    ensures Play([Logged(ANCHORED), Started(X, 0), Logged(ANCHORED)])
         == State([Shell(X, 0)], [Held(ByParent(X), ANCHORED), Held(ByStep(X, CallId("c")), ANCHORED)])
  {
    var two, s := [Logged(ANCHORED), Started(X, 0)], State([Shell(X, 0)], [Held(ByParent(X), ANCHORED)]);
    AnchoredBeforeShell();
    PlayStep(two, Logged(ANCHORED));
    assert two + [Logged(ANCHORED)] == [Logged(ANCHORED), Started(X, 0), Logged(ANCHORED)];
    assert FindContainer(s.runs, X, 0) == Some(Container(0, []));
    WorkOne(s, Attach(ANCHORED));
  }

  lemma AnchoredBeforeShell()
    ensures Play([Logged(ANCHORED), Started(X, 0)]) == State([Shell(X, 0)], [Held(ByParent(X), ANCHORED)])
  {
    PlayStep([], Logged(ANCHORED));
    assert [] + [Logged(ANCHORED)] == [Logged(ANCHORED)];
    PlayStep([Logged(ANCHORED)], Started(X, 0));
    assert [Logged(ANCHORED)] + [Started(X, 0)] == [Logged(ANCHORED), Started(X, 0)];
  }

  /** A row that is both on screen and held is held for a run that is on screen as a shell.
      A row can also be held under two keys, or come back in an older copy without ever being
      in two places; Places.dfy and NewestShown.dfy say exactly when. */
  lemma TwoPlacesOnlyUnderShell(w: World, s: State, received: set<Row>, h: Held)
    requires Inv(w, s, [], received) && SupportedState(s) && h in s.held
    ensures Core(h.draw) in Shown(s.runs)
            ==> h.key.ByParent? && h.key.run in Hosts(s.runs) && !HasRow(Shown(s.runs), h.key.run)
  {
    var row := Core(h.draw);
    assert row.parent == h.draw.parent && row.anchor == h.draw.anchor;
    assert Waits(Hosts(s.runs), Shown(s.runs), [], h);
    assert row in Shown(s.runs) ==> Ready(Hosts(s.runs), Shown(s.runs), row);
  }
}
