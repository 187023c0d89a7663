/** Which copy of a held draw is on screen once its run has been fetched. */
module FetchedCopies {
  import opened Options
  import opened Rows
  import opened DrawNesting
  import opened RunLog
  import opened LogInvariant
  import opened Keeping
  import opened LeastClosure
  import opened Reconcile
  import opened HeldOrder
  import opened FetchKeeps
  import opened Shells

  /** All copies of one row are held for its parent run, or for its one step. */
  lemma HeldInOnePlace(w: World, s: State, h: Held, c: CallId)
    requires Kept(w, s) && h in s.held && (h.draw.anchor.Some? ==> h.draw.anchor.value == c)
    ensures OnePlace(s.held, h.draw.id, h.key.run, c)
    ensures h.draw in HeldCopies(s.held, h.draw.id, h.key.run, c)
  {
    assert HeldRight(w, h);
    forall other | other in s.held && other.draw.id == h.draw.id
      ensures other.key == ByParent(h.key.run) || other.key == ByStep(h.key.run, c)
    {
      assert HeldRight(w, other);
      assert Core(other.draw).parent == other.draw.parent && Core(other.draw).anchor == other.draw.anchor;
      assert Core(h.draw).parent == h.draw.parent && Core(h.draw).anchor == h.draw.anchor;
    }
    SelectWithout(s.held, h.key);
    assert h == Held(h.key, h.draw);
  }

  /** A held draw that a fetched run absorbs without having fetched it is on the run in the
      first copy that was held, and so in the last one exactly when they are the same. */
  lemma FirstHeldJoins(w: World, s: State, run: RunView, s': State, h: Held, c: CallId)
    requires Kept(w, s) && Joins(s, run, s') && FindId(run.draws, h.draw.id) == -1
    requires h in s.held && h.key.run in Absorbing(run, s.held)
    requires h.draw.anchor.Some? ==> h.draw.anchor.value == c
    ensures s'.runs != [] && HeldCopies(s.held, h.draw.id, h.key.run, c) != []
    ensures var draws, first := s'.runs[|s'.runs| - 1].draws, HeldCopies(s.held, h.draw.id, h.key.run, c)[0];
            first in draws && forall kept :: kept in draws && kept.id == h.draw.id ==> kept == first
    ensures var draws, copies := s'.runs[|s'.runs| - 1].draws, HeldCopies(s.held, h.draw.id, h.key.run, c);
            copies[|copies| - 1] in draws <==> copies[|copies| - 1] == copies[0]
  {
    hide Absorbing, Dedupe, HeldCopies, OnePlace, Gathered, FindId;
    var absorbed :|
      && multiset(absorbed) == multiset(Inside(s.held, Absorbing(run, s.held)))
      && Gathered(s.held, Absorbing(run, s.held), absorbed)
      && s' == State(s.runs + [Merged(run, absorbed)], Outside(s.held, Absorbing(run, s.held)));
    HeldInOnePlace(w, s, h, c);
    FirstHeldStays(run.draws, absorbed, s.held, Absorbing(run, s.held), h.draw.id, h.key.run, c);
    HeldCopiesAlike(s.held, h.draw.id, h.key.run, c);
  }

  lemma HeldCopiesAlike(held: seq<Held>, id: int, x: RunId, c: CallId)
    ensures forall copy :: copy in HeldCopies(held, id, x, c) ==> copy.id == id
  {
  }

  const FETCHED := RunView(X, 1, 4, 5, 1, 1, 0, 0, None, None, [P], [])

  /** So a draw that was revised while it was held comes back unrevised. */
  lemma FetchLosesRevision(w: World, s': State)
    requires Consistent(w, [Logged(D), Logged(REVISED)])
    requires Joins(Play([Logged(D), Logged(REVISED)]), FETCHED, s')
    ensures s'.runs != [] && D in s'.runs[|s'.runs| - 1].draws && REVISED !in s'.runs[|s'.runs| - 1].draws
  {
    var s := Play([Logged(D), Logged(REVISED)]);
    HeldTwice();
    BothCopies();
    PlayKeeps(w, [Logged(D), Logged(REVISED)]);
    InvIsKept(w, s, Received([Logged(D), Logged(REVISED)]));
    var h, c := Held(ByParent(X), D), CallId("");
    assert h == s.held[0];
    ReachedIsLeast({X}, s.held);
    assert X in Start(FETCHED);
    FirstHeldJoins(w, s, FETCHED, s', h, c);
  }

  lemma HeldTwice()
    ensures Play([Logged(D), Logged(REVISED)]) == State([], [Held(ByParent(X), D), Held(ByParent(X), REVISED)])
  {
    PlayStep([Logged(D)], Logged(REVISED));
    assert [Logged(D)] + [Logged(REVISED)] == [Logged(D), Logged(REVISED)];
  }

  lemma BothCopies()
    ensures CopiesIn(Select([Held(ByParent(X), D), Held(ByParent(X), REVISED)], ByParent(X)), D.id) == [D, REVISED]
  {
    hide Select, CopiesIn;
    var later := Held(ByParent(X), REVISED);
    assert [Held(ByParent(X), D), later] == [Held(ByParent(X), D)] + [later] && [later] == [later] + [];
    SelectCons(later, [], ByParent(X));
    SelectCons(Held(ByParent(X), D), [later], ByParent(X));
    assert Select([], ByParent(X)) == [] && CopiesIn([], D.id) == [] by {
      NothingUnder([], X);
      NoCopies([], D.id);
    }
    assert [D, REVISED] == [D] + [REVISED] && [REVISED] == [REVISED] + [];
    CopiesCons(REVISED, [], D.id);
    CopiesCons(D, [REVISED], D.id);
  }
}
