/** What nested calls need to know of the state, and what one item of the agenda comes to
    when it is worked off on its own. */
module Keeping {
  import opened Options
  import opened Rows
  import opened RunLog
  import opened LogStructure
  import opened LogInvariant

  /** Runs are built from consistent rows, and every held draw is held under its parent. */
  ghost predicate Kept(w: World, s: State) {
    Structure(w, s.runs) && forall h :: h in s.held ==> HeldRight(w, h)
  }

  ghost predicate HeldRight(w: World, h: Held) {
    && Follows(w, h.draw) && h.draw.parent == Some(h.key.run)
    && (h.key.ByStep? ==> h.draw.anchor == Some(h.key.call))
  }

  /** The handlers ask no more than the run log's own invariant, which every run keeps. */
  lemma InvIsKept(w: World, s: State, received: set<Row>)
    requires Inv(w, s, [], received)
    ensures Kept(w, s)
  {
    forall h | h in s.held ensures HeldRight(w, h) {
      assert Waits(Hosts(s.runs), Shown(s.runs), [], h);
    }
  }

  lemma DoKept(w: World, s: State, t: Task)
    requires Kept(w, s) && FlightOk(w, [t])
    ensures Kept(w, Do(s, t).0) && FlightOk(w, Do(s, t).1)
  {
    hide Structure, Place;
    assert t in [t];
    match t
    case DrainParent(x) => ReleaseKept(w, s, ByParent(x));
    case DrainStep(x, c) => ReleaseKept(w, s, ByStep(x, c));
    case Attach(draw) =>
      var c := FindContainer(s.runs, draw.parent.value);
      if c.Some? && !WaitsForStep(c.value.rows, draw) {
        PlacedKept(w, s, draw);
        DrainsFlight(w, draw, []);
        assert Drains(draw) + [] == Drains(draw);
      }
  }

  lemma PlacedKept(w: World, s: State, draw: Row)
    requires Kept(w, s) && Follows(w, draw) && draw.parent.Some?
    requires FindContainer(s.runs, draw.parent.value).Some?
    ensures Kept(w, Place(s, FindContainer(s.runs, draw.parent.value).value.index, draw))
  {
    PlaceStructure(w, s, draw);
  }

  lemma ReleaseKept(w: World, s: State, key: Key)
    requires Kept(w, s)
    ensures Kept(w, Release(s, key).0) && FlightOk(w, Release(s, key).1)
    ensures forall draw :: draw in Select(s.held, key) ==> HeldRight(w, Held(key, draw))
  {
    SelectWithout(s.held, key);
    forall draw | draw in Select(s.held, key) ensures HeldRight(w, Held(key, draw)) {
      assert Held(key, draw) in s.held;
    }
  }

  lemma {:induction false} WorkKept(w: World, s: State, agenda: seq<Task>)
    requires Kept(w, s) && FlightOk(w, agenda)
    ensures Kept(w, Work(s, agenda)) && |Work(s, agenda).held| <= |s.held| + |InFlight(agenda)|
    decreases |s.held| + |InFlight(agenda)|, |agenda| - |InFlight(agenda)|, |InFlight(agenda)|
  {
    if agenda != [] {
      assert agenda[0] in agenda;
      DoKept(w, s, agenda[0]);
      DoDecreases(s, agenda);
      InFlightLength(agenda);
      assert forall t :: t in Do(s, agenda[0]).1 + agenda[1..] ==> t in Do(s, agenda[0]).1 || t in agenda;
      WorkKept(w, Do(s, agenda[0]).0, Do(s, agenda[0]).1 + agenda[1..]);
    }
  }

  lemma {:induction false} SelectAppend(held: seq<Held>, h: Held, key: Key)
    ensures Select(held + [h], key) == Select(held, key) + if h.key == key then [h.draw] else []
  {
    if held == [] {
      assert held + [h] == [h];
    } else {
      hide Select;
      var first, rest := held[0], held[1..];
      SelectAppend(rest, h, key);
      assert held == [first] + rest && held + [h] == [first] + (rest + [h]);
      SelectCons(first, rest, key);
      SelectCons(first, rest + [h], key);
    }
  }

  lemma {:induction false} SelectOther(held: seq<Held>, key: Key, other: Key)
    ensures Select(Without(held, key), other) == if other == key then [] else Select(held, other)
  {
    if held != [] {
      SelectOther(held[1..], key, other);
      if held[0].key != key {
        assert Without(held, key) == [held[0]] + Without(held[1..], key);
        assert Without(held, key)[1..] == Without(held[1..], key);
      } else {
        assert Without(held, key) == Without(held[1..], key);
      }
    }
  }

  /** A drain attaches, in their order, the draws that it releases. */
  lemma DrainOutcome(w: World, s: State, key: Key)
    requires Kept(w, s)
    ensures Work(s, [DrainOf(key)])
         == Work(s.(held := Without(s.held, key)), AttachAll(Select(s.held, key)))
    ensures Kept(w, s.(held := Without(s.held, key)))
    ensures |Work(s, [DrainOf(key)]).held| <= |s.held|
    ensures forall draw :: draw in Select(s.held, key) ==> HeldRight(w, Held(key, draw))
  {
    WorkOne(s, DrainOf(key));
    ReleaseKept(w, s, key);
    WorkKept(w, s, [DrainOf(key)]);
  }

  lemma AttachNothing(s: State, draw: Row)
    requires draw.parent == None
    ensures Work(s, [Attach(draw)]) == s
  {
    WorkOne(s, Attach(draw));
  }

  /** The three outcomes of attaching a draw. */
  lemma AttachOutcome(w: World, s: State, draw: Row)
    requires Kept(w, s) && Follows(w, draw) && draw.parent.Some?
    ensures var found := FindContainer(s.runs, draw.parent.value);
            Work(s, [Attach(draw)])
            == if found.None? then Hold(s, ByParent(draw.parent.value), draw)
               else if WaitsForStep(found.value.rows, draw)
                   then Hold(s, ByStep(draw.parent.value, draw.anchor.value), draw)
               else Work(Place(s, found.value.index, draw), Drains(draw))
    ensures Kept(w, Work(s, [Attach(draw)]))
  {
    WorkOne(s, Attach(draw));
    WorkKept(w, s, [Attach(draw)]);
  }
}
