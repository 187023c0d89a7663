/** The recursion neither loses nor invents a copy: what was held or in flight is held or
    placed in the end, each copy as often as before. */
module Conservation {
  import opened Options
  import opened Rows
  import opened DrawNesting
  import opened RunLog
  import opened Reconcile

  /** The held copies, each as often as it is held. */
  function HeldBag(held: seq<Held>): multiset<Row> {
    if held == [] then multiset{} else multiset{held[0].draw} + HeldBag(held[1..])
  }

  lemma BagCons(h: Held, rest: seq<Held>)
    ensures HeldBag([h] + rest) == multiset{h.draw} + HeldBag(rest)
  {
    assert ([h] + rest)[1..] == rest;
  }

  lemma {:induction false} BagSnoc(held: seq<Held>, h: Held)
    ensures HeldBag(held + [h]) == HeldBag(held) + multiset{h.draw}
  {
    if held == [] {
      assert held + [h] == [h] && [h][1..] == [];
    } else {
      hide HeldBag;
      var first, rest := held[0], held[1..];
      assert held == [first] + rest;
      Regroup([first], rest, [h]);
      BagCons(first, rest);
      BagCons(first, rest + [h]);
      BagSnoc(rest, h);
    }
  }

  /** A drain takes exactly what it releases. */
  lemma {:induction false} ReleaseConserves(held: seq<Held>, key: Key)
    ensures HeldBag(held) == multiset(Select(held, key)) + HeldBag(Without(held, key))
  {
    if held == [] {
      assert Select(held, key) == [] && Without(held, key) == [];
    } else {
      hide HeldBag, Select, Without;
      var first, rest := held[0], held[1..];
      assert held == [first] + rest;
      ReleaseConserves(rest, key);
      BagCons(first, rest);
      SelectCons(first, rest, key);
      WithoutCons(first, rest, key);
      BagCons(first, Without(rest, key));
    }
  }

  /** The copy that an item places in a run, if it places one. */
  function PlacedBy(s: State, t: Task): multiset<Row> {
    if !t.Attach? || t.draw.parent == None then multiset{}
    else
      var c := FindContainer(s.runs, t.draw.parent.value);
      if c.None? || WaitsForStep(c.value.rows, t.draw) then multiset{} else multiset{t.draw}
  }

  function Flying(agenda: seq<Task>): multiset<Row> {
    multiset(InFlight(agenda))
  }

  lemma FlyingOne(t: Task)
    ensures Flying([t]) == if t.Attach? then multiset{t.draw} else multiset{}
  {
    assert [t][1..] == [];
    assert InFlight([t]) == if t.Attach? then [t.draw] else [];
  }

  lemma FlyingConcat(a: seq<Task>, b: seq<Task>)
    ensures Flying(a + b) == Flying(a) + Flying(b)
  {
    InFlightConcat(a, b);
  }

  /** A drain moves held copies into flight, and an attachment takes one out of flight, to
      hold it or to place it. */
  lemma DoConserves(s: State, t: Task)
    requires t.Attach? ==> t.draw.parent.Some?
    ensures HeldBag(Do(s, t).0.held) + Flying(Do(s, t).1) + PlacedBy(s, t) == HeldBag(s.held) + Flying([t])
  {
    hide HeldBag, Drains;
    FlyingOne(t);
    match t
    case DrainParent(x) => DrainConserves(s, ByParent(x));
    case DrainStep(x, c) => DrainConserves(s, ByStep(x, c));
    case Attach(draw) =>
      InFlightDrains(draw);
      assert Flying(Drains(draw)) == multiset{} && Flying([]) == multiset{};
      var c := FindContainer(s.runs, draw.parent.value);
      if c.None? {
        BagSnoc(s.held, Held(KeyOf(draw, false), draw));
      } else if WaitsForStep(c.value.rows, draw) {
        BagSnoc(s.held, Held(KeyOf(draw, true), draw));
      }
  }

  lemma DrainConserves(s: State, key: Key)
    ensures HeldBag(Release(s, key).0.held) + Flying(Release(s, key).1) == HeldBag(s.held)
  {
    ReleaseConserves(s.held, key);
    InFlightAttachAll(Select(s.held, key));
  }

  /** All copies that the whole recursion places. */
  ghost function PlacedAll(s: State, agenda: seq<Task>): multiset<Row>
    decreases |s.held| + |InFlight(agenda)|, |agenda| - |InFlight(agenda)|, |InFlight(agenda)|
  {
    if agenda == [] then multiset{}
    else
      DoDecreases(s, agenda);
      InFlightLength(agenda);
      PlacedBy(s, agenda[0]) + PlacedAll(Do(s, agenda[0]).0, Do(s, agenda[0]).1 + agenda[1..])
  }

  /** Every draw that is held or in flight has a parent. */
  ghost predicate OnlyDraws(s: State, agenda: seq<Task>) {
    && (forall t :: t in agenda && t.Attach? ==> t.draw.parent.Some?)
    && (forall h :: h in s.held ==> h.draw.parent.Some?)
  }

  lemma {:induction false} WorkConserves(s: State, agenda: seq<Task>)
    requires OnlyDraws(s, agenda)
    ensures HeldBag(Work(s, agenda).held) + PlacedAll(s, agenda) == HeldBag(s.held) + Flying(agenda)
    decreases |s.held| + |InFlight(agenda)|, |agenda| - |InFlight(agenda)|, |InFlight(agenda)|
  {
    hide HeldBag, Do, PlacedBy, OnlyDraws;
    if agenda == [] {
      assert Work(s, agenda) == s && Flying(agenda) == multiset{};
    } else {
      var t, rest := agenda[0], agenda[1..];
      assert agenda == [t] + rest;
      FirstConserves(s, t, rest);
      DoDecreases(s, agenda);
      InFlightLength(agenda);
      WorkConserves(Do(s, t).0, Do(s, t).1 + rest);
    }
  }

  lemma FirstConserves(s: State, t: Task, rest: seq<Task>)
    requires OnlyDraws(s, [t] + rest)
    ensures OnlyDraws(Do(s, t).0, Do(s, t).1 + rest)
    ensures HeldBag(Do(s, t).0.held) + Flying(Do(s, t).1 + rest) + PlacedBy(s, t)
         == HeldBag(s.held) + Flying([t] + rest)
  {
    hide HeldBag, Do, PlacedBy, Flying;
    assert t in [t] + rest && forall u :: u in rest ==> u in [t] + rest;
    DrawsStay(s, t);
    DoConserves(s, t);
    FlyingConcat([t], rest);
    FlyingConcat(Do(s, t).1, rest);
    AlsoWith(HeldBag(Do(s, t).0.held), Flying(Do(s, t).1), PlacedBy(s, t), HeldBag(s.held), Flying([t]), Flying(rest));
  }

  lemma AlsoWith<T>(a: multiset<T>, b: multiset<T>, c: multiset<T>, d: multiset<T>, e: multiset<T>, rest: multiset<T>)
    requires a + b + c == d + e
    ensures a + (b + rest) + c == d + (e + rest)
  {
    assert a + (b + rest) + c == a + b + c + rest;
  }

  lemma DrawsStay(s: State, t: Task)
    requires OnlyDraws(s, [t])
    ensures OnlyDraws(Do(s, t).0, Do(s, t).1)
  {
    assert t in [t];
    if !t.Attach? {
      var key := if t.DrainParent? then ByParent(t.run) else ByStep(t.run, t.call);
      ReleasedWereHeld(s.held, key);
    }
  }

  lemma {:induction false} ReleasedWereHeld(held: seq<Held>, key: Key)
    ensures forall draw :: draw in Select(held, key) ==> exists h :: h in held && h.draw == draw
    ensures forall h :: h in Without(held, key) ==> h in held
  {
    if held != [] {
      ReleasedWereHeld(held[1..], key);
      assert held == [held[0]] + held[1..] && held[0] in held;
    }
  }
}
