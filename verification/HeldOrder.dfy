/** The order in which a fetched run absorbs the held copies of one row. */
module HeldOrder {
  import opened Filters
  import opened Rows
  import opened DrawNesting
  import opened RunLog
  import opened LogInvariant
  import opened Keeping
  import opened Reconcile

  /** The copies of one row, in their order. */
  function CopiesIn(rows: seq<Row>, id: int): (copies: seq<Row>)
    ensures forall row :: row in copies <==> row in rows && row.id == id
  {
    if rows == [] then []
    else
      assert rows == [rows[0]] + rows[1..];
      (if rows[0].id == id then [rows[0]] else []) + CopiesIn(rows[1..], id)
  }

  lemma {:induction false} CopiesConcat(a: seq<Row>, b: seq<Row>, id: int)
    ensures CopiesIn(a + b, id) == CopiesIn(a, id) + CopiesIn(b, id)
  {
    if a == [] {
      assert a + b == b;
    } else {
      hide CopiesIn;
      var first, rest := a[0], a[1..];
      assert a == [first] + rest;
      Regroup([first], rest, b);
      CopiesConcat(rest, b, id);
      CopiesCons(first, rest, id);
      CopiesCons(first, rest + b, id);
      Regroup(if first.id == id then [first] else [], CopiesIn(rest, id), CopiesIn(b, id));
    }
  }

  lemma CopiesCons(first: Row, rest: seq<Row>, id: int)
    ensures CopiesIn([first] + rest, id) == (if first.id == id then [first] else []) + CopiesIn(rest, id)
  {
    assert ([first] + rest)[1..] == rest;
  }

  lemma NoCopies(rows: seq<Row>, id: int)
    requires forall row :: row in rows ==> row.id != id
    ensures CopiesIn(rows, id) == []
  {
    if CopiesIn(rows, id) != [] {
      assert CopiesIn(rows, id)[0] in CopiesIn(rows, id);
      assert false;
    }
  }

  lemma {:induction false} FirstCopy(rows: seq<Row>, id: int)
    requires CopiesIn(rows, id) != []
    ensures FindId(rows, id) != -1 && rows[FindId(rows, id)] == CopiesIn(rows, id)[0]
  {
    if rows[0].id != id {
      FirstCopy(rows[1..], id);
    }
  }

  /** Whatever is held of the row is held for the run, or for its one step. */
  ghost predicate OnePlace(held: seq<Held>, id: int, x: RunId, c: CallId) {
    forall h :: h in held && h.draw.id == id ==> h.key == ByParent(x) || h.key == ByStep(x, c)
  }

  /** The held copies: those for the run in their order, then those for the step. */
  function HeldCopies(held: seq<Held>, id: int, x: RunId, c: CallId): seq<Row> {
    CopiesIn(Select(held, ByParent(x)), id) + CopiesIn(Select(held, ByStep(x, c)), id)
  }

  /** Of every row, what was held for the runs is absorbed in that order. */
  ghost predicate Gathered(held: seq<Held>, done: set<RunId>, absorbed: seq<Row>) {
    forall id, x, c :: OnePlace(held, id, x, c) ==>
                         CopiesIn(absorbed, id) == if x in done then HeldCopies(held, id, x, c) else []
  }

  // ---------- what a release takes and leaves ----------

  function DrawsOf(held: seq<Held>): seq<Row> {
    seq(|held|, i requires 0 <= i < |held| => held[i].draw)
  }

  lemma DrawsOfCons(h: Held, rest: seq<Held>)
    ensures DrawsOf([h] + rest) == [h.draw] + DrawsOf(rest) && [] + rest == rest && [] + DrawsOf(rest) == DrawsOf(rest)
  {
  }

  /** A release takes all that is held under the key, each copy as often and in the order it
      was held, and leaves all the rest as it was. */
  lemma {:induction false} ReleaseExactly(held: seq<Held>, key: Key)
    ensures Select(held, key) == DrawsOf(Filtered((h: Held) => h.key == key, held))
    ensures Without(held, key) == Filtered((h: Held) => h.key != key, held)
  {
    if held != [] {
      hide Filtered, DrawsOf, Select, Without;
      var first, rest := held[0], held[1..];
      var mine, others := (h: Held) => h.key == key, (h: Held) => h.key != key;
      assert held == [first] + rest;
      ReleaseExactly(rest, key);
      SelectCons(first, rest, key);
      WithoutCons(first, rest, key);
      FilteredCons(mine, first, rest);
      FilteredCons(others, first, rest);
      DrawsOfCons(first, Filtered(mine, rest));
    }
  }

  // ---------- the steps of one run ----------

  ghost predicate OneStep(held: seq<Held>, x: RunId, id: int, c: CallId) {
    forall h :: h in held && h.draw.id == id && h.key.run == x && h.key.ByStep? ==> h.key.call == c
  }

  /** What is taken and what is still held make up what was held, step by step. */
  ghost predicate StepsTaken(before: seq<Held>, held: seq<Held>, x: RunId, draws: seq<Row>) {
    forall id, c :: OneStep(before, x, id, c) ==>
                      CopiesIn(draws, id) + CopiesIn(Select(held, ByStep(x, c)), id)
                      == CopiesIn(Select(before, ByStep(x, c)), id)
  }

  /** Some of what was held for the run's steps is taken, and nothing else. */
  ghost predicate Taking(before: seq<Held>, held: seq<Held>, x: RunId, draws: seq<Row>) {
    && (forall h :: h in held ==> h in before)
    && Outside(held, {x}) == Outside(before, {x}) && Select(held, ByParent(x)) == Select(before, ByParent(x))
    && multiset(draws) + multiset(Inside(held, {x})) == multiset(Inside(before, {x}))
    && StepsTaken(before, held, x, draws)
  }

  lemma TakingNone(held: seq<Held>, x: RunId)
    ensures Taking(held, held, x, [])
  {
  }

  lemma TakingMore(before: seq<Held>, held: seq<Held>, x: RunId, call: CallId, draws: seq<Row>)
    requires Taking(before, held, x, draws)
    ensures Taking(before, Without(held, ByStep(x, call)), x, draws + Select(held, ByStep(x, call)))
  {
    WithoutOutside(held, ByStep(x, call), {x});
    WithoutInside(held, ByStep(x, call), {x});
    SelectOther(held, ByStep(x, call), ByParent(x));
    StepTaken(before, held, x, call, draws);
  }

  lemma StepTaken(before: seq<Held>, held: seq<Held>, x: RunId, call: CallId, draws: seq<Row>)
    requires StepsTaken(before, held, x, draws) && forall h :: h in held ==> h in before
    ensures StepsTaken(before, Without(held, ByStep(x, call)), x, draws + Select(held, ByStep(x, call)))
    ensures forall h :: h in Without(held, ByStep(x, call)) ==> h in before
  {
    var key := ByStep(x, call);
    SelectWithout(held, key);
    forall id, c | OneStep(before, x, id, c)
      ensures CopiesIn(draws + Select(held, key), id) + CopiesIn(Select(Without(held, key), ByStep(x, c)), id)
           == CopiesIn(Select(before, ByStep(x, c)), id)
    {
      hide Select, Without, CopiesIn;
      CopiesConcat(draws, Select(held, key), id);
      TakenOrNot(before, held, x, call, id, c);
      Regroup(CopiesIn(draws, id), CopiesIn(Select(held, key), id),
          CopiesIn(Select(Without(held, key), ByStep(x, c)), id));
    }
  }

  lemma TakenOrNot(before: seq<Held>, held: seq<Held>, x: RunId, call: CallId, id: int, c: CallId)
    requires OneStep(before, x, id, c) && forall h :: h in held ==> h in before
    ensures CopiesIn(Select(held, ByStep(x, call)), id)
            + CopiesIn(Select(Without(held, ByStep(x, call)), ByStep(x, c)), id)
         == CopiesIn(Select(held, ByStep(x, c)), id)
  {
    var key := ByStep(x, call);
    SelectOther(held, key, ByStep(x, c));
    if call != c {
      SelectWithout(held, key);
      forall draw | draw in Select(held, key) ensures draw.id != id {
        assert Held(key, draw) in before;
      }
      NoCopies(Select(held, key), id);
    }
  }

  // ---------- one run ----------

  ghost predicate RunTaken(held: seq<Held>, x: RunId, draws: seq<Row>) {
    forall id, c :: OnePlace(held, id, x, c) ==> CopiesIn(draws, id) == HeldCopies(held, id, x, c)
  }

  /** First what is held for the run, then what is held for its steps. */
  lemma ParentThenSteps(held: seq<Held>, mid: seq<Held>, after: seq<Held>, x: RunId,
      byParent: seq<Row>, bySteps: seq<Row>)
    requires byParent == Select(held, ByParent(x)) && forall h :: h in mid ==> h in held
    requires forall c :: Select(mid, ByStep(x, c)) == Select(held, ByStep(x, c))
    requires StepsTaken(mid, after, x, bySteps) && forall c :: Select(after, ByStep(x, c)) == []
    ensures RunTaken(held, x, byParent + bySteps)
  {
    forall id, c | OnePlace(held, id, x, c) ensures CopiesIn(byParent + bySteps, id) == HeldCopies(held, id, x, c) {
      assert OneStep(mid, x, id, c);
      CopiesConcat(byParent, bySteps, id);
      assert CopiesIn([], id) == [];
    }
  }

  // ---------- run after run ----------

  lemma GatheredNone(held: seq<Held>)
    ensures Gathered(held, {}, [])
  {
  }

  lemma GatheredMore(held: seq<Held>, done: set<RunId>, absorbed: seq<Row>, y: RunId, more: seq<Row>)
    requires Gathered(held, done, absorbed) && RunTaken(Outside(held, done), y, more)
    requires multiset(more) == multiset(Inside(Outside(held, done), {y}))
    ensures Gathered(held, done + {y}, absorbed + more)
  {
    forall id, x, c | OnePlace(held, id, x, c)
      ensures CopiesIn(absorbed + more, id) == if x in done + {y} then HeldCopies(held, id, x, c) else []
    {
      hide OnePlace, RunTaken, HeldCopies;
      CopiesConcat(absorbed, more, id);
      if x == y {
        TakenOnce(held, done, y, more, id, c);
      } else {
        NoneFor(held, done, y, more, id, x, c);
      }
    }
  }

  lemma TakenOnce(held: seq<Held>, done: set<RunId>, y: RunId, more: seq<Row>, id: int, c: CallId)
    requires RunTaken(Outside(held, done), y, more) && OnePlace(held, id, y, c)
    ensures CopiesIn(more, id) == if y in done then [] else HeldCopies(held, id, y, c)
  {
    assert OnePlace(Outside(held, done), id, y, c);
    OutsideSelect(held, done, ByParent(y));
    OutsideSelect(held, done, ByStep(y, c));
  }

  lemma NoneFor(held: seq<Held>, done: set<RunId>, y: RunId, more: seq<Row>, id: int, x: RunId, c: CallId)
    requires multiset(more) == multiset(Inside(Outside(held, done), {y})) && OnePlace(held, id, x, c) && x != y
    ensures CopiesIn(more, id) == []
  {
    forall draw | draw in more ensures draw.id != id {
      assert draw in multiset(more) && draw in Inside(Outside(held, done), {y});
    }
    NoCopies(more, id);
  }

  // ---------- which copy stays ----------

  /** When the fetch did not list a row, the first of its held copies stays. */
  lemma FirstHeldStays(fetched: seq<Row>, absorbed: seq<Row>, held: seq<Held>, ids: set<RunId>,
      id: int, x: RunId, c: CallId)
    requires Gathered(held, ids, absorbed) && OnePlace(held, id, x, c) && x in ids
    requires HeldCopies(held, id, x, c) != [] && FindId(fetched, id) == -1
    ensures HeldCopies(held, id, x, c)[0] in Dedupe(fetched + absorbed)
    ensures forall kept :: kept in Dedupe(fetched + absorbed) && kept.id == id ==>
                             kept == HeldCopies(held, id, x, c)[0]
  {
    hide Dedupe, FindId;
    FirstCopy(absorbed, id);
    AbsorbedIsKept(fetched, absorbed, absorbed[FindId(absorbed, id)]);
  }
}
