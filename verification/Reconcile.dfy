/** What a fetched run absorbs of the draws that are held: everything that hangs, through
    held draws, under the run or under one of its fetched draws. */
module Reconcile {
  import opened Rows
  import opened DrawNesting
  import opened RunLog
  import opened RunningForest

  ghost predicate HeldClosed(ids: set<RunId>, held: seq<Held>) {
    forall h :: h in held && h.key.run in ids ==> h.draw.runId in ids
  }

  ghost function HeldRuns(held: seq<Held>): set<RunId> {
    set h | h in held :: h.draw.runId
  }

  /** The least set that contains `start` and, with a run, the runs of the draws held for it. */
  ghost function Reached(start: set<RunId>, held: seq<Held>): set<RunId> {
    set x | x in start + HeldRuns(held) && forall ids: set<RunId> :: start <= ids && HeldClosed(ids, held) ==> x in ids
  }

  lemma ReachedIsLeast(start: set<RunId>, held: seq<Held>)
    ensures start <= Reached(start, held) && HeldClosed(Reached(start, held), held)
    ensures forall ids: set<RunId> :: start <= ids && HeldClosed(ids, held) ==> Reached(start, held) <= ids
  {
  }

  /** The draws held for none of these runs, in the order they were held. */
  function Outside(held: seq<Held>, ids: set<RunId>): (rest: seq<Held>)
    ensures forall h :: h in rest <==> h in held && h.key.run !in ids
  {
    if held == [] then []
    else
      assert held == [held[0]] + held[1..];
      (if held[0].key.run in ids then [] else [held[0]]) + Outside(held[1..], ids)
  }

  /** The draws held for these runs. */
  function Inside(held: seq<Held>, ids: set<RunId>): (draws: seq<Row>)
    ensures forall draw :: draw in draws <==> exists h :: h in held && h.key.run in ids && h.draw == draw
  {
    if held == [] then []
    else
      assert held == [held[0]] + held[1..];
      (if held[0].key.run in ids then [held[0].draw] else []) + Inside(held[1..], ids)
  }

  /** Only the keys that name an absorbed run change. */
  lemma {:induction false} OutsideSelect(held: seq<Held>, ids: set<RunId>, key: Key)
    ensures Select(Outside(held, ids), key) == if key.run in ids then [] else Select(held, key)
  {
    if held != [] {
      hide Outside, Select;
      var first, rest := held[0], held[1..];
      assert held == [first] + rest;
      OutsideSelect(rest, ids, key);
      OutsideCons(first, rest, ids);
      SelectCons(first, rest, key);
      SelectCons(first, Outside(rest, ids), key);
    }
  }

  lemma {:induction false} OutsideNone(held: seq<Held>)
    ensures Outside(held, {}) == held && Inside(held, {}) == []
  {
    if held != [] {
      OutsideNone(held[1..]);
    }
  }

  lemma {:induction false} OutsideTwice(held: seq<Held>, ids: set<RunId>, more: set<RunId>)
    ensures Outside(Outside(held, ids), more) == Outside(held, ids + more)
  {
    if held != [] {
      OutsideTwice(held[1..], ids, more);
      if held[0].key.run in ids {
        assert Outside(held, ids) == Outside(held[1..], ids);
      } else {
        assert Outside(held, ids)[1..] == Outside(held[1..], ids);
      }
    }
  }

  /** Taking one more run's draws. */
  lemma {:induction false} InsideMore(held: seq<Held>, ids: set<RunId>, more: set<RunId>)
    ensures multiset(Inside(held, ids + more))
            == multiset(Inside(held, ids)) + multiset(Inside(Outside(held, ids), more))
  {
    if held == [] {
      assert Outside(held, ids) == [];
    } else {
      hide Inside, Outside;
      var h, rest := held[0], held[1..];
      assert held == [h] + rest;
      InsideMore(rest, ids, more);
      InsideCons(h, rest, ids + more);
      InsideCons(h, rest, ids);
      InsideCons(h, Outside(rest, ids), more);
      OutsideCons(h, rest, ids);
    }
  }

  lemma OutsideCons(h: Held, rest: seq<Held>, ids: set<RunId>)
    ensures Outside([h] + rest, ids) == if h.key.run in ids then Outside(rest, ids) else [h] + Outside(rest, ids)
  {
    assert ([h] + rest)[1..] == rest;
  }

  /** Taking the draws under one key is part of taking a run's draws. */
  lemma {:induction false} WithoutOutside(held: seq<Held>, key: Key, ids: set<RunId>)
    requires key.run in ids
    ensures Outside(Without(held, key), ids) == Outside(held, ids)
  {
    if held != [] {
      WithoutOutside(held[1..], key, ids);
      if held[0].key == key {
        assert Without(held, key) == Without(held[1..], key);
      } else {
        assert Without(held, key)[1..] == Without(held[1..], key);
      }
    }
  }

  lemma {:induction false} WithoutInside(held: seq<Held>, key: Key, ids: set<RunId>)
    requires key.run in ids
    ensures multiset(Inside(held, ids)) == multiset(Select(held, key)) + multiset(Inside(Without(held, key), ids))
  {
    if held != [] {
      var h, rest := held[0], held[1..];
      assert held == [h] + rest;
      WithoutInside(rest, key, ids);
      InsideCons(h, rest, ids);
      SelectCons(h, rest, key);
      WithoutCons(h, rest, key);
      InsideCons(h, Without(rest, key), ids);
    }
  }

  lemma WithoutCons(h: Held, rest: seq<Held>, key: Key)
    ensures Without([h] + rest, key) == if h.key == key then Without(rest, key) else [h] + Without(rest, key)
  {
    assert ([h] + rest)[1..] == rest;
  }

  lemma InsideCons(h: Held, rest: seq<Held>, ids: set<RunId>)
    ensures multiset(Inside([h] + rest, ids))
         == (if h.key.run in ids then multiset{h.draw} else multiset{}) + multiset(Inside(rest, ids))
  {
    assert ([h] + rest)[1..] == rest;
  }

  lemma {:induction false} InsideLength(held: seq<Held>, ids: set<RunId>)
    ensures |Inside(held, ids)| + |Outside(held, ids)| == |held|
  {
    if held != [] {
      InsideLength(held[1..], ids);
    }
  }

  lemma {:induction false} NothingInside(held: seq<Held>, x: RunId)
    requires forall key: Key :: key.run == x ==> Select(held, key) == []
    ensures Inside(held, {x}) == [] && Outside(held, {x}) == held
  {
    if held != [] {
      assert held[0].key.run == x ==> Select(held, held[0].key) != [];
      forall key: Key | key.run == x ensures Select(held[1..], key) == [] {
        assert Select(held, key) == [] + Select(held[1..], key);
      }
      NothingInside(held[1..], x);
    }
  }

  // ---------- the worklist ----------

  ghost function RunSet(ids: seq<RunId>): set<RunId> {
    set x | x in ids
  }

  /** `done` are the runs whose held draws are taken, `todo` the ones still to look at. */
  ghost predicate Worklist(start: set<RunId>, held: seq<Held>, done: set<RunId>, todo: set<RunId>) {
    && start <= done + todo
    && done + todo <= Reached(start, held)
    && forall h :: h in held && h.key.run in done ==> h.draw.runId in done + todo
  }

  lemma WorklistStep(start: set<RunId>, held: seq<Held>, done: set<RunId>, x: RunId,
      todo: set<RunId>, found: set<RunId>)
    requires Worklist(start, held, done, {x} + todo)
    requires found == set draw | draw in Inside(Outside(held, done), {x}) :: draw.runId
    ensures Worklist(start, held, done + {x}, todo + found)
  {
    ReachedIsLeast(start, held);
    forall h | h in held && h.key.run in done + {x} ensures h.draw.runId in done + {x} + todo + found {
      if h.key.run !in done {
        assert h in Outside(held, done);
        assert h.draw in Inside(Outside(held, done), {x});
      }
    }
  }

  lemma WorklistDone(start: set<RunId>, held: seq<Held>, done: set<RunId>)
    requires Worklist(start, held, done, {})
    ensures done == Reached(start, held)
  {
  }

  function RunIdsOf(draws: seq<Row>): seq<RunId> {
    seq(|draws|, i requires 0 <= i < |draws| => draws[i].runId)
  }

  lemma StartOfWorklist(x: RunId, draws: seq<Row>, held: seq<Held>)
    ensures Worklist({x} + DrawRuns(draws), held, {}, RunSet([x] + RunIdsOf(draws)))
  {
    var ids := [x] + RunIdsOf(draws);
    forall y | y in DrawRuns(draws) ensures y in RunSet(ids) {
      var k :| 0 <= k < |draws| && draws[k].runId == y;
      assert ids[k + 1] == y;
    }
    assert ids[0] == x;
    forall y | y in RunSet(ids) ensures y in {x} + DrawRuns(draws) {
      var k :| 0 <= k < |ids| && ids[k] == y;
      if k > 0 {
        assert draws[k - 1] in draws;
      }
    }
    assert RunSet(ids) == {x} + DrawRuns(draws);
    ReachedIsLeast({x} + DrawRuns(draws), held);
  }

  lemma RunSetConcat(a: seq<RunId>, b: seq<RunId>)
    ensures RunSet(a + b) == RunSet(a) + RunSet(b)
  {
  }

  lemma SameRuns(a: seq<Row>, b: seq<Row>)
    requires multiset(a) == multiset(b)
    ensures RunSet(RunIdsOf(a)) == (set draw | draw in b :: draw.runId) && |a| == |b|
  {
    assert |multiset(a)| == |multiset(b)|;
    forall x | x in RunSet(RunIdsOf(a)) ensures exists draw :: draw in b && draw.runId == x {
      var k :| 0 <= k < |a| && a[k].runId == x;
      assert a[k] in multiset(b);
    }
    forall draw | draw in b ensures draw.runId in RunSet(RunIdsOf(a)) {
      assert draw in multiset(a);
      var k :| 0 <= k < |a| && a[k] == draw;
      assert RunIdsOf(a)[k] == draw.runId;
    }
  }

  lemma RunSetHead(ids: seq<RunId>)
    requires ids != []
    ensures RunSet(ids) == {ids[0]} + RunSet(ids[1..])
  {
    assert ids == [ids[0]] + ids[1..];
  }

  lemma MergeMore(fetched: seq<Row>, absorbed: seq<Row>, more: seq<Row>, held: seq<Held>,
      taken: set<RunId>, done: set<RunId>)
    requires multiset(absorbed) == multiset(Inside(held, taken))
    requires multiset(Inside(held, done)) == multiset(Inside(held, taken)) + multiset(more)
    ensures fetched + absorbed + more == fetched + (absorbed + more)
    ensures multiset(absorbed + more) == multiset(Inside(held, done))
  {
  }

  /** What taking one run's draws does to the worklist. */
  lemma TakenStep(start: set<RunId>, held: seq<Held>, done: set<RunId>, x: RunId, todo: set<RunId>, more: seq<Row>)
    requires Worklist(start, held, done, {x} + todo)
    requires multiset(more) == multiset(Inside(Outside(held, done), {x}))
    ensures Worklist(start, held, done + {x}, todo + RunSet(RunIdsOf(more)))
    ensures Outside(Outside(held, done), {x}) == Outside(held, done + {x})
    ensures multiset(Inside(held, done + {x})) == multiset(Inside(held, done)) + multiset(more)
    ensures |Outside(held, done + {x})| + |more| == |Outside(held, done)|
  {
    OutsideTwice(held, done, {x});
    InsideMore(held, done, {x});
    InsideLength(Outside(held, done), {x});
    SameRuns(more, Inside(Outside(held, done), {x}));
    WorklistStep(start, held, done, x, todo, RunSet(RunIdsOf(more)));
  }

  /** Every held draw that a fetched run absorbs is on the run afterwards, under its own
      id, and a fetched copy of it wins. */
  lemma AbsorbedIsKept(fetched: seq<Row>, absorbed: seq<Row>, draw: Row)
    requires draw in fetched || draw in absorbed
    ensures exists kept :: kept in Dedupe(fetched + absorbed) && kept.id == draw.id
    ensures forall kept :: kept in Dedupe(fetched + absorbed) && kept.id == draw.id ==>
                             if FindId(fetched, draw.id) != -1 then kept == fetched[FindId(fetched, draw.id)]
                             else FindId(absorbed, draw.id) != -1 && kept == absorbed[FindId(absorbed, draw.id)]
  {
    hide Dedupe, FindId;
    var merged := fetched + absorbed;
    DedupeKeepsFirst(merged);
    FindIdConcat(fetched, absorbed, draw.id);
    var i := FindId(merged, draw.id);
    assert draw in merged;
    assert IsFirstCopy(merged, merged[i]);
  }

  lemma FindIdConcat(a: seq<Row>, b: seq<Row>, id: int)
    ensures FindId(a + b, id) == if FindId(a, id) != -1 then FindId(a, id)
                                 else if FindId(b, id) != -1 then |a| + FindId(b, id) else -1
  {
    var ab := a + b;
    assert forall k :: 0 <= k < |a| ==> ab[k] == a[k];
    assert forall k :: 0 <= k < |b| ==> ab[|a| + k] == b[k];
    var i := FindId(ab, id);
    if i >= |a| {
      assert ab[i] == b[i - |a|];
    }
  }
}
