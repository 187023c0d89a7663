/** Which copy of a row is on screen, and which of several waiting copies comes last. */
module Copies {
  import opened Options
  import opened Rows
  import opened DrawNesting
  import opened RunLog
  import opened LogStructure
  import opened LogInvariant
  import opened OrderIndependence

  /** The copies of one row id on screen; there is never more than one. */
  ghost function CopiesOf(runs: seq<RunView>, id: int): set<Row> {
    set run, row | run in runs && row in AllRows(run) && row.id == id :: row
  }

  lemma CopyAt(runs: seq<RunView>, run: RunView, row: Row)
    requires run in runs && row in AllRows(run)
    ensures row in CopiesOf(runs, row.id)
  {
  }

  /** One run gets one more copy of one row: that copy takes the place of its predecessor,
      and every other row stays as it is. */
  lemma ReplacedCopies(w: World, runs: seq<RunView>, i: nat, run: RunView, entry: Row, id: int)
    requires i < |runs| && run.runId == runs[i].runId && Structure(w, runs)
            && Structure(w, MoveToFront(runs[i := run], run.runId))
    requires entry in AllRows(run)
    requires forall row: Row :: row.id != entry.id ==> (row in AllRows(run) <==> row in AllRows(runs[i]))
    ensures CopiesOf(MoveToFront(runs[i := run], run.runId), id)
            == if entry.id == id then {entry} else CopiesOf(runs, id)
  {
    var changed := runs[i := run];
    var after := MoveToFront(changed, run.runId);
    MoveToFrontMembers(changed, run.runId);
    UpdateMembers(runs, i, run);
    if entry.id == id {
      OneCopy(w, after, run, entry);
    } else {
      OthersStay(runs, i, run, after, id);
    }
  }

  lemma OneCopy(w: World, runs: seq<RunView>, run: RunView, row: Row)
    requires Structure(w, runs) && run in runs && row in AllRows(run)
    ensures CopiesOf(runs, row.id) == {row}
  {
    forall copy | copy in CopiesOf(runs, row.id) ensures copy == row {
      var other :| other in runs && copy in AllRows(other);
      ShownOnce(w, runs, run, other, row, copy);
    }
  }

  lemma OthersStay(runs: seq<RunView>, i: nat, run: RunView, after: seq<RunView>, id: int)
    requires i < |runs|
    requires forall other :: other in after <==> other in runs[i := run]
    requires forall row: Row :: row.id == id ==> (row in AllRows(run) <==> row in AllRows(runs[i]))
    ensures CopiesOf(after, id) == CopiesOf(runs, id)
  {
    UpdateMembers(runs, i, run);
    assert runs[i] in runs;
    forall row | row in CopiesOf(runs, id) ensures row in CopiesOf(after, id) {
      var other :| other in runs && row in AllRows(other);
      assert row in AllRows(if other == runs[i] then run else other);
    }
    forall row | row in CopiesOf(after, id) ensures row in CopiesOf(runs, id) {
      var other :| other in after && row in AllRows(other);
      assert row in AllRows(if other == run then runs[i] else other);
    }
  }

  /** Upserting touches no other id. */
  lemma UpsertOthers(w: World, rows: seq<Row>, entry: Row)
    requires Follows(w, entry) && DistinctIds(rows) && forall row :: row in rows ==> Follows(w, row)
    ensures entry in Upsert(rows, entry)
    ensures forall row: Row :: row.id != entry.id ==> (row in Upsert(rows, entry) <==> row in rows)
  {
    UpsertRows(w, rows, entry);
  }

  /** A draw that is placed is the one copy of its row on screen. */
  lemma PlaceCopies(w: World, s: State, draw: Row, id: int)
    requires Structure(w, s.runs) && Follows(w, draw) && draw.parent.Some?
    requires FindContainer(s.runs, draw.parent.value).Some?
    ensures CopiesOf(Place(s, FindContainer(s.runs, draw.parent.value).value.index, draw).runs, id)
         == if draw.id == id then {draw} else CopiesOf(s.runs, id)
  {
    PlaceStructure(w, s, draw);
    var i := FindContainer(s.runs, draw.parent.value).value.index;
    assert s.runs[i] in s.runs;
    UpsertOthers(w, s.runs[i].draws, draw);
    ReplacedCopies(w, s.runs, i, WithDraw(s.runs[i], draw), draw, id);
  }

  /** So is an own prompt that is shown. */
  lemma PromptCopies(w: World, s: State, p: Row, id: int)
    requires Structure(w, s.runs) && Follows(w, p) && p.parent == None
    ensures CopiesOf(ShowPrompt(s, p).runs, id) == if p.id == id then {p} else CopiesOf(s.runs, id)
  {
    ShowPromptStructure(w, s, p);
    var i := FindRun(s.runs, p.runId);
    if i == -1 {
      NewRunCopies(w, s.runs, p, id);
    } else {
      assert s.runs[i] in s.runs;
      UpsertOthers(w, s.runs[i].prompts, p);
      ReplacedCopies(w, s.runs, i, WithPrompt(s.runs[i], p), p, id);
    }
  }

  lemma NewRunCopies(w: World, runs: seq<RunView>, p: Row, id: int)
    requires Structure(w, [NewRun(p)] + runs)
    ensures CopiesOf([NewRun(p)] + runs, id) == if p.id == id then {p} else CopiesOf(runs, id)
  {
    var after := [NewRun(p)] + runs;
    assert AllRows(NewRun(p)) == [p] && NewRun(p) in after && p in AllRows(NewRun(p));
    OneCopy(w, after, NewRun(p), p);
    assert forall run :: run in after <==> run == NewRun(p) || run in runs;
  }

  /** A shell and an outcome change no copy. */
  lemma StartCopies(s: State, x: RunId, at: int, id: int)
    ensures CopiesOf(StartRun(s, x, at).runs, id) == CopiesOf(s.runs, id)
  {
    if FindRun(s.runs, x) == -1 {
      assert AllRows(Shell(x, at)) == [];
      assert forall run :: run in [Shell(x, at)] + s.runs <==> run == Shell(x, at) || run in s.runs;
    } else {
      MoveToFrontMembers(s.runs, x);
    }
  }

  lemma FinishCopies(s: State, x: RunId, outcome: string, reason: string, id: int)
    ensures CopiesOf(Finish(s, x, outcome, reason).runs, id) == CopiesOf(s.runs, id)
  {
    var i := FindRun(s.runs, x);
    if i != -1 {
      var run := s.runs[i].(outcome := Some(outcome), reason := Some(reason));
      MoveToFrontMembers(s.runs[i := run], x);
      assert AllRows(run) == AllRows(s.runs[i]);
      OthersStay(s.runs, i, run, MoveToFront(s.runs[i := run], x), id);
    }
  }

  // ---------- the last of several copies ----------

  function LastOf(rows: seq<Row>, id: int): Option<Row> {
    if rows == [] then None
    else if LastOf(rows[1..], id).Some? then LastOf(rows[1..], id)
    else if rows[0].id == id then Some(rows[0])
    else None
  }

  lemma {:induction false} LastOfConcat(a: seq<Row>, b: seq<Row>, id: int)
    ensures LastOf(a + b, id) == if LastOf(b, id).Some? then LastOf(b, id) else LastOf(a, id)
  {
    if a == [] {
      assert a + b == b;
    } else {
      assert (a + b)[1..] == a[1..] + b;
      LastOfConcat(a[1..], b, id);
    }
  }

  lemma {:induction false} LastOfMember(rows: seq<Row>, id: int)
    ensures LastOf(rows, id).Some? ==> LastOf(rows, id).value in rows && LastOf(rows, id).value.id == id
    ensures LastOf(rows, id).None? ==> forall row :: row in rows ==> row.id != id
  {
    if rows != [] {
      LastOfMember(rows[1..], id);
    }
  }

  /** The copy that was held last. */
  function LastHeld(held: seq<Held>, id: int): Option<Row> {
    if held == [] then None
    else if LastHeld(held[1..], id).Some? then LastHeld(held[1..], id)
    else if held[0].draw.id == id then Some(held[0].draw)
    else None
  }

  lemma {:induction false} LastHeldAppend(held: seq<Held>, h: Held, id: int)
    ensures LastHeld(held + [h], id) == if h.draw.id == id then Some(h.draw) else LastHeld(held, id)
  {
    if held == [] {
      assert held + [h] == [h] && [h][1..] == [];
    } else {
      assert (held + [h])[1..] == held[1..] + [h];
      LastHeldAppend(held[1..], h, id);
    }
  }

  lemma {:induction false} LastHeldMember(held: seq<Held>, id: int)
    ensures LastHeld(held, id).Some? ==> exists h :: h in held && h.draw.id == id && h.draw == LastHeld(held, id).value
    ensures LastHeld(held, id).None? ==> forall h :: h in held ==> h.draw.id != id
  {
    if held != [] {
      LastHeldMember(held[1..], id);
      if LastHeld(held[1..], id).Some? {
        var h :| h in held[1..] && h.draw.id == id && h.draw == LastHeld(held[1..], id).value;
        assert h in held;
      } else if held[0].draw.id == id {
        assert held[0] in held;
      } else {
        assert forall h :: h in held ==> h == held[0] || h in held[1..];
      }
    }
  }

  /** A drain of the one key that holds the row's copies releases them in their order. */
  lemma {:induction false} ReleaseLast(held: seq<Held>, key: Key, id: int)
    requires forall h :: h in held && h.draw.id == id ==> h.key == key
    ensures LastOf(Select(held, key), id) == LastHeld(held, id) && LastHeld(Without(held, key), id) == None
  {
    if held != [] {
      assert held[0] in held && forall h :: h in held[1..] ==> h in held;
      ReleaseLast(held[1..], key, id);
      SplitFirst(held, key);
      LastOfConcat(if held[0].key == key then [held[0].draw] else [], Select(held[1..], key), id);
    }
  }

  /** A drain of any other key leaves them where they are. */
  lemma {:induction false} ReleaseOthers(held: seq<Held>, key: Key, id: int)
    requires forall h :: h in held && h.draw.id == id ==> h.key != key
    ensures LastOf(Select(held, key), id) == None && LastHeld(Without(held, key), id) == LastHeld(held, id)
  {
    if held != [] {
      assert held[0] in held && forall h :: h in held[1..] ==> h in held;
      ReleaseOthers(held[1..], key, id);
      SplitFirst(held, key);
      LastOfConcat(if held[0].key == key then [held[0].draw] else [], Select(held[1..], key), id);
    }
  }

  lemma SplitFirst(held: seq<Held>, key: Key)
    requires held != []
    ensures Select(held, key) == (if held[0].key == key then [held[0].draw] else []) + Select(held[1..], key)
    ensures held[0].key == key ==> Without(held, key) == Without(held[1..], key)
    ensures held[0].key != key ==>
              && Without(held, key) != [] && Without(held, key)[0] == held[0]
              && Without(held, key)[1..] == Without(held[1..], key)
  {
  }
}
