/** Where each logged row is: exactly when it is in one place only, as an own prompt of one
    run, among the draws of one host, or held under one key. */
module Places {
  import opened Options
  import opened Rows
  import opened RunLog
  import opened LogStructure
  import opened LogInvariant
  import opened Keeping
  import opened LeastClosure
  import opened OrderIndependence
  import opened Copies
  import opened NewestCopy
  import opened RootDraws
  import opened NewestShown

  datatype Place = Prompt(run: RunId) | Draw(host: RunId) | Waiting(key: Key)

  ghost function ShownPlaces(runs: seq<RunView>, id: int): set<Place> {
    (set run, row | run in runs && row in run.prompts && row.id == id :: Prompt(run.runId))
    + (set run, row | run in runs && row in run.draws && row.id == id :: Draw(run.runId))
  }

  ghost function HeldPlacesOf(held: seq<Held>, id: int): set<Place> {
    set h | h in held && h.draw.id == id :: Waiting(h.key)
  }

  /** Every place that has a copy of the row. */
  ghost function PlacesOf(s: State, id: int): set<Place> {
    ShownPlaces(s.runs, id) + HeldPlacesOf(s.held, id)
  }

  // ---------- on screen ----------

  lemma NotShown(runs: seq<RunView>, id: int)
    requires CopiesOf(runs, id) == {}
    ensures ShownPlaces(runs, id) == {}
  {
    forall run, row | run in runs && row in AllRows(run) ensures row.id != id {
      if row.id == id {
        CopyAt(runs, run, row);
      }
    }
  }

  lemma ShownAtOne(w: World, runs: seq<RunView>, id: int) returns (run: RunView, row: Row)
    requires Structure(w, runs) && CopiesOf(runs, id) != {}
    ensures run in runs && row in AllRows(run) && row.id == id
    ensures ShownPlaces(runs, id) == {if row in run.prompts then Prompt(run.runId) else Draw(run.runId)}
  {
    var copy :| copy in CopiesOf(runs, id);
    var host :| host in runs && copy in AllRows(host);
    run, row := host, copy;
    hide Structure;
    ShownOnce(w, runs, run, run, row, row);
    forall other, twin | other in runs && twin in AllRows(other) && twin.id == id ensures other == run && twin == row {
      ShownOnce(w, runs, run, other, row, twin);
    }
    OnlyThere(runs, id, run, row);
  }

  lemma OnlyThere(runs: seq<RunView>, id: int, run: RunView, row: Row)
    requires run in runs && row in AllRows(run) && row.id == id && (row in run.prompts <==> row !in run.draws)
    requires forall other, twin :: other in runs && twin in AllRows(other) && twin.id == id ==>
                                     other == run && twin == row
    ensures ShownPlaces(runs, id) == {if row in run.prompts then Prompt(run.runId) else Draw(run.runId)}
  {
    var place := if row in run.prompts then Prompt(run.runId) else Draw(run.runId);
    assert place in ShownPlaces(runs, id);
    forall other, twin: Row | other in runs && twin.id == id && (twin in other.prompts || twin in other.draws)
      ensures other == run && twin == row
    {
      assert twin in AllRows(other);
    }
  }

  /** A row is at one place of the screen at most. */
  lemma ShownOnceOrNot(w: World, runs: seq<RunView>, id: int)
    requires Structure(w, runs)
    ensures |ShownPlaces(runs, id)| == if CopiesOf(runs, id) == {} then 0 else 1
  {
    if CopiesOf(runs, id) == {} {
      NotShown(runs, id);
    } else {
      var run, row := ShownAtOne(w, runs, id);
    }
  }

  // ---------- held ----------

  /** A draw of a top-level run is held under the keys that its aspect names. */
  lemma KeysOfAspect(w: World, s: State, x: RunId, id: int)
    requires Kept(w, s) && RootDraw(w, x, id)
    ensures var a, anchor := AspectOf(w, s, x, id), w.logged(id).anchor;
            HeldPlacesOf(s.held, id)
            == (if a.byParent.Some? then {Waiting(ByParent(x))} else {})
               + (if a.byStep.Some? then {Waiting(ByStep(x, anchor.value))} else {})
  {
    var anchor := w.logged(id).anchor;
    KeyHolds(s.held, ByParent(x), id);
    if anchor.Some? {
      KeyHolds(s.held, ByStep(x, anchor.value), id);
    }
    forall h | h in s.held && h.draw.id == id
      ensures h.key == ByParent(x) || (anchor.Some? && h.key == ByStep(x, anchor.value))
    {
      assert HeldRight(w, h);
      assert Core(h.draw).parent == h.draw.parent && Core(h.draw).anchor == h.draw.anchor;
    }
  }

  lemma KeyHolds(held: seq<Held>, key: Key, id: int)
    ensures LastOf(Select(held, key), id).Some? <==> exists h :: h in held && h.key == key && h.draw.id == id
  {
    LastOfMember(Select(held, key), id);
    SelectWithout(held, key);
    forall h | h in held && h.key == key ensures h.draw in Select(held, key) {
      assert h == Held(key, h.draw);
    }
    if LastOf(Select(held, key), id).Some? {
      assert Held(key, LastOf(Select(held, key), id).value) in held;
    }
  }

  // ---------- own prompts and draws of draws ----------

  lemma NestedPlace(w: World, messages: seq<Message>, id: int)
    requires Consistent(w, messages) && Nested(w, id) && Logs(messages, id).Some?
    ensures |PlacesOf(Play(messages), id)| == 1
  {
    hide Inv, Structure, CopiesOf, ShownPlaces, HeldPlacesOf, Play, Consistent, Nested;
    var s := Play(messages);
    PlayKeeps(w, messages);
    StructureOf(w, s, Received(messages));
    ShownOnceOrNot(w, s.runs, id);
    if CopiesOf(s.runs, id) == {} {
      NotShown(s.runs, id);
      NestedHeld(w, messages, id);
      assert PlacesOf(s, id) == HeldPlacesOf(s.held, id);
    } else {
      var run, row := ShownAtOne(w, s.runs, id);
      NestedNotHeld(w, messages, run, row);
      NoneHeld(s.held, id);
      assert PlacesOf(s, id) == ShownPlaces(s.runs, id);
    }
  }

  lemma NoneHeld(held: seq<Held>, id: int)
    requires forall h :: h in held ==> h.draw.id != id
    ensures HeldPlacesOf(held, id) == {}
  {
  }

  lemma NestedHeld(w: World, messages: seq<Message>, id: int)
    requires Consistent(w, messages) && Nested(w, id) && Logs(messages, id).Some?
    requires CopiesOf(Play(messages).runs, id) == {}
    ensures |HeldPlacesOf(Play(messages).held, id)| == 1
  {
    var held := Play(messages).held;
    StreamNewest(w, messages, id);
    LastHeldMember(held, id);
    var h :| h in held && h.draw.id == id;
    assert HeldPlacesOf(held, id) == {Waiting(h.key)};
  }

  /** Neither is ever split by a shell. */
  lemma NestedNotSplit(w: World, messages: seq<Message>, id: int)
    requires Consistent(w, messages) && Nested(w, id)
    ensures !Split(messages, id)
  {
    if Logs(messages, id).Some? {
      LogsFollow(w, messages, id);
      if w.logged(id).parent.Some? {
        NeverStarts(w, messages, w.logged(id).parent.value);
        assert messages[|messages|..] == [];
      }
    }
  }

  // ---------- draws of top-level runs ----------

  /** The run that the row is a draw of has no own prompt yet, and a copy of the row came
      before the run's first start and one after it. */
  ghost predicate Split(messages: seq<Message>, id: int) {
    var row := Logs(messages, id);
    row.Some? && row.value.parent.Some? &&
    var x := row.value.parent.value;
    && FirstPrompt(messages, x) == |messages|
    && Logs(messages[..FirstStart(messages, x)], id).Some? && Logs(messages[FirstStart(messages, x)..], id).Some?
  }

  lemma LogsFollow(w: World, messages: seq<Message>, id: int)
    requires Consistent(w, messages) && Logs(messages, id).Some?
    ensures var row := Logs(messages, id).value;
            && row.id == id && Follows(w, row)
            && row.parent == w.logged(id).parent && row.anchor == w.logged(id).anchor
  {
    LastLog(w, messages, id);
    var row := Logs(messages, id).value;
    assert Core(row).parent == row.parent && Core(row).anchor == row.anchor;
  }

  lemma {:induction false} LastLog(w: World, messages: seq<Message>, id: int)
    requires Consistent(w, messages) && Logs(messages, id).Some?
    ensures Logs(messages, id).value.id == id && Follows(w, Logs(messages, id).value)
  {
    var n := |messages| - 1;
    if !IsLog(messages[n], id) {
      LastLog(w, messages[..n], id);
    }
  }

  /** How many places the aspect of the draw stands for. */
  ghost function Count(a: Aspect): nat {
    (if a.shown == {} then 0 else 1) + (if a.byParent.Some? then 1 else 0) + (if a.byStep.Some? then 1 else 0)
  }

  lemma CountTold(messages: seq<Message>, a: Aspect, anchor: Option<CallId>, x: RunId, id: int)
    requires Told(messages, a, anchor, x, id) && Logs(messages, id).Some? && Logs(messages, id).value.parent == Some(x)
    ensures Count(a) == if Split(messages, id) then 2 else 1
  {
    var s, p := FirstStart(messages, x), FirstPrompt(messages, x);
    if p == |messages| {
      LogsSplit(messages, s, id);
    } else {
      LogsSplit(messages, p, id);
      if s < p {
        LogsSplit(messages[..p], s, id);
        assert messages[..p][s..] == messages[s..p] && messages[..p][..s] == messages[..s];
      }
    }
  }

  lemma CountPlaces(w: World, s: State, x: RunId, id: int)
    requires Kept(w, s) && RootDraw(w, x, id)
    ensures |PlacesOf(s, id)| == Count(AspectOf(w, s, x, id))
  {
    KeysOfAspect(w, s, x, id);
    ShownOnceOrNot(w, s.runs, id);
    assert ShownPlaces(s.runs, id) !! HeldPlacesOf(s.held, id);
  }

  lemma RootPlace(w: World, messages: seq<Message>, x: RunId, id: int)
    requires Consistent(w, messages) && RootDraw(w, x, id) && Logs(messages, id).Some?
    ensures |PlacesOf(Play(messages), id)| == if Split(messages, id) then 2 else 1
  {
    hide Split, Told, AspectOf;
    PlayKeeps(w, messages);
    InvIsKept(w, Play(messages), Received(messages));
    LogsFollow(w, messages, id);
    StreamAspect(w, messages, x, id);
    StoryTold(w, messages, x, id);
    CountTold(messages, AspectOf(w, Play(messages), x, id), w.logged(id).anchor, x, id);
    CountPlaces(w, Play(messages), x, id);
  }

  // ---------- the theorem ----------

  /** Every logged row is in exactly one place, unless it is split by its run's shell: then
      it is in two. */
  lemma OnePlaceExactly(w: World, messages: seq<Message>, id: int)
    requires Consistent(w, messages) && Logs(messages, id).Some?
    ensures |PlacesOf(Play(messages), id)| == if Split(messages, id) then 2 else 1
  {
    hide Split, PlacesOf;
    LogsFollow(w, messages, id);
    if Nested(w, id) {
      NestedPlace(w, messages, id);
      NestedNotSplit(w, messages, id);
    } else {
      RootPlace(w, messages, w.logged(id).parent.value, id);
    }
  }

  /** Which places: of a top-level run without an own prompt, what came before its first
      start is held for the run, and what came since is among its draws or held for the
      step.  So a split draw is in both. */
  lemma UnloggedPlaces(w: World, messages: seq<Message>, x: RunId, id: int)
    requires Consistent(w, messages) && RootDraw(w, x, id) && FirstPrompt(messages, x) == |messages|
    ensures var s, anchor := FirstStart(messages, x), w.logged(id).anchor;
            PlacesOf(Play(messages), id)
            == (if Logs(messages[..s], id).Some? then {Waiting(ByParent(x))} else {})
               + (if Logs(messages[s..], id).None? then {}
                  else if anchor.Some? then {Waiting(ByStep(x, anchor.value))} else {Draw(x)})
  {
    var s := Play(messages);
    PlayKeeps(w, messages);
    InvIsKept(w, s, Received(messages));
    StreamAspect(w, messages, x, id);
    StoryTold(w, messages, x, id);
    KeysOfAspect(w, s, x, id);
    if CopiesOf(s.runs, id) == {} {
      NotShown(s.runs, id);
    } else {
      var run, row := ShownAtOne(w, s.runs, id);
      DrawAtRoot(w, s.runs, run, row, x);
    }
  }

  lemma DrawAtRoot(w: World, runs: seq<RunView>, run: RunView, row: Row, x: RunId)
    requires Structure(w, runs) && run in runs && row in AllRows(run) && RootDraw(w, x, row.id)
    ensures row !in run.prompts && run.runId == x
  {
    assert Follows(w, row) && Core(row).parent == row.parent;
    UnderParent(w, row.runId, run.runId);
    UnderSelf(w, x);
    OneHost(w, x, run.runId, x);
  }
}
