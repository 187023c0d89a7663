/** Exactly when the copy of a row on screen is the newest one that was logged. */
module NewestShown {
  import opened Options
  import opened Rows
  import opened LogStructure
  import opened LeastClosure
  import opened Copies
  import opened NewestCopy
  import opened RootDraws
  import opened Shells

  // ---------- the stream ----------

  predicate Starts(m: Message, x: RunId) {
    m.Started? && m.run == x
  }

  predicate Prompts(m: Message, x: RunId) {
    m.Logged? && m.row.parent == None && m.row.runId == x
  }

  predicate IsLog(m: Message, id: int) {
    m.Logged? && m.row.id == id
  }

  /** The position of the first start of the run, or the length of the stream. */
  function FirstStart(messages: seq<Message>, x: RunId): (i: nat)
    ensures i <= |messages|
  {
    if messages == [] then 0
    else
      var n := |messages| - 1;
      var i := FirstStart(messages[..n], x);
      if i < n then i else if Starts(messages[n], x) then n else n + 1
  }

  /** The position of the run's first own prompt, or the length of the stream. */
  function FirstPrompt(messages: seq<Message>, x: RunId): (i: nat)
    ensures i <= |messages| && (i < |messages| ==> Prompts(messages[i], x))
  {
    if messages == [] then 0
    else
      var n := |messages| - 1;
      var i := FirstPrompt(messages[..n], x);
      if i < n then i else if Prompts(messages[n], x) then n else n + 1
  }

  /** The run's first own prompt dispatched the anchor. */
  predicate FirstDispatches(messages: seq<Message>, x: RunId, anchor: Option<CallId>) {
    var p := FirstPrompt(messages, x);
    p < |messages| && anchor.Some? && Made(messages[p].row, anchor.value)
  }

  /** A copy came before the run's shell and a different one while the shell was there; the
      run's first own prompt did not dispatch the step that the draw waits for, if it waits
      for one; and no copy came after that. */
  ghost predicate Overtaken(messages: seq<Message>, x: RunId, anchor: Option<CallId>, id: int) {
    var s, p := FirstStart(messages, x), FirstPrompt(messages, x);
    && s < p < |messages|
    && Logs(messages[..s], id).Some? && Logs(messages[s..p], id).Some?
       && Logs(messages[..s], id) != Logs(messages[s..p], id)
    && !FirstDispatches(messages, x, anchor)
    && Logs(messages[p..], id) == None
  }

  lemma LogsAppend(messages: seq<Message>, m: Message, id: int)
    ensures Logs(messages + [m], id) == if IsLog(m, id) then Some(m.row) else Logs(messages, id)
  {
    assert (messages + [m])[..|messages|] == messages;
  }

  lemma {:induction false} LogsSplit(messages: seq<Message>, k: nat, id: int)
    requires k <= |messages|
    ensures Logs(messages, id)
            == if Logs(messages[k..], id).Some? then Logs(messages[k..], id) else Logs(messages[..k], id)
    decreases |messages|
  {
    var n := |messages| - 1;
    if k == |messages| {
      assert messages[..k] == messages;
    } else {
      LogsSplit(messages[..n], k, id);
      assert messages[..n][k..] == messages[k..][..n - k] && messages[..n][..k] == messages[..k];
    }
  }

  // ---------- where the copies of a draw are ----------

  function Later(a: Option<Row>, b: Option<Row>): Option<Row> {
    if b.Some? then b else a
  }

  /** The copies from before the first own prompt, in the order its drains leave them in. */
  ghost function Merged(messages: seq<Message>, x: RunId, anchor: Option<CallId>, id: int): Option<Row> {
    var s, p := FirstStart(messages, x), FirstPrompt(messages, x);
    if s < p then
      var early, late := Logs(messages[..s], id), Logs(messages[s..p], id);
      if FirstDispatches(messages, x, anchor) then Later(early, late) else Later(late, early)
    else Logs(messages[..p], id)
  }

  ghost predicate ToldBefore(messages: seq<Message>, a: Aspect, anchor: Option<CallId>, x: RunId, id: int) {
    var s := FirstStart(messages, x);
    && (a.onTab <==> s < |messages|) && !a.dispatched
    && a.byParent == Logs(messages[..s], id)
    && (if anchor.Some? then a.byStep == Logs(messages[s..], id) && a.shown == {}
        else a.byStep == None && a.shown == AsSet(Logs(messages[s..], id)))
  }

  ghost predicate ToldAfter(messages: seq<Message>, a: Aspect, anchor: Option<CallId>, x: RunId, id: int) {
    var last := Later(Merged(messages, x, anchor, id), Logs(messages[FirstPrompt(messages, x)..], id));
    && a.onTab && a.byParent == None
    && (if anchor.Some? && !a.dispatched then a.byStep == last && a.shown == {}
        else a.byStep == None && a.shown == AsSet(last))
  }

  ghost predicate Told(messages: seq<Message>, a: Aspect, anchor: Option<CallId>, x: RunId, id: int) {
    if FirstPrompt(messages, x) == |messages| then ToldBefore(messages, a, anchor, x, id)
    else ToldAfter(messages, a, anchor, x, id)
  }

  /** A message after the run's first own prompt. */
  lemma TellAfter(before: seq<Message>, m: Message, a: Aspect, anchor: Option<CallId>, x: RunId, id: int)
    requires FirstPrompt(before, x) < |before| && ToldAfter(before, a, anchor, x, id)
    ensures ToldAfter(before + [m], After(a, anchor, x, id, m), anchor, x, id)
    ensures FirstPrompt(before + [m], x) < |before|
  {
    var p := FirstPrompt(before, x);
    SamePrefix(before, m, x, anchor, id);
    assert (before + [m])[p..] == before[p..] + [m];
    LogsAppend(before[p..], m, id);
  }

  lemma SamePrefix(before: seq<Message>, m: Message, x: RunId, anchor: Option<CallId>, id: int)
    requires FirstPrompt(before, x) < |before|
    ensures FirstPrompt(before + [m], x) == FirstPrompt(before, x)
    ensures Merged(before + [m], x, anchor, id) == Merged(before, x, anchor, id)
  {
    var messages := before + [m];
    assert messages[..|before|] == before;
    var s, p := FirstStart(before, x), FirstPrompt(before, x);
    assert messages[p] == before[p] && messages[..p] == before[..p];
    if s < p {
      assert messages[..s] == before[..s] && messages[s..p] == before[s..p];
    }
  }

  /** A message before it. */
  lemma TellBefore(before: seq<Message>, m: Message, a: Aspect, anchor: Option<CallId>, x: RunId, id: int)
    requires FirstPrompt(before, x) == |before| && ToldBefore(before, a, anchor, x, id)
    requires !Prompts(m, x)
    ensures FirstPrompt(before + [m], x) == |before| + 1
    ensures ToldBefore(before + [m], After(a, anchor, x, id, m), anchor, x, id)
  {
    var messages := before + [m];
    assert messages[..|before|] == before;
    var s := FirstStart(before, x);
    if s < |before| {
      assert messages[..s] == before[..s] && messages[s..] == before[s..] + [m];
      LogsAppend(before[s..], m, id);
    } else {
      assert before[..s] == before;
      LogsAppend(before, m, id);
      assert messages[|before| + 1..] == [] && messages[..|before| + 1] == messages;
      assert messages[|before|..] == [m];
      assert [m][..0] == [];
    }
  }

  /** The first own prompt itself. */
  lemma TellFirst(before: seq<Message>, m: Message, a: Aspect, anchor: Option<CallId>, x: RunId, id: int)
    requires FirstPrompt(before, x) == |before| && ToldBefore(before, a, anchor, x, id)
    requires Prompts(m, x) && !IsLog(m, id)
    ensures FirstPrompt(before + [m], x) == |before|
    ensures ToldAfter(before + [m], After(a, anchor, x, id, m), anchor, x, id)
  {
    var messages, p := before + [m], |before|;
    assert messages[..p] == before;
    assert messages[p..] == [m] && [m][..0] == [];
    var s := FirstStart(before, x);
    if s < p {
      assert messages[..s] == before[..s] && messages[s..p] == before[s..];
    } else {
      assert before[..s] == before && before[s..] == [];
    }
  }

  lemma {:induction false} StoryTold(w: World, messages: seq<Message>, x: RunId, id: int)
    requires Consistent(w, messages) && RootDraw(w, x, id)
    ensures Told(messages, Story(messages, w.logged(id).anchor, x, id), w.logged(id).anchor, x, id)
  {
    if messages != [] {
      var before, m := messages[..|messages| - 1], messages[|messages| - 1];
      var anchor := w.logged(id).anchor;
      var a := Story(before, anchor, x, id);
      assert messages == before + [m];
      StoryTold(w, before, x, id);
      if FirstPrompt(before, x) < |before| {
        TellAfter(before, m, a, anchor, x, id);
      } else if Prompts(m, x) {
        assert Core(m.row).parent == m.row.parent;
        TellFirst(before, m, a, anchor, x, id);
      } else {
        TellBefore(before, m, a, anchor, x, id);
      }
    }
  }

  /** What is shown is the newest copy unless that one was overtaken. */
  lemma ToldNewest(messages: seq<Message>, a: Aspect, anchor: Option<CallId>, x: RunId, id: int)
    requires Told(messages, a, anchor, x, id) && a.shown != {}
    ensures a.shown == AsSet(Logs(messages, id)) <==> !Overtaken(messages, x, anchor, id)
  {
    var s, p := FirstStart(messages, x), FirstPrompt(messages, x);
    LogsSplit(messages, p, id);
    if p == |messages| {
      LogsSplit(messages, s, id);
    } else if s < p {
      LogsSplit(messages[..p], s, id);
      assert messages[..p][s..] == messages[s..p] && messages[..p][..s] == messages[..s];
    }
  }

  // ---------- the theorem ----------

  lemma {:induction false} NeverStarts(w: World, messages: seq<Message>, x: RunId)
    requires Consistent(w, messages) && w.parentOf(x).Some?
    ensures FirstStart(messages, x) == |messages|
  {
    if messages != [] {
      NeverStarts(w, messages[..|messages| - 1], x);
    }
  }

  /** The copy of a row on screen is the newest one that was logged, except for a draw that
      was overtaken at its run's shell: then it is an older one. */
  lemma NewestOnScreen(w: World, messages: seq<Message>, run: RunView, row: Row)
    requires Consistent(w, messages) && run in Play(messages).runs && row in AllRows(run)
    ensures Some(row) == Logs(messages, row.id)
       <==> !(row.parent.Some? && Overtaken(messages, row.parent.value, row.anchor, row.id))
  {
    PlayKeeps(w, messages);
    assert Follows(w, row);
    assert Core(row).parent == row.parent && Core(row).anchor == row.anchor;
    OneCopy(w, Play(messages).runs, run, row);
    if Nested(w, row.id) {
      NestedNewest(w, messages, run, row);
      if row.parent.Some? {
        NeverStarts(w, messages, row.parent.value);
      }
    } else {
      StreamAspect(w, messages, row.parent.value, row.id);
      StoryTold(w, messages, row.parent.value, row.id);
      ToldNewest(messages, Story(messages, row.anchor, row.parent.value, row.id), row.anchor, row.parent.value, row.id);
    }
  }

  lemma NestedNewest(w: World, messages: seq<Message>, run: RunView, row: Row)
    requires Consistent(w, messages) && run in Play(messages).runs && row in AllRows(run)
    requires Nested(w, row.id) && CopiesOf(Play(messages).runs, row.id) == {row}
    ensures Some(row) == Logs(messages, row.id)
  {
    StreamNewest(w, messages, row.id);
    LastHeldMember(Play(messages).held, row.id);
    NestedNotHeld(w, messages, run, row);
  }

  /** While such a row is on screen, no copy of it is held. */
  lemma NestedNotHeld(w: World, messages: seq<Message>, run: RunView, row: Row)
    requires Consistent(w, messages) && run in Play(messages).runs && row in AllRows(run) && Nested(w, row.id)
    ensures forall h :: h in Play(messages).held ==> h.draw.id != row.id
  {
    var s := Play(messages);
    PlayKeeps(w, messages);
    ShownAt(s.runs, run, row);
    assert Follows(w, row);
    forall h | h in s.held ensures h.draw.id != row.id {
      TwoPlacesOnlyUnderShell(w, s, Received(messages), h);
      if h.draw.id == row.id {
        CopiesAgree(w, row, h.draw);
        assert Core(h.draw) == Core(row);
        CopyParent(w, s, h.draw);
      }
    }
  }

  /** In particular the newest copy is on screen when none came while the draw's run was an
      unlogged shell. */
  lemma NewestWithoutShell(w: World, messages: seq<Message>, run: RunView, row: Row)
    requires Consistent(w, messages) && run in Play(messages).runs && row in AllRows(run)
    requires row.parent.Some? ==>
               var s, p := FirstStart(messages, row.parent.value), FirstPrompt(messages, row.parent.value);
               s < p ==> Logs(messages[s..p], row.id) == None
    ensures Some(row) == Logs(messages, row.id)
  {
    NewestOnScreen(w, messages, run, row);
  }
}
