/** Exactly when the screen is the least closure of what was received: when no draw without
    an anchor came to a run that had started and never logged. */
module ShellDraws {
  import opened Options
  import opened Rows
  import opened RunLog
  import opened LogStructure
  import opened LogInvariant
  import opened LeastClosure
  import opened OrderIndependence
  import opened Copies
  import opened NewestCopy
  import opened RootDraws
  import opened NewestShown

  /** The `j`-th message is a draw without an anchor of a run that the `i`-th one started. */
  predicate DrawsOnStart(messages: seq<Message>, i: nat, j: nat) {
    && i < j < |messages| && messages[i].Started? && messages[j].Logged?
    && messages[j].row.parent == Some(messages[i].run) && messages[j].row.anchor == None
  }

  /** A draw without an anchor came to a run that had started and never logs. */
  ghost predicate DrawOnShell(messages: seq<Message>) {
    exists i: nat, j: nat :: DrawsOnStart(messages, i, j) && messages[i].run !in OwnRuns(Received(messages))
  }

  // ---------- positions in a stream ----------

  lemma {:induction false} StreamAt(w: World, messages: seq<Message>, i: nat)
    requires Consistent(w, messages) && i < |messages|
    ensures messages[i].Logged? ==> Follows(w, messages[i].row) && Core(messages[i].row) in Received(messages)
    ensures messages[i].Started? ==> w.parentOf(messages[i].run) == None && messages[i].run in StartedRuns(messages)
  {
    var n := |messages| - 1;
    if i < n {
      StreamAt(w, messages[..n], i);
    }
  }

  lemma {:induction false} FirstStartAt(messages: seq<Message>, x: RunId, i: nat)
    requires i < |messages| && Starts(messages[i], x)
    ensures FirstStart(messages, x) <= i
  {
    var n := |messages| - 1;
    if i < n {
      FirstStartAt(messages[..n], x, i);
    }
  }

  lemma {:induction false} FirstStartStarts(messages: seq<Message>, x: RunId)
    requires FirstStart(messages, x) < |messages|
    ensures Starts(messages[FirstStart(messages, x)], x)
  {
    var n := |messages| - 1;
    if FirstStart(messages[..n], x) < n {
      FirstStartStarts(messages[..n], x);
    }
  }

  lemma PromptReceived(w: World, messages: seq<Message>, x: RunId, p: nat)
    requires Consistent(w, messages) && p < |messages| && Prompts(messages[p], x)
    ensures x in OwnRuns(Received(messages))
  {
    StreamAt(w, messages, p);
    var row := messages[p].row;
    assert Core(row).parent == row.parent && Core(row).runId == row.runId;
  }

  lemma NoPromptYet(w: World, messages: seq<Message>, x: RunId)
    requires Consistent(w, messages) && x !in OwnRuns(Received(messages))
    ensures FirstPrompt(messages, x) == |messages|
  {
    var p := FirstPrompt(messages, x);
    if p < |messages| {
      PromptReceived(w, messages, x, p);
    }
  }

  lemma {:induction false} LogsAt(messages: seq<Message>, id: int) returns (j: nat)
    requires Logs(messages, id).Some?
    ensures j < |messages| && IsLog(messages[j], id)
  {
    var n := |messages| - 1;
    if IsLog(messages[n], id) {
      j := n;
    } else {
      j := LogsAt(messages[..n], id);
    }
  }

  lemma {:induction false} LogsSome(messages: seq<Message>, id: int, j: nat)
    requires j < |messages| && IsLog(messages[j], id)
    ensures Logs(messages, id).Some?
  {
    var n := |messages| - 1;
    if j < n {
      LogsSome(messages[..n], id, j);
    }
  }

  // ---------- a draw of a run that never logs ----------

  /** It is on screen exactly when it has no anchor and a copy came after the start. */
  lemma ShellDrawShown(w: World, messages: seq<Message>, x: RunId, id: int)
    requires Consistent(w, messages) && RootDraw(w, x, id) && x !in OwnRuns(Received(messages))
    ensures CopiesOf(Play(messages).runs, id) != {} <==>
              w.logged(id).anchor == None && Logs(messages[FirstStart(messages, x)..], id).Some?
  {
    StreamAspect(w, messages, x, id);
    StoryTold(w, messages, x, id);
    NoPromptYet(w, messages, x);
  }

  lemma BareUnlessDrawn(w: World, messages: seq<Message>, run: RunView)
    requires Consistent(w, messages) && run in Play(messages).runs && run.prompts == [] && run.draws != []
    ensures DrawOnShell(messages)
  {
    var s, x := Play(messages), run.runId;
    PlayKeeps(w, messages);
    OwnRowOf(w, s, run);
    OwnRunShown(w, messages, x);
    var n: nat :| Climbs(w, run.draws[0].runId, x, n);
    var top := TopDraw(w, run, run.draws[0], n);
    assert Core(top).parent == top.parent && Core(top).anchor == top.anchor;
    CopyAt(s.runs, run, top);
    ShellDrawShown(w, messages, x, top.id);
    FindDrawOnStart(w, messages, x, top.id);
  }

  lemma FindDrawOnStart(w: World, messages: seq<Message>, x: RunId, id: int)
    requires Consistent(w, messages) && RootDraw(w, x, id) && w.logged(id).anchor == None
    requires x !in OwnRuns(Received(messages)) && Logs(messages[FirstStart(messages, x)..], id).Some?
    ensures DrawOnShell(messages)
  {
    var i := FirstStart(messages, x);
    var k := LogsAt(messages[i..], id);
    var j := i + k;
    assert messages[j] == messages[i..][k];
    FirstStartStarts(messages, x);
    StreamAt(w, messages, j);
    assert Core(messages[j].row).parent == messages[j].row.parent
        && Core(messages[j].row).anchor == messages[j].row.anchor;
    assert DrawsOnStart(messages, i, j);
  }

  lemma DrawnNotBare(w: World, messages: seq<Message>, i: nat, j: nat)
    requires Consistent(w, messages) && DrawsOnStart(messages, i, j)
    requires messages[i].run !in OwnRuns(Received(messages))
    ensures !ShellsBare(Play(messages))
  {
    hide Play, Consistent, HeldOk, RunOk, ShellsBare;
    var s, x, row := Play(messages), messages[i].run, messages[j].row;
    PlayKeeps(w, messages);
    StreamAt(w, messages, i);
    StreamAt(w, messages, j);
    assert Core(row).parent == row.parent && Core(row).anchor == row.anchor;
    FirstStartAt(messages, x, i);
    assert messages[FirstStart(messages, x)..][j - FirstStart(messages, x)] == messages[j];
    LogsSome(messages[FirstStart(messages, x)..], row.id, j - FirstStart(messages, x));
    ShellDrawShown(w, messages, x, row.id);
    HostsOfPlay(w, messages);
    OwnRunShown(w, messages, x);
    ShownOnShell(w, s, x, row.id);
  }

  /** A copy on screen of a draw of a run is under that run. */
  lemma ShownOnShell(w: World, s: State, x: RunId, id: int)
    requires Structure(w, s.runs) && RootDraw(w, x, id) && x in Hosts(s.runs) && !HasRow(Shown(s.runs), x)
    requires CopiesOf(s.runs, id) != {}
    ensures !ShellsBare(s)
  {
    var copy :| copy in CopiesOf(s.runs, id);
    var run :| run in s.runs && copy in AllRows(run);
    var host :| host in s.runs && host.runId == x;
    assert Core(copy).parent == copy.parent;
    UnderParent(w, copy.runId, run.runId);
    UnderSelf(w, x);
    OneHost(w, x, run.runId, x);
    RunIdDetermines(s.runs, run, host);
    OwnRowOf(w, s, host);
  }

  lemma ShellsBareExactly(w: World, messages: seq<Message>)
    requires Consistent(w, messages)
    ensures ShellsBare(Play(messages)) <==> !DrawOnShell(messages)
  {
    if !ShellsBare(Play(messages)) {
      var run :| run in Play(messages).runs && run.prompts == [] && run.draws != [];
      BareUnlessDrawn(w, messages, run);
    }
    if DrawOnShell(messages) {
      var i: nat, j: nat :| DrawsOnStart(messages, i, j) && messages[i].run !in OwnRuns(Received(messages));
      DrawnNotBare(w, messages, i, j);
    }
  }

  /** The screen is the least set of received rows that has every own prompt and every draw
      whose parent and step it has, exactly when no such draw came. */
  lemma LeastClosureExactly(w: World, messages: seq<Message>)
    requires Consistent(w, messages)
    ensures IsLeastClosure(Shown(Play(messages).runs), Received(messages)) <==> !DrawOnShell(messages)
  {
    PlayKeeps(w, messages);
    ScreenIsLeastClosure(w, Play(messages), Received(messages));
    ShellsBareExactly(w, messages);
  }
}
