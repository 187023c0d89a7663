/** A tab whose first page was fetched before any message came: what it shows in the end does
    not depend on what was fetched and what came live. */
module FirstPage {
  import opened Options
  import opened Rows
  import opened RunLog
  import opened LogStructure
  import opened LogInvariant
  import opened LeastClosure
  import opened OrderIndependence
  import opened SameFigures
  import opened FetchKeeps

  function PlayFrom(s: State, messages: seq<Message>): State {
    if messages == [] then s
    else Handle(PlayFrom(s, messages[..|messages| - 1]), messages[|messages| - 1])
  }

  /** The page is consistent and complete, so that every fetched draw comes with its parent
      and its step, and `s` is the state once it has joined an empty list. */
  ghost predicate Loaded(w: World, page: seq<RunView>, s: State) {
    && PageOk(w, BLANK, page) && JoinsAll(BLANK, page, s)
    && Supported(Hosts(page), RowsOfAll(page))
  }

  /** All rows, fetched and live. */
  ghost function Brought(page: seq<RunView>, messages: seq<Message>): set<Row> {
    RowsOfAll(page) + Received(messages)
  }

  /** The runs that have started and of which no own prompt was fetched or logged. */
  ghost function StillUnlogged(page: seq<RunView>, messages: seq<Message>): set<RunId> {
    StartedRuns(messages) - OwnRuns(Brought(page, messages))
  }

  ghost predicate NamesNone(page: seq<RunView>, messages: seq<Message>) {
    forall row :: row in Brought(page, messages) && row.parent.Some? ==>
                    row.parent.value !in StillUnlogged(page, messages)
  }

  // ---------- the page ----------

  lemma {:induction false} NothingHeld(s: State, page: seq<RunView>, s': State)
    requires JoinsAll(s, page, s') && s.held == []
    ensures s'.held == []
  {
    if page != [] {
      var mid := LastJoin(s, page, s');
      NothingHeld(s, page[..|page| - 1], mid);
      JoinHolds(mid, page[|page| - 1], s');
    }
  }

  lemma JoinHolds(s: State, run: RunView, s': State)
    requires Joins(s, run, s') && s.held == []
    ensures s'.held == []
  {
  }

  lemma LoadedState(w: World, page: seq<RunView>, s: State)
    requires Loaded(w, page, s)
    ensures Inv(w, s, [], RowsOfAll(page)) && SupportedState(s) && Hosts(s.runs) == Hosts(page)
  {
    hide Inv, PageOk, JoinsAll, Supported, RowsOfAll, Hosts, Shown;
    BlankKeeps(w);
    NothingHeld(BLANK, page, s);
    PageKeeps(w, BLANK, page, s, {});
    assert {} + RowsOfAll(page) == RowsOfAll(page) && {} + Hosts(page) == Hosts(page);
    ShownIsAll(w, s, RowsOfAll(page));
  }

  lemma BlankKeeps(w: World)
    ensures Inv(w, BLANK, [], {}) && Hosts(BLANK.runs) == {}
  {
    PlayKeeps(w, []);
  }

  lemma ShownIsAll(w: World, s: State, received: set<Row>)
    requires Inv(w, s, [], received) && s.held == []
    ensures Shown(s.runs) == received
  {
    assert HeldCores([]) == {} && FlightCores([]) == {};
  }

  /** The runs of a page are those of its own prompts. */
  lemma {:induction false} PageHosts(w: World, page: seq<RunView>)
    requires PageOk(w, BLANK, page)
    ensures Hosts(page) == OwnRuns(RowsOfAll(page))
  {
    if page != [] {
      var front, run := page[..|page| - 1], page[|page| - 1];
      PageFront(w, BLANK, page);
      PageHosts(w, front);
      OwnRunOf(w, run);
      assert OwnRuns(RowsOfAll(front) + Cores(AllRows(run)))
          == OwnRuns(RowsOfAll(front)) + OwnRuns(Cores(AllRows(run)));
    }
  }

  lemma OwnRunOf(w: World, run: RunView)
    requires RunOk(w, run) && run.prompts != []
    ensures OwnRuns(Cores(AllRows(run))) == {run.runId}
  {
    var own := run.prompts[0];
    assert own in AllRows(run) && Core(own).parent == own.parent && Core(own).runId == own.runId;
    forall row | row in AllRows(run) && Core(row).parent == None ensures Core(row).runId == run.runId {
      assert Core(row).parent == row.parent && Core(row).runId == row.runId;
      assert row in run.prompts || row in run.draws;
    }
  }

  // ---------- the messages after it ----------

  lemma {:induction false} PlayFromKeeps(w: World, page: seq<RunView>, s: State, messages: seq<Message>)
    requires Loaded(w, page, s) && Consistent(w, messages)
    ensures Inv(w, PlayFrom(s, messages), [], Brought(page, messages)) && SupportedState(PlayFrom(s, messages))
    ensures Hosts(PlayFrom(s, messages).runs) == StartedRuns(messages) + OwnRuns(Brought(page, messages))
  {
    hide Inv, Loaded, Hosts, Handle, OwnRuns, SupportedState;
    if messages == [] {
      LoadedState(w, page, s);
      LoadedHosts(w, page, s);
      assert RowsOfAll(page) + {} == RowsOfAll(page);
    } else {
      var before, m := messages[..|messages| - 1], messages[|messages| - 1];
      PlayFromKeeps(w, page, s, before);
      OneMessage(w, PlayFrom(s, before), m, Brought(page, before));
      BroughtGrows(page, messages);
    }
  }

  lemma LoadedHosts(w: World, page: seq<RunView>, s: State)
    requires Loaded(w, page, s)
    ensures Hosts(s.runs) == OwnRuns(RowsOfAll(page))
  {
    LoadedState(w, page, s);
    PageHosts(w, page);
  }

  ghost function RowOf(m: Message): set<Row> {
    if m.Logged? then {Core(m.row)} else {}
  }

  lemma OneMessage(w: World, s: State, m: Message, received: set<Row>)
    requires Inv(w, s, [], received) && SupportedState(s)
    requires (m.Logged? ==> Follows(w, m.row)) && (m.Started? ==> w.parentOf(m.run) == None)
    ensures Inv(w, Handle(s, m), [], received + RowOf(m)) && SupportedState(Handle(s, m))
    ensures Hosts(Handle(s, m).runs) == Hosts(s.runs) + BroughtBy(m)
  {
    hide Inv, SupportedState;
    HandleHosts(w, s, m, received);
    assert received + {} == received;
    match m {
      case Logged(row) => HandleRowKeeps(w, s, row, received);
      case Started(x, at) => StartRunKeeps(w, s, x, at, received);
      case Ended(x, outcome, reason) => FinishKeeps(w, s, x, outcome, reason, received);
    }
  }

  lemma BroughtGrows(page: seq<RunView>, messages: seq<Message>)
    requires messages != []
    ensures var before, m := messages[..|messages| - 1], messages[|messages| - 1];
            && Brought(page, messages) == Brought(page, before) + RowOf(m)
            && StartedRuns(messages) + OwnRuns(Brought(page, messages))
               == StartedRuns(before) + OwnRuns(Brought(page, before)) + BroughtBy(m)
  {
    var before, m := messages[..|messages| - 1], messages[|messages| - 1];
    assert Brought(page, messages) == Brought(page, before) + RowOf(m);
    if m.Logged? {
      OwnRunsGrow(Brought(page, before), m.row);
    }
  }

  lemma PlayedIsLeast(w: World, page: seq<RunView>, s: State, messages: seq<Message>)
    requires Loaded(w, page, s) && Consistent(w, messages) && NamesNone(page, messages)
    ensures var end, received := PlayFrom(s, messages), Brought(page, messages);
            && Inv(w, end, [], received) && SupportedState(end) && ShellsUnnamed(end, received)
            && IsLeastClosure(Shown(end.runs), received)
  {
    hide Inv, IsLeastClosure, Loaded, SupportedState;
    var end, received := PlayFrom(s, messages), Brought(page, messages);
    PlayFromKeeps(w, page, s, messages);
    forall h | h in Hosts(end.runs) ensures HasRow(Shown(end.runs), h) <==> h in OwnRuns(received) {
      OwnRowShown(w, end, received, h);
    }
    UnnamedShellsAreBare(w, end, received);
    ScreenIsLeastClosure(w, end, received);
  }

  lemma HostsByUnlogged(page: seq<RunView>, messages: seq<Message>)
    ensures StartedRuns(messages) + OwnRuns(Brought(page, messages))
         == StillUnlogged(page, messages) + OwnRuns(Brought(page, messages))
  {
  }

  // ---------- the theorem ----------

  /** However the rows are divided between a first page and the messages after it, and in
      whatever order those come, the tab ends with the same screen and the same headers,
      when no draw names a run that has started and not logged. */
  lemma FetchedOrLive(w: World, page: seq<RunView>, s: State, a: seq<Message>,
      other: seq<RunView>, t: State, b: seq<Message>)
    requires Loaded(w, page, s) && Loaded(w, other, t) && Consistent(w, a) && Consistent(w, b)
    requires Brought(page, a) == Brought(other, b) && StillUnlogged(page, a) == StillUnlogged(other, b)
    requires NamesNone(page, a)
    ensures SameScreen(PlayFrom(s, a), PlayFrom(t, b)) && SameHeaders(PlayFrom(s, a), PlayFrom(t, b))
  {
    hide Inv, IsLeastClosure, Loaded, SupportedState, ShellsUnnamed, Brought, PlayFrom, Consistent;
    PlayedIsLeast(w, page, s, a);
    PlayedIsLeast(w, other, t, b);
    PlayFromKeeps(w, page, s, a);
    PlayFromKeeps(w, other, t, b);
    HostsByUnlogged(page, a);
    HostsByUnlogged(other, b);
    SameStates(w, PlayFrom(s, a), PlayFrom(t, b), Brought(page, a));
    SameScreenSameHeaders(w, PlayFrom(s, a), PlayFrom(t, b), Brought(page, a));
  }

  /** A stream without a page is one that begins with an empty page. */
  lemma {:induction false} NoPage(w: World, messages: seq<Message>)
    ensures Loaded(w, [], BLANK) && PlayFrom(BLANK, messages) == Play(messages)
    ensures Brought([], messages) == Received(messages) && StillUnlogged([], messages) == Unlogged(messages)
  {
    if messages != [] {
      NoPage(w, messages[..|messages| - 1]);
    }
  }
}
