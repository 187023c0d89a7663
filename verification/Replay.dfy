/** The tab over a whole stream of messages: what holds of streams holds of the objects. */
module Replay {
  import opened Options
  import opened Rows
  import opened RunLog
  import opened LogStructure
  import opened LogInvariant
  import opened Keeping
  import opened RunningForest
  import opened LeastClosure
  import opened OrderIndependence
  import opened SameFigures
  import opened FetchKeeps
  import opened FirstPage
  import opened PromptsTab

  lemma {:induction false} ConsistentFront(w: World, messages: seq<Message>, n: nat)
    requires Consistent(w, messages) && n <= |messages|
    ensures Consistent(w, messages[..n])
    ensures n < |messages| && messages[n].Logged? ==> Follows(w, messages[n].row)
  {
    var last := |messages| - 1;
    if n == |messages| {
      assert messages[..n] == messages;
    } else if n < last {
      ConsistentFront(w, messages[..last], n);
      assert messages[..last][..n] == messages[..n];
    }
  }

  /** One message and its handler. */
  method Receive(tab: Tab, m: Message, ghost w: World)
    requires tab.Valid() && Kept(w, tab.Model()) && (m.Logged? ==> Follows(w, m.row))
    modifies tab.Repr
    ensures tab.Valid() && fresh(tab.Repr - old(tab.Repr)) && tab.Model() == Handle(old(tab.Model()), m)
  {
    match m {
      case Logged(row) => tab.HandlePromptUpdate(row, w);
      case Started(x, at) => var host := tab.HandleCallStarted(RunningCall(x, None, at));
      case Ended(x, outcome, reason) => tab.HandleRunOutcome(x, outcome, reason);
    }
  }

  lemma NextFromPage(w: World, page: seq<RunView>, start: State, messages: seq<Message>, n: nat)
    requires Loaded(w, page, start) && Consistent(w, messages) && n < |messages|
    ensures Kept(w, PlayFrom(start, messages[..n])) && (messages[n].Logged? ==> Follows(w, messages[n].row))
    ensures PlayFrom(start, messages[..n + 1]) == Handle(PlayFrom(start, messages[..n]), messages[n])
  {
    ConsistentFront(w, messages, n);
    PlayFromKeeps(w, page, start, messages[..n]);
    InvIsKept(w, PlayFrom(start, messages[..n]), Brought(page, messages[..n]));
    assert messages[..n + 1][..n] == messages[..n];
  }

  /** A stream, one handler call for each message. */
  method ReceiveAll(tab: Tab, messages: seq<Message>, ghost w: World, ghost page: seq<RunView>)
    requires tab.Valid() && Loaded(w, page, tab.Model()) && Consistent(w, messages)
    modifies tab.Repr
    ensures tab.Valid() && fresh(tab.Repr - old(tab.Repr)) && tab.Model() == PlayFrom(old(tab.Model()), messages)
  {
    ghost var start := tab.Model();
    hide Loaded, Consistent;
    assert messages[..0] == [];
    for i := 0 to |messages|
      invariant tab.Valid() && fresh(tab.Repr - old(tab.Repr)) && tab.Model() == PlayFrom(start, messages[..i])
    {
      NextFromPage(w, page, start, messages, i);
      Receive(tab, messages[i], w);
    }
    assert messages[..|messages|] == messages;
  }

  /** A new tab that receives a stream shows what the stream leaves. */
  method Replayed(messages: seq<Message>, ghost w: World) returns (tab: Tab)
    requires Consistent(w, messages)
    ensures tab.Valid() && fresh(tab.Repr) && tab.Model() == Play(messages)
  {
    tab := new Tab();
    NoPage(w, messages);
    ReceiveAll(tab, messages, w, []);
  }

  /** A new tab that is given a complete page, and then a stream, shows what they leave. */
  method ReplayedAfterPage(page: seq<Run>, messages: seq<Message>, ghost w: World)
    returns (tab: Tab, ghost start: State)
    requires NoRepeats(page) && Consistent(w, messages)
    requires PageOk(w, BLANK, Views(page)) && Supported(Hosts(Views(page)), RowsOfAll(Views(page)))
    modifies page
    ensures tab.Valid() && fresh(tab.Repr - set run | run in page)
    ensures Loaded(w, old(Views(page)), start) && tab.Model() == PlayFrom(start, messages)
  {
    ghost var before := Views(page);
    tab := OpenOn(page, w);
    start := tab.Model();
    ReceiveAll(tab, messages, w, before);
  }

  method OpenOn(page: seq<Run>, ghost w: World) returns (tab: Tab)
    requires NoRepeats(page)
    requires PageOk(w, BLANK, Views(page)) && Supported(Hosts(Views(page)), RowsOfAll(Views(page)))
    modifies page
    ensures tab.Valid() && fresh(tab.Repr - set run | run in page) && Loaded(w, old(Views(page)), tab.Model())
  {
    hide Supported, RowsOfAll, JoinsAll, PageOk, Views, FetchedIds, DropCalls, DropTools;
    tab := new Tab();
    PageIsLoose(w, tab, page);
    tab.ApplyPromptLogsResponse(page);
  }

  lemma PageIsLoose(w: World, tab: Tab, page: seq<Run>)
    requires NoRepeats(page) && PageOk(w, BLANK, Views(page)) && forall run :: run in page ==> run !in tab.Repr
    ensures tab.Loose(page)
  {
    forall run | run in page ensures run.prompts != [] {
      var k :| 0 <= k < |page| && page[k] == run;
      assert Views(page)[k] in Views(page) && Views(page)[k].prompts == run.prompts;
    }
  }

  /** Two tabs that receive the same messages in different orders show the same, when no draw
      names a run that has started and not logged. */
  method ReplayedTwice(a: seq<Message>, b: seq<Message>, ghost w: World) returns (first: Tab, second: Tab)
    requires Consistent(w, a) && Consistent(w, b) && Alike(a, b) && NamesNoShell(a)
    ensures SameScreen(first.Model(), second.Model()) && SameHeaders(first.Model(), second.Model())
  {
    first := Replayed(a, w);
    second := Replayed(b, w);
    OrderDoesNotMatter(w, a, b);
    HeadersDoNotDependOnOrder(w, a, b);
  }
}
