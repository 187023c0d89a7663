/** The list of runs is in most-recently-touched-first order, whatever came. */
module Recency {
  import opened Options
  import opened Rows
  import opened DrawNesting
  import opened RunLog
  import opened LogStructure
  import opened LogInvariant
  import opened LeastClosure
  import opened TouchOrder

  /** The run that a message touches: the run of an own prompt, of a start or of an outcome,
      or the one that a draw joins; none for a draw that has to wait, and for the outcome of
      a run that is not on screen. */
  ghost function Touches(s: State, m: Message): Option<RunId> {
    match m
    case Started(x, _) => Some(x)
    case Ended(x, _, _) => if FindRun(s.runs, x) == -1 then None else Some(x)
    case Logged(row) =>
      if row.parent == None then Some(row.runId)
      else
        var c := FindContainer(s.runs, row.parent.value);
        if c.None? || WaitsForStep(c.value.rows, row) then None else Some(s.runs[c.value.index].runId)
  }

  /** How many messages had come when the run was last touched; none if it never was. */
  ghost function LastTouch(messages: seq<Message>, h: RunId): nat {
    if messages == [] then 0
    else
      var n := |messages| - 1;
      if Touches(Play(messages[..n]), messages[n]) == Some(h) then n + 1 else LastTouch(messages[..n], h)
  }

  /** A message touches at most one run, which comes to the front, and leaves all others. */
  lemma HandleTouches(w: World, s: State, m: Message, received: set<Row>)
    requires Inv(w, s, [], received) && (m.Logged? ==> Follows(w, m.row))
    ensures var h := Touches(s, m);
            if h.Some? then TouchedOnly(s.runs, Handle(s, m).runs, h.value) else Handle(s, m).runs == s.runs
  {
    hide RunOk, HeldOk, HandleRow;
    match m
    case Started(x, at) => StartTouches(s, x, at);
    case Ended(x, outcome, reason) => FinishTouches(s, x, outcome, reason);
    case Logged(row) =>
      if row.parent == None {
        PromptTouches(w, s, row, received);
      } else {
        var c := FindContainer(s.runs, row.parent.value);
        if c.None? || WaitsForStep(c.value.rows, row) {
          HeldAtOnce(s, row);
        } else {
          PlacedDrawTouches(w, s, row, received);
        }
      }
  }

  ghost predicate RecentFirst(messages: seq<Message>, runs: seq<RunView>) {
    && (forall i :: 0 <= i < |runs| ==> 0 < LastTouch(messages, runs[i].runId) <= |messages|)
    && (forall i, j :: 0 <= i < j < |runs| ==> LastTouch(messages, runs[i].runId) > LastTouch(messages, runs[j].runId))
  }

  /** Where the run at position `k` behind the touched one was before. */
  function Before(at: int, k: nat): int {
    if at == -1 || k <= at then k - 1 else k
  }

  lemma OthersAt(runs: seq<RunView>, after: seq<RunView>, h: RunId, k: nat)
    requires DistinctRuns(runs) && TouchedOnly(runs, after, h) && 1 <= k < |after|
    ensures var i := Before(FindRun(runs, h), k);
            0 <= i < |runs| && after[k] == runs[i] && after[k].runId != h
  {
    assert after[k] == after[1..][k - 1];
  }

  /** The touched run goes before all that were touched earlier, which stay in order. */
  lemma TouchedFirst(messages: seq<Message>, runs: seq<RunView>, after: seq<RunView>, h: RunId)
    requires messages != [] && RecentFirst(messages[..|messages| - 1], runs) && DistinctRuns(runs)
    requires Touches(Play(messages[..|messages| - 1]), messages[|messages| - 1]) == Some(h)
    requires TouchedOnly(runs, after, h)
    ensures RecentFirst(messages, after)
  {
    hide Play, Touches, TouchedOnly;
    var before := messages[..|messages| - 1];
    assert after != [] && after[0].runId == h by {
      FrontTouched(runs, after, h);
    }
    forall k: nat | 1 <= k < |after|
      ensures 0 < LastTouch(messages, after[k].runId) < |messages|
      ensures LastTouch(messages, after[k].runId) == LastTouch(before, after[k].runId)
    {
      OthersAt(runs, after, h, k);
    }
    forall i: nat, j: nat | 1 <= i < j < |after|
      ensures LastTouch(before, after[i].runId) > LastTouch(before, after[j].runId)
    {
      OthersAt(runs, after, h, i);
      OthersAt(runs, after, h, j);
    }
  }

  lemma FrontTouched(runs: seq<RunView>, after: seq<RunView>, h: RunId)
    requires TouchedOnly(runs, after, h)
    ensures after != [] && after[0].runId == h
  {
  }

  /** Of any two runs on screen, the one further up was touched later. */
  lemma {:induction false} MostRecentFirst(w: World, messages: seq<Message>)
    requires Consistent(w, messages)
    ensures RecentFirst(messages, Play(messages).runs)
  {
    hide Inv, Touches;
    if messages != [] {
      var before, m := messages[..|messages| - 1], messages[|messages| - 1];
      MostRecentFirst(w, before);
      PlayKeeps(w, before);
      HandleTouches(w, Play(before), m, Received(before));
      RunsDistinct(w, Play(before), Received(before));
      if Touches(Play(before), m).Some? {
        TouchedFirst(messages, Play(before).runs, Play(messages).runs, Touches(Play(before), m).value);
      }
    }
  }

  lemma RunsDistinct(w: World, s: State, received: set<Row>)
    requires Inv(w, s, [], received)
    ensures DistinctRuns(s.runs)
  {
  }
}
