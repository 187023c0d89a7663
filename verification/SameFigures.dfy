/** The figures in a run's header, too, do not depend on the order of the messages. */
module SameFigures {
  import opened Rows
  import opened DrawNesting
  import opened RunLog
  import opened LogStructure
  import opened LogInvariant
  import opened LeastClosure
  import opened OrderIndependence

  function Cut(rows: seq<Row>, j: nat): seq<Row>
    requires j < |rows|
  {
    rows[..j] + rows[j + 1..]
  }

  lemma {:induction false} SumsOfCut(rows: seq<Row>, j: nat)
    requires j < |rows|
    ensures SumDuration(rows) == SumDuration(Cut(rows, j)) + rows[j].duration
    ensures SumIn(rows) == SumIn(Cut(rows, j)) + rows[j].inTokens
    ensures SumOut(rows) == SumOut(Cut(rows, j)) + rows[j].outTokens
  {
    var n := |rows| - 1;
    if j == n {
      assert Cut(rows, j) == rows[..n];
    } else {
      SumsOfCut(rows[..n], j);
      CutLast(rows, j);
    }
  }

  lemma CutLast(rows: seq<Row>, j: nat)
    requires j < |rows| - 1
    ensures var n := |rows| - 1;
            && |Cut(rows, j)| == n
            && Cut(rows, j)[..n - 1] == Cut(rows[..n], j) && Cut(rows, j)[n - 1] == rows[n]
  {
  }

  /** Without one of its rows, a list without repeated ids has every other core left. */
  lemma CoresOfCut(rows: seq<Row>, j: nat)
    requires j < |rows| && DistinctIds(rows)
    ensures DistinctIds(Cut(rows, j)) && Cores(Cut(rows, j)) == Cores(rows) - {Core(rows[j])}
  {
  }

  lemma CoresEmpty(rows: seq<Row>)
    ensures Cores(rows) == {} <==> rows == []
  {
    if rows != [] {
      assert Core(rows[0]) in Cores(rows);
    }
  }

  /** Lists of the same logged rows, in whatever order, have the same length and sums. */
  lemma {:induction false} SameSums(a: seq<Row>, b: seq<Row>)
    requires DistinctIds(a) && DistinctIds(b) && Cores(a) == Cores(b)
    ensures |a| == |b|
    ensures SumDuration(a) == SumDuration(b) && SumIn(a) == SumIn(b) && SumOut(a) == SumOut(b)
    decreases |a|
  {
    CoresEmpty(a);
    CoresEmpty(b);
    if a != [] {
      var i := |a| - 1;
      assert Core(a[i]) in Cores(a);
      var row :| row in b && Core(row) == Core(a[i]);
      var j :| 0 <= j < |b| && b[j] == row;
      CoresOfCut(a, i);
      CoresOfCut(b, j);
      SameSums(Cut(a, i), Cut(b, j));
      SumsOfCut(a, i);
      SumsOfCut(b, j);
      SameCoreSameFigures(a[i], b[j]);
    }
  }

  lemma SameCoreSameFigures(row: Row, copy: Row)
    requires Core(row) == Core(copy)
    ensures row.duration == copy.duration && row.endedAt == copy.endedAt
    ensures row.inTokens == copy.inTokens && row.outTokens == copy.outTokens
  {
  }

  ghost predicate SameWindow(r: RunView, q: RunView) {
    r.startedAt == q.startedAt && r.endedAt == q.endedAt && r.wallDuration == q.wallDuration
  }

  lemma WindowWithin(r: RunView, q: RunView)
    requires WindowExact(r) && WindowExact(q) && Cores(AllRows(r)) <= Cores(AllRows(q))
    ensures q.startedAt <= r.startedAt && r.endedAt <= q.endedAt
  {
    var first :| first in AllRows(r) && first.endedAt - first.duration == r.startedAt;
    var last :| last in AllRows(r) && last.endedAt == r.endedAt;
    assert Core(first) in Cores(AllRows(q)) && Core(last) in Cores(AllRows(q));
    var firstCopy :| firstCopy in AllRows(q) && Core(firstCopy) == Core(first);
    var lastCopy :| lastCopy in AllRows(q) && Core(lastCopy) == Core(last);
    SameCoreSameFigures(first, firstCopy);
    SameCoreSameFigures(last, lastCopy);
  }

  /** The same counts and totals, and the same window once there is a row: until then a
      run's window is the moment of its first start. */
  ghost predicate SameHeader(r: RunView, q: RunView) {
    && r.promptCount == q.promptCount && r.totalDuration == q.totalDuration
    && r.inTokens == q.inTokens && r.outTokens == q.outTokens
    && (AllRows(r) != [] ==> SameWindow(r, q))
  }

  lemma SameRowsSameHeader(w: World, r: RunView, q: RunView)
    requires RunOk(w, r) && RunOk(w, q)
    requires Cores(r.prompts) == Cores(q.prompts) && Cores(r.draws) == Cores(q.draws)
    ensures SameHeader(r, q)
  {
    SameSums(r.prompts, q.prompts);
    CoresConcat(r.prompts, r.draws);
    CoresConcat(q.prompts, q.draws);
    CoresEmpty(AllRows(r));
    CoresEmpty(AllRows(q));
    if AllRows(r) != [] {
      WindowWithin(r, q);
      WindowWithin(q, r);
    }
  }

  /** What the header of any run shows after any messages: the number of its own prompts with
      the sums of their durations and tokens, and, once it has a row, the time from the
      earliest start of its rows to their latest end. */
  lemma HeaderExactly(w: World, messages: seq<Message>, run: RunView)
    requires Consistent(w, messages) && run in Play(messages).runs
    ensures run.promptCount == |run.prompts| && run.totalDuration == SumDuration(run.prompts)
    ensures run.inTokens == SumIn(run.prompts) && run.outTokens == SumOut(run.prompts)
    ensures forall row :: row in AllRows(run) ==>
                            run.startedAt <= row.endedAt - row.duration && row.endedAt <= run.endedAt
    ensures AllRows(run) != [] ==>
              && (exists row :: row in AllRows(run) && run.startedAt == row.endedAt - row.duration)
              && (exists row :: row in AllRows(run) && run.endedAt == row.endedAt)
              && run.wallDuration == run.endedAt - run.startedAt
  {
    PlayKeeps(w, messages);
    StructureOf(w, Play(messages), Received(messages));
    assert RunOk(w, run);
  }

  ghost predicate SameHeaders(a: State, b: State) {
    forall r, q :: r in a.runs && q in b.runs && r.runId == q.runId ==> SameHeader(r, q)
  }

  /** Any two streams that bring the same show every run with the same prompt count, model
      time, tokens and window, when no draw names a run that has started and not logged. */
  lemma HeadersDoNotDependOnOrder(w: World, a: seq<Message>, b: seq<Message>)
    requires Consistent(w, a) && Consistent(w, b) && Alike(a, b) && NamesNoShell(a)
    ensures SameHeaders(Play(a), Play(b))
  {
    hide Inv, SameScreen, Alike;
    OrderDoesNotMatter(w, a, b);
    AlikeStreams(a, b);
    PlayKeeps(w, a);
    PlayKeeps(w, b);
    SameScreenSameHeaders(w, Play(a), Play(b), Received(a));
  }

  lemma SameScreenSameHeaders(w: World, s: State, t: State, received: set<Row>)
    requires Inv(w, s, [], received) && Inv(w, t, [], received) && SameScreen(s, t)
    ensures SameHeaders(s, t)
  {
    StructureOf(w, s, received);
    StructureOf(w, t, received);
    forall r, q | r in s.runs && q in t.runs && r.runId == q.runId ensures SameHeader(r, q) {
      SameRowsSameHeader(w, r, q);
    }
  }
}
