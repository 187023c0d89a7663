/** The list in a run's body, too, does not depend on the order of the messages: only
    entries that start together can change places. */
module SameLists {
  import opened Rows
  import opened LogStructure
  import opened LogInvariant
  import opened LeastClosure
  import opened OrderIndependence
  import opened RunningForest

  // ---------- lists with the same entries ----------

  function Mapped<T, U>(f: T -> U, xs: seq<T>): seq<U> {
    seq(|xs|, i requires 0 <= i < |xs| => f(xs[i]))
  }

  lemma MappedCut<T, U>(f: T -> U, xs: seq<T>, j: nat)
    requires j < |xs|
    ensures multiset(xs) == multiset(xs[..j] + xs[j + 1..]) + multiset{xs[j]}
    ensures multiset(Mapped(f, xs)) == multiset(Mapped(f, xs[..j] + xs[j + 1..])) + multiset{f(xs[j])}
  {
    assert xs == xs[..j] + [xs[j]] + xs[j + 1..];
    assert Mapped(f, xs) == Mapped(f, xs[..j]) + [f(xs[j])] + Mapped(f, xs[j + 1..]);
    assert Mapped(f, xs[..j] + xs[j + 1..]) == Mapped(f, xs[..j]) + Mapped(f, xs[j + 1..]);
  }

  lemma Cancel<T>(a: multiset<T>, b: multiset<T>, c: multiset<T>)
    requires a + c == b + c
    ensures a == b
  {
    assert a == (a + c) - c && b == (b + c) - c;
  }

  lemma Uncons<T>(a: seq<T>, b: seq<T>) returns (j: nat)
    requires multiset(a) == multiset(b) && a != []
    ensures j < |b| && b[j] == a[0]
  {
    assert a[0] in multiset(a);
    j :| 0 <= j < |b| && b[j] == a[0];
  }

  /** What is the same up to order stays so under any function. */
  lemma {:induction false} MappedBag<T, U>(f: T -> U, a: seq<T>, b: seq<T>)
    requires multiset(a) == multiset(b)
    ensures multiset(Mapped(f, a)) == multiset(Mapped(f, b)) && |a| == |b|
    decreases |a|
  {
    if a == [] {
      assert |multiset(b)| == 0;
    } else {
      hide Mapped;
      var j := Uncons(a, b);
      var front, rest := a[..0] + a[0 + 1..], b[..j] + b[j + 1..];
      MappedCut(f, a, 0);
      MappedCut(f, b, j);
      Cancel(multiset(front), multiset(rest), multiset{a[0]});
      MappedBag(f, front, rest);
    }
  }

  /** A list without repetitions is known, up to order, by its members. */
  lemma {:induction false} BagOfDistinct<T>(xs: seq<T>)
    requires forall i, j :: 0 <= i < j < |xs| ==> xs[i] != xs[j]
    ensures multiset(xs) == multiset(set x | x in xs)
  {
    if xs != [] {
      var n := |xs| - 1;
      var front, last := xs[..n], xs[n];
      BagOfDistinct(front);
      assert xs == front + [last];
      assert (set x | x in xs) == (set x | x in front) + {last};
    }
  }

  ghost predicate Ascending(xs: seq<int>) {
    forall i, j :: 0 <= i < j < |xs| ==> xs[i] <= xs[j]
  }

  /** Two ascending lists of the same numbers are one list. */
  lemma {:induction false} OneAscendingList(a: seq<int>, b: seq<int>)
    requires Ascending(a) && Ascending(b) && multiset(a) == multiset(b)
    ensures a == b
    decreases |a|
  {
    if a == [] {
      assert |multiset(b)| == 0;
    } else {
      hide Ascending;
      var n := |a| - 1;
      LargestLast(a, b);
      LargestLast(b, a);
      AscendingFront(a);
      AscendingFront(b);
      FrontBag(a);
      FrontBag(b);
      Cancel(multiset(a[..n]), multiset(b[..n]), multiset{a[n]});
      OneAscendingList(a[..n], b[..n]);
      assert a == a[..n] + [a[n]] && b == b[..n] + [b[n]];
    }
  }

  lemma FrontBag(xs: seq<int>)
    requires xs != []
    ensures multiset(xs) == multiset(xs[..|xs| - 1]) + multiset{xs[|xs| - 1]}
  {
    assert xs == xs[..|xs| - 1] + [xs[|xs| - 1]];
  }

  lemma LargestLast(a: seq<int>, b: seq<int>)
    requires Ascending(b) && multiset(a) == multiset(b) && a != []
    ensures |a| == |b| && a[|a| - 1] <= b[|b| - 1]
  {
    assert |multiset(a)| == |multiset(b)|;
    assert a[|a| - 1] in multiset(a);
    var k :| 0 <= k < |b| && b[k] == a[|a| - 1];
  }

  lemma AscendingFront(xs: seq<int>)
    requires Ascending(xs) && xs != []
    ensures Ascending(xs[..|xs| - 1])
  {
  }

  // ---------- the entries of a body ----------

  function CoreEntry(e: Entry): Entry {
    if e.Logged? then Entry.Logged(Core(e.row)) else e
  }

  /** The rows, calls and tools that the body of a run lists. */
  function Listing(run: RunView, calls: seq<RunningCall>, tools: seq<RunningTool>, ids: set<RunId>): seq<Entry> {
    Logs(AllRows(run)) + ListedCalls(run.runId, ids, calls) + ListedTools(ids, tools)
  }

  /** The same entries, up to the field in which copies differ, and the same starts all the
      way down: only entries that start together can be in another order. */
  ghost predicate SameUpToTies(a: seq<Entry>, b: seq<Entry>) {
    && multiset(Mapped(CoreEntry, a)) == multiset(Mapped(CoreEntry, b))
    && Mapped(Began, a) == Mapped(Began, b)
  }

  ghost predicate SameRows(r: RunView, q: RunView) {
    r.runId == q.runId && Cores(r.prompts) == Cores(q.prompts) && Cores(r.draws) == Cores(q.draws)
  }

  lemma SameParents(r: RunView, q: RunView, calls: seq<RunningCall>)
    requires SameRows(r, q)
    ensures ParentIds(r, calls) == ParentIds(q, calls)
  {
    DrawRunsOfCores(r.draws, q.draws);
    DrawRunsOfCores(q.draws, r.draws);
    assert DrawRuns(r.draws) == DrawRuns(q.draws);
  }

  lemma DrawRunsOfCores(a: seq<Row>, b: seq<Row>)
    requires Cores(a) <= Cores(b)
    ensures DrawRuns(a) <= DrawRuns(b)
  {
    forall draw | draw in a ensures draw.runId in DrawRuns(b) {
      assert Core(draw) in Cores(b);
      var copy :| copy in b && Core(copy) == Core(draw);
      assert Core(copy).runId == copy.runId && Core(draw).runId == draw.runId;
    }
  }

  lemma CoresAre(w: World, r: RunView)
    requires RunOk(w, r)
    ensures multiset(Mapped(CoreEntry, Logs(AllRows(r))))
         == multiset(set row | row in Cores(AllRows(r)) :: Entry.Logged(row))
  {
    hide RunOk;
    var cores := Mapped(CoreEntry, Logs(AllRows(r)));
    forall i, j | 0 <= i < j < |cores| ensures cores[i] != cores[j] {
      IdsDiffer(w, r, i, j);
      assert Core(AllRows(r)[i]).id == AllRows(r)[i].id && Core(AllRows(r)[j]).id == AllRows(r)[j].id;
    }
    BagOfDistinct(cores);
    CoreMembers(AllRows(r));
  }

  lemma CoreMembers(rows: seq<Row>)
    ensures (set e | e in Mapped(CoreEntry, Logs(rows))) == set row | row in Cores(rows) :: Entry.Logged(row)
  {
    var cores := Mapped(CoreEntry, Logs(rows));
    forall row | row in rows ensures Entry.Logged(Core(row)) in cores {
      var k :| 0 <= k < |rows| && rows[k] == row;
      assert cores[k] == Entry.Logged(Core(row));
    }
    forall e | e in cores ensures e.Logged? && e.row in Cores(rows) {
      var k :| 0 <= k < |cores| && cores[k] == e;
      assert rows[k] in rows;
    }
  }

  lemma IdsDiffer(w: World, r: RunView, i: nat, j: nat)
    requires RunOk(w, r) && i < j < |AllRows(r)|
    ensures AllRows(r)[i].id != AllRows(r)[j].id
  {
    if i < |r.prompts| <= j {
      var p, draw := r.prompts[i], r.draws[j - |r.prompts|];
      assert p in r.prompts && draw in r.draws;
      assert Core(p).parent == p.parent && Core(draw).parent == draw.parent;
    }
  }

  lemma CoreListing(run: RunView, calls: seq<RunningCall>, tools: seq<RunningTool>, ids: set<RunId>)
    ensures Mapped(CoreEntry, Listing(run, calls, tools, ids))
         == Mapped(CoreEntry, Logs(AllRows(run))) + ListedCalls(run.runId, ids, calls) + ListedTools(ids, tools)
  {
    var callEntries, toolEntries := ListedCalls(run.runId, ids, calls), ListedTools(ids, tools);
    forall k | 0 <= k < |callEntries| ensures CoreEntry(callEntries[k]) == callEntries[k] {
      assert callEntries[k] in callEntries;
    }
    forall k | 0 <= k < |toolEntries| ensures CoreEntry(toolEntries[k]) == toolEntries[k] {
      assert toolEntries[k] in toolEntries;
    }
  }

  /** Two runs with the same rows, in whatever order, list the same up to ties. */
  lemma SameBodies(w: World, r: RunView, q: RunView, calls: seq<RunningCall>, tools: seq<RunningTool>,
      a: seq<Entry>, b: seq<Entry>)
    requires RunOk(w, r) && RunOk(w, q) && SameRows(r, q)
    requires IsBody(r, calls, tools, a) && IsBody(q, calls, tools, b)
    ensures SameUpToTies(a, b)
  {
    hide RunOk;
    CoresOfBody(w, r, calls, tools, a);
    CoresOfBody(w, q, calls, tools, b);
    SameParents(r, q, calls);
    CoresConcat(r.prompts, r.draws);
    CoresConcat(q.prompts, q.draws);
    assert multiset(Mapped(CoreEntry, a)) == multiset(Mapped(CoreEntry, b));
    SameStarts(a, b);
  }

  lemma CoresOfBody(w: World, r: RunView, calls: seq<RunningCall>, tools: seq<RunningTool>, a: seq<Entry>)
    requires RunOk(w, r) && IsBody(r, calls, tools, a)
    ensures var ids := ParentIds(r, calls);
            multiset(Mapped(CoreEntry, a))
            == multiset(set row | row in Cores(AllRows(r)) :: Entry.Logged(row))
             + multiset(ListedCalls(r.runId, ids, calls)) + multiset(ListedTools(ids, tools))
  {
    hide RunOk, Mapped, Cores;
    var ids := ParentIds(r, calls);
    MappedBag(CoreEntry, a, Listing(r, calls, tools, ids));
    CoreListing(r, calls, tools, ids);
    CoresAre(w, r);
  }

  lemma SameStarts(a: seq<Entry>, b: seq<Entry>)
    requires InStartOrder(a) && InStartOrder(b)
    requires multiset(Mapped(CoreEntry, a)) == multiset(Mapped(CoreEntry, b))
    ensures Mapped(Began, a) == Mapped(Began, b)
  {
    MappedBag(Began, Mapped(CoreEntry, a), Mapped(CoreEntry, b));
    StartsOfCores(a);
    StartsOfCores(b);
    OneAscendingList(Mapped(Began, a), Mapped(Began, b));
  }

  lemma StartsOfCores(a: seq<Entry>)
    ensures Mapped(Began, Mapped(CoreEntry, a)) == Mapped(Began, a)
  {
    forall k | 0 <= k < |a| ensures Began(CoreEntry(a[k])) == Began(a[k]) {
      assert a[k].Logged? ==>
          Core(a[k].row).endedAt == a[k].row.endedAt && Core(a[k].row).duration == a[k].row.duration;
    }
  }

  /** Any two streams that bring the same leave every run with the same list in its body,
      when no draw names a run that has started and not logged. */
  lemma BodiesDoNotDependOnOrder(w: World, a: seq<Message>, b: seq<Message>, r: RunView, q: RunView,
      calls: seq<RunningCall>, tools: seq<RunningTool>, first: seq<Entry>, second: seq<Entry>)
    requires Consistent(w, a) && Consistent(w, b) && Alike(a, b) && NamesNoShell(a)
    requires r in Play(a).runs && q in Play(b).runs && r.runId == q.runId
    requires IsBody(r, calls, tools, first) && IsBody(q, calls, tools, second)
    ensures SameUpToTies(first, second)
  {
    hide Inv, IsBody, SameUpToTies, RunOk;
    OrderDoesNotMatter(w, a, b);
    PlayKeeps(w, a);
    PlayKeeps(w, b);
    StructureOf(w, Play(a), Received(a));
    StructureOf(w, Play(b), Received(b));
    SameBodies(w, r, q, calls, tools, first, second);
  }
}
