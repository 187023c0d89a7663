/** Running placeholders: which host a running entry belongs to, what a run's body lists,
    and what a run's outcome sweeps away. */
module RunningForest {
  import opened Options
  import opened Filters
  import opened Rows
  import opened DrawNesting
  import opened RunLog
  import opened LogStructure

  datatype RunningCall = RunningCall(runId: RunId, parent: Option<RunId>, startedAt: int)
  datatype RunningTool = RunningTool(runId: RunId, toolCallId: CallId, startedAt: int)

  // ---------- the closure under running parents ----------

  ghost predicate StepClosed(ids: set<RunId>, calls: seq<RunningCall>) {
    forall c :: c in calls && c.parent.Some? && c.parent.value in ids ==> c.runId in ids
  }

  ghost function CallRuns(calls: seq<RunningCall>): set<RunId> {
    set c | c in calls :: c.runId
  }

  /** The least set that contains `start` and, with a parent, every call running under it. */
  ghost function Closure(start: set<RunId>, calls: seq<RunningCall>): set<RunId> {
    set x | x in start + CallRuns(calls)
        && forall ids: set<RunId> :: start <= ids && StepClosed(ids, calls) ==> x in ids
  }

  lemma ClosureIsLeast(start: set<RunId>, calls: seq<RunningCall>)
    ensures start <= Closure(start, calls) && StepClosed(Closure(start, calls), calls)
    ensures forall ids: set<RunId> :: start <= ids && StepClosed(ids, calls) ==> Closure(start, calls) <= ids
  {
  }

  /** The fixpoint loop that both `runningRunIdClosure` and `flatRunEntries` run. */
  method CloseOver(start: set<RunId>, calls: seq<RunningCall>) returns (ids: set<RunId>)
    ensures ids == Closure(start, calls)
  {
    ids := start;
    var added := true;
    while added
      invariant start <= ids <= start + CallRuns(calls)
      invariant forall other: set<RunId> :: start <= other && StepClosed(other, calls) ==> ids <= other
      invariant !added ==> StepClosed(ids, calls)
      decreases start + CallRuns(calls) - ids, added
    {
      added := false;
      ghost var before := ids;
      for i := 0 to |calls|
        invariant before <= ids <= start + CallRuns(calls)
        invariant forall other: set<RunId> :: start <= other && StepClosed(other, calls) ==> ids <= other
        invariant added <==> ids != before
        invariant !added ==> forall k ::
                0 <= k < i && calls[k].parent.Some? && calls[k].parent.value in ids ==> calls[k].runId in ids
      {
        var call := calls[i];
        assert call in calls && call.runId in CallRuns(calls);
        if call.parent.Some? && call.parent.value in ids && call.runId !in ids {
          ids := ids + {call.runId};
          added := true;
        }
      }
    }
    ClosureIsLeast(start, calls);
  }

  // ---------- dropping placeholders ----------

  function DropCalls(calls: seq<RunningCall>, ids: set<RunId>): (kept: seq<RunningCall>)
    ensures forall c :: c in kept <==> c in calls && c.runId !in ids
  {
    if calls == [] then []
    else
      assert calls == [calls[0]] + calls[1..];
      (if calls[0].runId in ids then [] else [calls[0]]) + DropCalls(calls[1..], ids)
  }

  function DropTools(tools: seq<RunningTool>, ids: set<RunId>): (kept: seq<RunningTool>)
    ensures forall t :: t in kept <==> t in tools && t.runId !in ids
  {
    if tools == [] then []
    else
      assert tools == [tools[0]] + tools[1..];
      (if tools[0].runId in ids then [] else [tools[0]]) + DropTools(tools[1..], ids)
  }

  /** All others stay, in their order and as often as before. */
  lemma {:induction false} DropCallsFilters(calls: seq<RunningCall>, ids: set<RunId>)
    ensures DropCalls(calls, ids) == Filtered((c: RunningCall) => c.runId !in ids, calls)
  {
    if calls != [] {
      FilteredCons((c: RunningCall) => c.runId !in ids, calls[0], calls[1..]);
      assert calls == [calls[0]] + calls[1..];
      DropCallsFilters(calls[1..], ids);
    }
  }

  lemma {:induction false} DropToolsFilters(tools: seq<RunningTool>, ids: set<RunId>)
    ensures DropTools(tools, ids) == Filtered((t: RunningTool) => t.runId !in ids, tools)
  {
    if tools != [] {
      FilteredCons((t: RunningTool) => t.runId !in ids, tools[0], tools[1..]);
      assert tools == [tools[0]] + tools[1..];
      DropToolsFilters(tools[1..], ids);
    }
  }

  /** Running tools without the one call of one run that finished. */
  function WithoutTool(tools: seq<RunningTool>, x: RunId, call: CallId): (kept: seq<RunningTool>)
    ensures forall t :: t in kept <==> t in tools && !(t.runId == x && t.toolCallId == call)
  {
    if tools == [] then []
    else
      assert tools == [tools[0]] + tools[1..];
      (if tools[0].runId == x && tools[0].toolCallId == call then [] else [tools[0]]) + WithoutTool(tools[1..], x, call)
  }

  /** The tools that stay keep their order. */
  lemma {:induction false} WithoutToolConcat(a: seq<RunningTool>, b: seq<RunningTool>, x: RunId, call: CallId)
    ensures WithoutTool(a + b, x, call) == WithoutTool(a, x, call) + WithoutTool(b, x, call)
  {
    if a == [] {
      assert a + b == b;
    } else {
      hide WithoutTool;
      var first, rest := a[0], a[1..];
      assert a == [first] + rest;
      Regroup([first], rest, b);
      WithoutToolConcat(rest, b, x, call);
      WithoutToolCons(first, rest, x, call);
      WithoutToolCons(first, rest + b, x, call);
      var kept := if first.runId == x && first.toolCallId == call then [] else [first];
      Regroup(kept, WithoutTool(rest, x, call), WithoutTool(b, x, call));
    }
  }

  lemma WithoutToolCons(first: RunningTool, rest: seq<RunningTool>, x: RunId, call: CallId)
    ensures WithoutTool([first] + rest, x, call)
            == (if first.runId == x && first.toolCallId == call then [] else [first]) + WithoutTool(rest, x, call)
  {
    assert ([first] + rest)[1..] == rest;
  }

  /** A tool that starts and finishes leaves the list as it was, whatever starts and stays
      in between. */
  lemma FinishUndoesStart(before: seq<RunningTool>, tool: RunningTool, after: seq<RunningTool>)
    requires forall t :: t in before + after ==> !(t.runId == tool.runId && t.toolCallId == tool.toolCallId)
    ensures WithoutTool(before + [tool] + after, tool.runId, tool.toolCallId) == before + after
  {
    hide WithoutTool;
    var x, call := tool.runId, tool.toolCallId;
    assert before + [tool] + after == before + ([tool] + after);
    WithoutToolConcat(before, [tool] + after, x, call);
    WithoutToolCons(tool, after, x, call);
    NothingFinished(before, x, call);
    NothingFinished(after, x, call);
  }

  lemma {:induction false} NothingFinished(tools: seq<RunningTool>, x: RunId, call: CallId)
    requires forall t :: t in tools ==> !(t.runId == x && t.toolCallId == call)
    ensures WithoutTool(tools, x, call) == tools
  {
    if tools != [] {
      NothingFinished(tools[1..], x, call);
      assert tools == [tools[0]] + tools[1..];
    }
  }

  // ---------- which host a running entry belongs to ----------

  ghost function DrawRuns(draws: seq<Row>): set<RunId> {
    set draw | draw in draws :: draw.runId
  }

  /** The ids that can name a parent in a run's body. */
  ghost function ParentIds(run: RunView, calls: seq<RunningCall>): set<RunId> {
    Closure({run.runId} + DrawRuns(run.draws), calls)
  }

  function FindCall(calls: seq<RunningCall>, x: RunId): (i: int)
    ensures -1 <= i < |calls|
    ensures i >= 0 ==> calls[i].runId == x && forall k :: 0 <= k < i ==> calls[k].runId != x
    ensures i == -1 ==> forall c :: c in calls ==> c.runId != x
  {
    if calls == [] then -1
    else if calls[0].runId == x then 0
    else
      assert calls == [calls[0]] + calls[1..];
      var i := FindCall(calls[1..], x);
      if i == -1 then -1 else i + 1
  }

  /** Where a climb goes on from `x`: nowhere once `x` is on screen, nor when no running
      call of `x` names a parent. */
  function Above(runs: seq<RunView>, calls: seq<RunningCall>, x: RunId): Option<RunId> {
    var i := FindCall(calls, x);
    if FindContainer(runs, x).Some? || i == -1 then None else calls[i].parent
  }

  /** The climb from `x` ends after at most `n` steps. */
  ghost predicate Ends(runs: seq<RunView>, calls: seq<RunningCall>, x: RunId, n: nat)
    decreases n
  {
    var up := Above(runs, calls, x);
    up == None || (n > 0 && Ends(runs, calls, up.value, n - 1))
  }

  /** `findHostFor`: the run that shows `x`, or the host of `x`'s running parent. */
  ghost function HostFor(runs: seq<RunView>, calls: seq<RunningCall>, x: RunId, n: nat): Option<nat>
    requires Ends(runs, calls, x, n)
    decreases n
  {
    var found, up := FindContainer(runs, x), Above(runs, calls, x);
    if found.Some? then Some(found.value.index)
    else if up.Some? then HostFor(runs, calls, up.value, n - 1)
    else None
  }

  /** The climb from `x` ends at the run at this position. */
  ghost predicate Reaches(runs: seq<RunView>, calls: seq<RunningCall>, x: RunId, i: nat) {
    exists n: nat :: Ends(runs, calls, x, n) && HostFor(runs, calls, x, n) == Some(i)
  }

  lemma {:induction false} HostForAny(runs: seq<RunView>, calls: seq<RunningCall>, x: RunId, n: nat, m: nat)
    requires Ends(runs, calls, x, n) && Ends(runs, calls, x, m)
    ensures HostFor(runs, calls, x, n) == HostFor(runs, calls, x, m)
    decreases n
  {
    var up := Above(runs, calls, x);
    if up.Some? {
      HostForAny(runs, calls, up.value, n - 1, m - 1);
    }
  }

  // ---------- when a climb ends ----------

  /** The id that a climb from `x` is at after `k` steps. */
  ghost function Visited(runs: seq<RunView>, calls: seq<RunningCall>, x: RunId, k: nat): Option<RunId> {
    if k == 0 then Some(x)
    else
      var before := Visited(runs, calls, x, k - 1);
      if before == None then None else Above(runs, calls, before.value)
  }

  ghost predicate NoIdTwice(runs: seq<RunView>, calls: seq<RunningCall>, x: RunId) {
    forall i: nat, j: nat :: i < j && Visited(runs, calls, x, j).Some? ==>
      Visited(runs, calls, x, i) != Visited(runs, calls, x, j)
  }

  lemma {:induction false} VisitedFrom(runs: seq<RunView>, calls: seq<RunningCall>, x: RunId, i: nat, k: nat)
    requires Visited(runs, calls, x, i).Some?
    ensures Visited(runs, calls, x, i + k) == Visited(runs, calls, Visited(runs, calls, x, i).value, k)
  {
    if k > 0 {
      VisitedFrom(runs, calls, x, i, k - 1);
    }
  }

  lemma {:induction false} StillEnds(runs: seq<RunView>, calls: seq<RunningCall>, x: RunId, n: nat, k: nat)
    requires Ends(runs, calls, x, n) && Visited(runs, calls, x, k).Some?
    ensures k <= n && Ends(runs, calls, Visited(runs, calls, x, k).value, n - k)
  {
    if k > 0 {
      StillEnds(runs, calls, x, n, k - 1);
    }
  }

  /** A climb that comes back to where it was never ends. */
  lemma {:induction false} CircleNeverEnds(runs: seq<RunView>, calls: seq<RunningCall>, x: RunId, n: nat, k: nat)
    requires k > 0 && Visited(runs, calls, x, k) == Some(x)
    ensures !Ends(runs, calls, x, n)
  {
    if Ends(runs, calls, x, n) {
      StillEnds(runs, calls, x, n, k);
      CircleNeverEnds(runs, calls, x, n - k, k);
    }
  }

  lemma {:induction false} KeepsClimbing(runs: seq<RunView>, calls: seq<RunningCall>, x: RunId, n: nat)
    requires !Ends(runs, calls, x, n)
    ensures forall k: nat :: k <= n ==>
              Visited(runs, calls, x, k).Some? && Visited(runs, calls, x, k).value in CallRuns(calls)
    decreases n
  {
    var up := Above(runs, calls, x);
    assert calls[FindCall(calls, x)] in calls;
    forall k: nat | k <= n ensures Visited(runs, calls, x, k).Some?
        && Visited(runs, calls, x, k).value in CallRuns(calls) {
      if k > 0 {
        KeepsClimbing(runs, calls, up.value, n - 1);
        assert Visited(runs, calls, x, 1) == up by {
          assert Visited(runs, calls, x, 0) == Some(x);
        }
        VisitedFrom(runs, calls, x, 1, k - 1);
      }
    }
  }

  lemma {:induction false} FewCallRuns(calls: seq<RunningCall>)
    ensures |CallRuns(calls)| <= |calls|
  {
    if calls != [] {
      FewCallRuns(calls[1..]);
      assert CallRuns(calls) == {calls[0].runId} + CallRuns(calls[1..]) by {
        assert calls == [calls[0]] + calls[1..];
      }
    }
  }

  /** The ids of the first `n` steps. */
  ghost function VisitedIds(runs: seq<RunView>, calls: seq<RunningCall>, x: RunId, n: nat): set<RunId> {
    if n == 0 then {}
    else VisitedIds(runs, calls, x, n - 1) +
         if Visited(runs, calls, x, n - 1).Some? then {Visited(runs, calls, x, n - 1).value} else {}
  }

  lemma {:induction false} NotVisitedBefore(runs: seq<RunView>, calls: seq<RunningCall>, x: RunId, n: nat, m: nat)
    requires NoIdTwice(runs, calls, x) && n <= m && Visited(runs, calls, x, m).Some?
    ensures Visited(runs, calls, x, m).value !in VisitedIds(runs, calls, x, n)
  {
    if n > 0 {
      NotVisitedBefore(runs, calls, x, n - 1, m);
    }
  }

  lemma {:induction false} VisitedCount(runs: seq<RunView>, calls: seq<RunningCall>, x: RunId, n: nat, all: set<RunId>)
    requires NoIdTwice(runs, calls, x)
    requires forall k: nat :: k < n ==> Visited(runs, calls, x, k).Some? && Visited(runs, calls, x, k).value in all
    ensures |VisitedIds(runs, calls, x, n)| == n && VisitedIds(runs, calls, x, n) <= all
  {
    if n > 0 {
      VisitedCount(runs, calls, x, n - 1, all);
      NotVisitedBefore(runs, calls, x, n - 1, n - 1);
    }
  }

  lemma {:induction false} SubsetSize<T>(a: set<T>, b: set<T>)
    requires a <= b
    ensures |a| <= |b|
  {
    if a != {} {
      var t :| t in a;
      SubsetSize(a - {t}, b - {t});
    }
  }

  lemma EndsInTime(runs: seq<RunView>, calls: seq<RunningCall>, x: RunId)
    requires NoIdTwice(runs, calls, x)
    ensures Ends(runs, calls, x, |calls|)
  {
    if !Ends(runs, calls, x, |calls|) {
      KeepsClimbing(runs, calls, x, |calls|);
      VisitedCount(runs, calls, x, |calls| + 1, CallRuns(calls));
      FewCallRuns(calls);
      SubsetSize(VisitedIds(runs, calls, x, |calls| + 1), CallRuns(calls));
    }
  }

  lemma TwiceNeverEnds(runs: seq<RunView>, calls: seq<RunningCall>, x: RunId, n: nat, i: nat, j: nat)
    requires i < j && Visited(runs, calls, x, j).Some? && Visited(runs, calls, x, i) == Visited(runs, calls, x, j)
    ensures !Ends(runs, calls, x, n)
  {
    hide Ends, Visited, Above;
    VisitedFrom(runs, calls, x, i, j - i);
    if Ends(runs, calls, x, n) {
      StillEnds(runs, calls, x, n, i);
      CircleNeverEnds(runs, calls, Visited(runs, calls, x, i).value, n - i, j - i);
    }
  }

  /** The climb ends exactly when it visits no id twice, and then in as many steps as there
      are running calls. */
  lemma ClimbEndsExactly(runs: seq<RunView>, calls: seq<RunningCall>, x: RunId)
    ensures (exists n: nat :: Ends(runs, calls, x, n)) <==> NoIdTwice(runs, calls, x)
    ensures NoIdTwice(runs, calls, x) ==> Ends(runs, calls, x, |calls|)
  {
    hide Ends, Visited;
    if NoIdTwice(runs, calls, x) {
      EndsInTime(runs, calls, x);
      var n: nat := |calls|;
      assert Ends(runs, calls, x, n);
    } else {
      var i: nat, j: nat :|
        i < j && Visited(runs, calls, x, j).Some? && Visited(runs, calls, x, i) == Visited(runs, calls, x, j);
      forall n: nat ensures !Ends(runs, calls, x, n) {
        TwiceNeverEnds(runs, calls, x, n, i, j);
      }
    }
  }

  // ---------- climbing up and closing down ----------

  ghost predicate CallsFollow(w: World, calls: seq<RunningCall>) {
    forall c :: c in calls ==> c.parent == w.parentOf(c.runId)
  }

  lemma HostOnScreen(w: World, runs: seq<RunView>, run: RunView, x: RunId)
    requires Structure(w, runs) && run in runs && (x == run.runId || x in DrawRuns(run.draws))
    ensures FindContainer(runs, x).Some? && runs[FindContainer(runs, x).value.index] == run
  {
    FindContainerSome(w, runs, x);
    if x == run.runId {
      assert x in Hosts(runs);
    } else {
      var draw :| draw in run.draws && draw.runId == x;
      ShownAt(runs, run, draw);
      assert Core(draw).runId == x;
    }
    ContainerIsHost(w, runs, run, x);
  }

  lemma ContainerIsHost(w: World, runs: seq<RunView>, run: RunView, x: RunId)
    requires Structure(w, runs) && run in runs && (x == run.runId || x in DrawRuns(run.draws))
    requires FindContainer(runs, x).Some?
    ensures runs[FindContainer(runs, x).value.index] == run
  {
    hide Bookkept, Linked;
    var c := FindContainer(runs, x).value;
    var found := runs[c.index];
    assert found in runs;
    UnderSelf(w, run.runId);
    UnderSelf(w, found.runId);
    if found.runId != x {
      assert c.rows[0] in found.draws;
    }
    OneHost(w, x, run.runId, found.runId);
  }

  lemma FoundInBase(w: World, runs: seq<RunView>, x: RunId)
    requires Structure(w, runs) && FindContainer(runs, x).Some?
    ensures var run := runs[FindContainer(runs, x).value.index];
            x == run.runId || x in DrawRuns(run.draws)
  {
    var c := FindContainer(runs, x).value;
    if runs[c.index].runId != x {
      assert c.rows[0] in runs[c.index].draws;
    }
  }

  /** Climbing up from an entry finds a host only if closing down from it finds the entry. */
  lemma {:induction false} ClimbThenClose(
      w: World, runs: seq<RunView>, calls: seq<RunningCall>, x: RunId, n: nat, i: nat)
    requires Structure(w, runs) && Ends(runs, calls, x, n) && HostFor(runs, calls, x, n) == Some(i)
    ensures i < |runs| && x in ParentIds(runs[i], calls)
    decreases n
  {
    if FindContainer(runs, x).Some? {
      FoundInBase(w, runs, x);
    } else {
      var call := calls[FindCall(calls, x)];
      assert call in calls;
      ClimbThenClose(w, runs, calls, call.parent.value, n - 1, i);
      ClosureIsLeast({runs[i].runId} + DrawRuns(runs[i].draws), calls);
    }
  }

  /** The host of a running call is the host of its parent. */
  lemma HostOfCall(w: World, runs: seq<RunView>, calls: seq<RunningCall>, call: RunningCall, i: nat)
    requires Structure(w, runs) && CallsFollow(w, calls)
    requires call in calls && call.parent.Some? && Reaches(runs, calls, call.parent.value, i)
    ensures Reaches(runs, calls, call.runId, i)
  {
    var found := FindContainer(runs, call.runId);
    var n: nat :| Ends(runs, calls, call.parent.value, n) && HostFor(runs, calls, call.parent.value, n) == Some(i);
    if found.Some? {
      ShownCall(w, runs, call.runId, call.parent.value);
      assert Ends(runs, calls, call.runId, 0);
    } else {
      var k := FindCall(calls, call.runId);
      assert calls[k] in calls && calls[k].parent == call.parent;
      assert Ends(runs, calls, call.runId, n + 1);
    }
  }

  /** A draw on screen has its parent on screen in the same run. */
  lemma ShownCall(w: World, runs: seq<RunView>, x: RunId, parent: RunId)
    requires Structure(w, runs) && FindContainer(runs, x).Some? && w.parentOf(x) == Some(parent)
    ensures FindContainer(runs, parent).Some?
    ensures FindContainer(runs, parent).value.index == FindContainer(runs, x).value.index
  {
    var found := FindContainer(runs, x).value;
    var run := runs[found.index];
    assert run in runs;
    FoundInBase(w, runs, x);
    var draw :| draw in run.draws && draw.runId == x;
    if draw.parent.value != run.runId {
      var up :| up in run.draws && up.runId == draw.parent.value;
    }
    HostOnScreen(w, runs, run, parent);
    DistinctIndex(runs, found.index, FindContainer(runs, parent).value.index);
  }

  lemma DistinctIndex(runs: seq<RunView>, i: nat, j: nat)
    requires DistinctRuns(runs) && i < |runs| && j < |runs| && runs[i] == runs[j]
    ensures i == j
  {
  }

  lemma CloseThenClimb(w: World, runs: seq<RunView>, calls: seq<RunningCall>, x: RunId, i: nat)
    requires Structure(w, runs) && CallsFollow(w, calls)
    requires i < |runs| && x in ParentIds(runs[i], calls)
    ensures Reaches(runs, calls, x, i)
  {
    var start := {runs[i].runId} + DrawRuns(runs[i].draws);
    var ids := HostedBy(runs, calls, start, i);
    assert start <= ids by {
      forall y | y in start ensures y in ids {
        BaseHosted(w, runs, calls, i, y);
      }
    }
    assert StepClosed(ids, calls) by {
      forall c | c in calls && c.parent.Some? && c.parent.value in ids ensures c.runId in ids {
        HostOfCall(w, runs, calls, c, i);
      }
    }
    ClosureIsLeast(start, calls);
  }

  ghost function HostedBy(runs: seq<RunView>, calls: seq<RunningCall>, start: set<RunId>, i: nat): set<RunId> {
    set y | y in start + CallRuns(calls) && Reaches(runs, calls, y, i)
  }

  lemma BaseHosted(w: World, runs: seq<RunView>, calls: seq<RunningCall>, i: nat, y: RunId)
    requires Structure(w, runs) && i < |runs| && y in {runs[i].runId} + DrawRuns(runs[i].draws)
    ensures Reaches(runs, calls, y, i)
  {
    assert runs[i] in runs;
    HostOnScreen(w, runs, runs[i], y);
    DistinctIndex(runs, i, FindContainer(runs, y).value.index);
    assert Ends(runs, calls, y, 0);
  }

  lemma OneReach(runs: seq<RunView>, calls: seq<RunningCall>, x: RunId, i: nat, j: nat)
    requires Reaches(runs, calls, x, i) && Reaches(runs, calls, x, j)
    ensures i == j
  {
    var n: nat :| Ends(runs, calls, x, n) && HostFor(runs, calls, x, n) == Some(i);
    var m: nat :| Ends(runs, calls, x, m) && HostFor(runs, calls, x, m) == Some(j);
    HostForAny(runs, calls, x, n, m);
  }

  /** Climbing up and closing down agree, circles or not, and no entry belongs to two hosts. */
  lemma ClimbIsClosure(w: World, runs: seq<RunView>, calls: seq<RunningCall>, x: RunId, i: nat)
    requires Structure(w, runs) && CallsFollow(w, calls) && i < |runs|
    ensures Reaches(runs, calls, x, i) <==> x in ParentIds(runs[i], calls)
    ensures forall j :: 0 <= j < |runs| && j != i ==> ParentIds(runs[i], calls) !! ParentIds(runs[j], calls)
  {
    if Reaches(runs, calls, x, i) {
      var n: nat :| Ends(runs, calls, x, n) && HostFor(runs, calls, x, n) == Some(i);
      ClimbThenClose(w, runs, calls, x, n, i);
    }
    if x in ParentIds(runs[i], calls) {
      CloseThenClimb(w, runs, calls, x, i);
    }
    forall j, y | 0 <= j < |runs| && y in ParentIds(runs[i], calls) && y in ParentIds(runs[j], calls) ensures i == j {
      CloseThenClimb(w, runs, calls, y, i);
      CloseThenClimb(w, runs, calls, y, j);
      OneReach(runs, calls, y, i, j);
    }
  }

  // ---------- the sweep of a run's outcome ----------

  /** What `flatRunEntries` lists of the running calls of a host. */
  ghost predicate Admits(host: RunId, ids: set<RunId>, call: RunningCall) {
    if call.parent == None then call.runId == host else call.parent.value in ids
  }

  /** After its outcome, a run still lists exactly the running entries that hang off a
      logged draw outside the closure that was swept. */
  lemma SweepExact(host: RunId, drawRuns: set<RunId>, calls: seq<RunningCall>)
    ensures var swept := Closure({host}, calls);
            var kept := DropCalls(calls, swept);
            var listed := Closure({host} + drawRuns, kept);
            var stray := Closure(drawRuns - swept, kept);
            && (forall c :: c in kept ==> c.runId !in swept)
            && (forall c :: c in kept ==> (Admits(host, listed, c) <==> c.parent.Some? && c.parent.value in stray))
            && (forall x :: x !in swept ==> (x in listed <==> x in stray))
  {
    var swept := Closure({host}, calls);
    var kept := DropCalls(calls, swept);
    var listed := Closure({host} + drawRuns, kept);
    var stray := Closure(drawRuns - swept, kept);
    ClosureIsLeast({host}, calls);
    ClosureIsLeast({host} + drawRuns, kept);
    ClosureIsLeast(drawRuns - swept, kept);
    StrayIsListed(host, drawRuns, calls);
    ListedIsSweptOrStray(host, drawRuns, calls);
  }

  lemma StrayIsListed(host: RunId, drawRuns: set<RunId>, calls: seq<RunningCall>)
    ensures var swept := Closure({host}, calls);
            var kept := DropCalls(calls, swept);
            Closure(drawRuns - swept, kept) <= Closure({host} + drawRuns, kept)
  {
  }

  lemma ListedIsSweptOrStray(host: RunId, drawRuns: set<RunId>, calls: seq<RunningCall>)
    ensures var swept := Closure({host}, calls);
            var kept := DropCalls(calls, swept);
            Closure({host} + drawRuns, kept) <= swept + Closure(drawRuns - swept, kept)
  {
    var swept := Closure({host}, calls);
    var kept := DropCalls(calls, swept);
    var either := swept + Closure(drawRuns - swept, kept);
    ClosureIsLeast({host}, calls);
    ClosureIsLeast(drawRuns - swept, kept);
    ClosureIsLeast({host} + drawRuns, kept);
    assert StepClosed(either, kept) && {host} + drawRuns <= either;
  }

  /** Nothing is spinning in the run's body: it lists no running call and no running tool. */
  ghost predicate Quiet(run: RunView, calls: seq<RunningCall>, tools: seq<RunningTool>) {
    && (forall c :: c in calls ==> !Admits(run.runId, ParentIds(run, calls), c))
    && (forall t :: t in tools ==> t.runId !in ParentIds(run, calls))
  }

  /** Some running call that is not below the run itself is a child of one of its logged
      draws, or some running tool is such a draw's. */
  ghost predicate HasStray(run: RunView, calls: seq<RunningCall>, tools: seq<RunningTool>) {
    var swept := Closure({run.runId}, calls);
    || (exists c :: c in calls && c.runId !in swept && c.parent.Some? && c.parent.value in DrawRuns(run.draws) - swept)
    || (exists t :: t in tools && t.runId in DrawRuns(run.draws) - swept)
  }

  /** So after the sweep nothing is left spinning exactly when there was no such entry. */
  lemma NothingLeftExactly(run: RunView, calls: seq<RunningCall>, tools: seq<RunningTool>)
    ensures var swept := Closure({run.runId}, calls);
            Quiet(run, DropCalls(calls, swept), DropTools(tools, swept)) <==> !HasStray(run, calls, tools)
  {
    var swept := Closure({run.runId}, calls);
    var kept := DropCalls(calls, swept);
    var roots := DrawRuns(run.draws) - swept;
    SweepExact(run.runId, DrawRuns(run.draws), calls);
    ClosureIsLeast(roots, kept);
    if !HasStray(run, calls, tools) {
      assert StepClosed(roots, kept);
    }
  }

  /** And something can be left: a call under a logged draw survives its run's outcome. */
  lemma StraySurvives(host: RunId, draw: RunId, nested: RunId)
    requires host != draw && host != nested
    ensures var call := RunningCall(nested, Some(draw), 0);
            var swept := Closure({host}, [call]);
            && call in DropCalls([call], swept)
            && Admits(host, Closure({host} + {draw}, DropCalls([call], swept)), call)
  {
    var call := RunningCall(nested, Some(draw), 0);
    ClosureIsLeast({host}, [call]);
    assert StepClosed({host}, [call]);
    ClosureIsLeast({host} + {draw}, DropCalls([call], Closure({host}, [call])));
    assert call in [call];
  }

  // ---------- the flat list of a run's body ----------

  datatype Entry = Logged(row: Row) | Calling(call: RunningCall) | Tooling(tool: RunningTool)

  function EntryStart(e: Entry): int {
    match e
    case Logged(row) => StartedAt(row)
    case Calling(call) => call.startedAt
    case Tooling(tool) => tool.startedAt
  }

  /** When the row, call or tool of an entry began. */
  ghost function Began(e: Entry): int {
    match e
    case Logged(row) => row.endedAt - row.duration
    case Calling(call) => call.startedAt
    case Tooling(tool) => tool.startedAt
  }

  function Logs(rows: seq<Row>): seq<Entry> {
    seq(|rows|, i requires 0 <= i < |rows| => Logged(rows[i]))
  }

  function ListedCalls(host: RunId, ids: set<RunId>, calls: seq<RunningCall>): (listed: seq<Entry>)
    ensures forall e :: e in listed <==> e.Calling? && e.call in calls && Admits(host, ids, e.call)
  {
    if calls == [] then []
    else
      var call := calls[0];
      var admitted := if call.parent == None then call.runId == host else call.parent.value in ids;
      assert calls == [calls[0]] + calls[1..];
      (if admitted then [Calling(call)] else []) + ListedCalls(host, ids, calls[1..])
  }

  function ListedTools(ids: set<RunId>, tools: seq<RunningTool>): (listed: seq<Entry>)
    ensures forall e :: e in listed <==> e.Tooling? && e.tool in tools && e.tool.runId in ids
  {
    if tools == [] then []
    else
      assert tools == [tools[0]] + tools[1..];
      (if tools[0].runId in ids then [Tooling(tools[0])] else []) + ListedTools(ids, tools[1..])
  }

  ghost function CallEntries(calls: seq<RunningCall>): seq<Entry> {
    seq(|calls|, i requires 0 <= i < |calls| => Calling(calls[i]))
  }

  ghost function ToolEntries(tools: seq<RunningTool>): seq<Entry> {
    seq(|tools|, i requires 0 <= i < |tools| => Tooling(tools[i]))
  }

  /** A body lists the running calls that its run admits, each as often as it runs. */
  lemma {:induction false} ListedCallsFilter(host: RunId, ids: set<RunId>, calls: seq<RunningCall>)
    ensures ListedCalls(host, ids, calls) == CallEntries(Filtered((c: RunningCall) => Admits(host, ids, c), calls))
  {
    if calls != [] {
      var keep := (c: RunningCall) => Admits(host, ids, c);
      var c, rest := calls[0], calls[1..];
      assert calls == [c] + rest;
      ListedCallsFilter(host, ids, rest);
      hide Filtered, CallEntries;
      FilteredCons(keep, c, rest);
      CallEntriesCons(c, Filtered(keep, rest));
    }
  }

  lemma CallEntriesCons(c: RunningCall, rest: seq<RunningCall>)
    ensures CallEntries([c] + rest) == [Calling(c)] + CallEntries(rest) && CallEntries([] + rest) == CallEntries(rest)
  {
    assert [] + rest == rest;
  }

  lemma {:induction false} ListedToolsFilter(ids: set<RunId>, tools: seq<RunningTool>)
    ensures ListedTools(ids, tools) == ToolEntries(Filtered((t: RunningTool) => t.runId in ids, tools))
  {
    if tools != [] {
      var keep := (t: RunningTool) => t.runId in ids;
      var t, rest := tools[0], tools[1..];
      assert tools == [t] + rest;
      ListedToolsFilter(ids, rest);
      hide Filtered, ToolEntries;
      FilteredCons(keep, t, rest);
      ToolEntriesCons(t, Filtered(keep, rest));
    }
  }

  lemma ToolEntriesCons(t: RunningTool, rest: seq<RunningTool>)
    ensures ToolEntries([t] + rest) == [Tooling(t)] + ToolEntries(rest) && ToolEntries([] + rest) == ToolEntries(rest)
  {
    assert [] + rest == rest;
  }

  lemma {:induction false} CallEntriesCount(calls: seq<RunningCall>, c: RunningCall)
    ensures multiset(CallEntries(calls))[Calling(c)] == multiset(calls)[c]
  {
    if calls != [] {
      CallEntriesCount(calls[1..], c);
      assert calls == [calls[0]] + calls[1..];
      assert CallEntries(calls) == [Calling(calls[0])] + CallEntries(calls[1..]);
    }
  }

  lemma {:induction false} ToolEntriesCount(tools: seq<RunningTool>, t: RunningTool)
    ensures multiset(ToolEntries(tools))[Tooling(t)] == multiset(tools)[t]
  {
    if tools != [] {
      ToolEntriesCount(tools[1..], t);
      assert tools == [tools[0]] + tools[1..];
      assert ToolEntries(tools) == [Tooling(tools[0])] + ToolEntries(tools[1..]);
    }
  }

  lemma {:induction false} LogsCount(rows: seq<Row>, row: Row)
    ensures multiset(Logs(rows))[Logged(row)] == multiset(rows)[row]
  {
    if rows != [] {
      LogsCount(rows[1..], row);
      assert rows == [rows[0]] + rows[1..];
      assert Logs(rows) == [Logged(rows[0])] + Logs(rows[1..]);
    }
  }

  /** The library's stable sort: an entry goes before the first one that starts later. */
  function Insert(e: Entry, sorted: seq<Entry>): seq<Entry> {
    if sorted == [] || EntryStart(sorted[|sorted| - 1]) <= EntryStart(e) then sorted + [e]
    else Insert(e, sorted[..|sorted| - 1]) + [sorted[|sorted| - 1]]
  }

  function SortByStart(entries: seq<Entry>): seq<Entry> {
    if entries == [] then []
    else Insert(entries[|entries| - 1], SortByStart(entries[..|entries| - 1]))
  }

  ghost predicate InStartOrder(entries: seq<Entry>) {
    forall i, j :: 0 <= i < j < |entries| ==> Began(entries[i]) <= Began(entries[j])
  }

  lemma {:induction false} InsertContents(e: Entry, sorted: seq<Entry>)
    ensures multiset(Insert(e, sorted)) == multiset(sorted) + multiset{e}
  {
    if sorted != [] && EntryStart(sorted[|sorted| - 1]) > EntryStart(e) {
      assert sorted == sorted[..|sorted| - 1] + [sorted[|sorted| - 1]];
      InsertContents(e, sorted[..|sorted| - 1]);
    }
  }

  lemma {:induction false} InsertSorted(e: Entry, sorted: seq<Entry>)
    requires InStartOrder(sorted)
    ensures InStartOrder(Insert(e, sorted))
  {
    if sorted == [] || EntryStart(sorted[|sorted| - 1]) <= EntryStart(e) {
    } else {
      var front, last := sorted[..|sorted| - 1], sorted[|sorted| - 1];
      InsertSorted(e, front);
      forall f | f in Insert(e, front) ensures Began(f) <= Began(last) {
        InsertMember(e, front, f);
        if f != e {
          var k :| 0 <= k < |front| && front[k] == f;
          assert sorted[k] == f;
        }
      }
      AppendSorted(Insert(e, front), last);
    }
  }

  lemma InsertMember(e: Entry, sorted: seq<Entry>, f: Entry)
    requires f in Insert(e, sorted)
    ensures f == e || f in sorted
  {
    InsertContents(e, sorted);
    assert f in multiset(Insert(e, sorted));
  }

  lemma AppendSorted(sorted: seq<Entry>, last: Entry)
    requires InStartOrder(sorted) && forall f :: f in sorted ==> Began(f) <= Began(last)
    ensures InStartOrder(sorted + [last])
  {
  }

  lemma {:induction false} SortIsSorted(entries: seq<Entry>)
    ensures InStartOrder(SortByStart(entries)) && multiset(SortByStart(entries)) == multiset(entries)
  {
    if entries != [] {
      var front, last := entries[..|entries| - 1], entries[|entries| - 1];
      assert entries == front + [last];
      SortIsSorted(front);
      InsertSorted(last, SortByStart(front));
      InsertContents(last, SortByStart(front));
    }
  }

  /** The entries that begin at one moment. */
  ghost function Ties(entries: seq<Entry>, at: int): seq<Entry> {
    Filtered((e: Entry) => Began(e) == at, entries)
  }

  lemma TiesSnoc(front: seq<Entry>, e: Entry, at: int)
    ensures Ties(front + [e], at) == Ties(front, at) + if Began(e) == at then [e] else []
  {
    assert (front + [e])[..|front|] == front;
    assert Ties(front, at) + [] == Ties(front, at);
  }

  /** Inserting an entry puts it behind those that begin with it. */
  lemma {:induction false} InsertTies(e: Entry, sorted: seq<Entry>, at: int)
    requires InStartOrder(sorted)
    ensures Ties(Insert(e, sorted), at) == Ties(sorted, at) + if Began(e) == at then [e] else []
  {
    hide Ties;
    if sorted == [] || EntryStart(sorted[|sorted| - 1]) <= EntryStart(e) {
      TiesSnoc(sorted, e, at);
    } else {
      var front, last := sorted[..|sorted| - 1], sorted[|sorted| - 1];
      InsertTies(e, front, at);
      TiesSnoc(Insert(e, front), last, at);
      TiesSnoc(front, last, at);
      assert front + [last] == sorted;
      assert !(Began(e) == at && Began(last) == at);
      assert Ties(front, at) + [] + [last] == Ties(front, at) + [last] + [];
    }
  }

  /** Entries that begin together stay in the order in which they were listed. */
  lemma {:induction false} SortIsStable(entries: seq<Entry>, at: int)
    ensures Ties(SortByStart(entries), at) == Ties(entries, at)
  {
    if entries != [] {
      hide Ties;
      var front, last := entries[..|entries| - 1], entries[|entries| - 1];
      assert entries == front + [last];
      SortIsSorted(front);
      SortIsStable(front, at);
      InsertTies(last, SortByStart(front), at);
      TiesSnoc(front, last, at);
    }
  }

  /** In start order, and exactly the run's rows and the running calls and tools admitted. */
  ghost predicate IsBody(run: RunView, calls: seq<RunningCall>, tools: seq<RunningTool>, entries: seq<Entry>) {
    && InStartOrder(entries)
    && multiset(entries)
    == multiset(Logs(AllRows(run))) + multiset(ListedCalls(run.runId, ParentIds(run, calls), calls))
     + multiset(ListedTools(ParentIds(run, calls), tools))
  }

  /** How often each entry is in the body: every row of the run as often as the run has it,
      every running call as often as it runs if its parent is listed or it is the run's own,
      every running tool as often as it runs if its run is listed. */
  ghost predicate EachAsOften(run: RunView, calls: seq<RunningCall>, tools: seq<RunningTool>, entries: seq<Entry>) {
    && (forall row :: multiset(entries)[Logged(row)] == multiset(AllRows(run))[row])
    && (forall c :: multiset(entries)[Calling(c)]
                 == if Admits(run.runId, ParentIds(run, calls), c) then multiset(calls)[c] else 0)
    && (forall t :: multiset(entries)[Tooling(t)]
                 == if t.runId in ParentIds(run, calls) then multiset(tools)[t] else 0)
  }

  lemma BodyCounts(run: RunView, calls: seq<RunningCall>, tools: seq<RunningTool>, entries: seq<Entry>)
    requires IsBody(run, calls, tools, entries)
    ensures EachAsOften(run, calls, tools, entries)
  {
    hide ParentIds, InStartOrder;
    var ids := ParentIds(run, calls);
    forall row ensures multiset(entries)[Logged(row)] == multiset(AllRows(run))[row] {
      LogsCount(AllRows(run), row);
      assert Logged(row) !in ListedCalls(run.runId, ids, calls) && Logged(row) !in ListedTools(ids, tools);
    }
    forall c ensures multiset(entries)[Calling(c)] == if Admits(run.runId, ids, c) then multiset(calls)[c] else 0 {
      CallCount(run.runId, ids, calls, c);
      assert Calling(c) !in Logs(AllRows(run)) && Calling(c) !in ListedTools(ids, tools);
    }
    forall t ensures multiset(entries)[Tooling(t)] == if t.runId in ids then multiset(tools)[t] else 0 {
      ToolCount(ids, tools, t);
      assert Tooling(t) !in Logs(AllRows(run)) && Tooling(t) !in ListedCalls(run.runId, ids, calls);
    }
  }

  lemma CallCount(host: RunId, ids: set<RunId>, calls: seq<RunningCall>, c: RunningCall)
    ensures multiset(ListedCalls(host, ids, calls))[Calling(c)]
         == if Admits(host, ids, c) then multiset(calls)[c] else 0
  {
    var keep := (call: RunningCall) => Admits(host, ids, call);
    ListedCallsFilter(host, ids, calls);
    CallEntriesCount(Filtered(keep, calls), c);
    FilteredCount(keep, calls, c);
  }

  lemma ToolCount(ids: set<RunId>, tools: seq<RunningTool>, t: RunningTool)
    ensures multiset(ListedTools(ids, tools))[Tooling(t)] == if t.runId in ids then multiset(tools)[t] else 0
  {
    var keep := (tool: RunningTool) => tool.runId in ids;
    ListedToolsFilter(ids, tools);
    ToolEntriesCount(Filtered(keep, tools), t);
    FilteredCount(keep, tools, t);
  }

  method FlatRunEntries(run: RunView, calls: seq<RunningCall>, tools: seq<RunningTool>) returns (entries: seq<Entry>)
    ensures IsBody(run, calls, tools, entries) && EachAsOften(run, calls, tools, entries)
    ensures forall at :: Ties(entries, at)
                      == Ties(Logs(AllRows(run)) + ListedCalls(run.runId, ParentIds(run, calls), calls)
                              + ListedTools(ParentIds(run, calls), tools), at)
  {
    var ids := CloseOver({run.runId} + (set draw | draw in run.draws :: draw.runId), calls);
    var all := Logs(AllRows(run)) + ListedCalls(run.runId, ids, calls) + ListedTools(ids, tools);
    entries := SortByStart(all);
    SortIsSorted(all);
    BodyCounts(run, calls, tools, entries);
    forall at ensures Ties(entries, at) == Ties(all, at) {
      SortIsStable(all, at);
    }
  }

  /** However the list is ordered, it has every row of its run exactly once, in start order. */
  lemma EveryRowOnce(w: World, run: RunView, calls: seq<RunningCall>, tools: seq<RunningTool>,
      entries: seq<Entry>, row: Row)
    requires RunOk(w, run) && row in AllRows(run)
    requires multiset(entries)
          == multiset(Logs(AllRows(run))) + multiset(ListedCalls(run.runId, ParentIds(run, calls), calls))
           + multiset(ListedTools(ParentIds(run, calls), tools))
    ensures multiset(entries)[Logged(row)] == 1
  {
    var i :| 0 <= i < |AllRows(run)| && AllRows(run)[i] == row;
    RowsDistinct(w, run);
    OnceIn(AllRows(run), i);
    assert Logged(row) !in ListedCalls(run.runId, ParentIds(run, calls), calls);
    assert Logged(row) !in ListedTools(ParentIds(run, calls), tools);
  }

  lemma RowsDistinct(w: World, run: RunView)
    requires RunOk(w, run)
    ensures forall i, j :: 0 <= i < j < |AllRows(run)| ==> AllRows(run)[i] != AllRows(run)[j]
  {
  }

  lemma OnceIn(rows: seq<Row>, i: nat)
    requires i < |rows| && forall k, j :: 0 <= k < j < |rows| ==> rows[k] != rows[j]
    ensures multiset(Logs(rows))[Logged(rows[i])] == 1
  {
    var logs := Logs(rows);
    assert logs == logs[..i] + [logs[i]] + logs[i + 1..];
    assert logs[i] !in logs[..i] && logs[i] !in logs[i + 1..];
  }
}
