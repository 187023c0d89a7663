/** A fetched run that absorbs what is held for it joins a screen that keeps its
    invariant: nothing is lost, and what stays held still waits for something. */
module FetchKeeps {
  import opened Options
  import opened Rows
  import opened DrawNesting
  import opened RunLog
  import opened LogStructure
  import opened LogInvariant
  import opened RunningForest
  import opened Reconcile
  import opened HeldOrder

  ghost function Start(run: RunView): set<RunId> {
    {run.runId} + DrawRuns(run.draws)
  }

  ghost function Absorbing(run: RunView, held: seq<Held>): set<RunId> {
    Reached(Start(run), held)
  }

  /** What `reconcilePendingDraws` leaves of a fetched run. */
  function Merged(run: RunView, absorbed: seq<Row>): RunView
    requires run.prompts != []
  {
    DedupeHasNone(run.draws + absorbed);
    ApplyTiming(run.(draws := Dedupe(run.draws + absorbed)))
  }

  lemma DedupeHasNone(draws: seq<Row>)
    ensures |Dedupe(draws)| <= |draws|
  {
  }

  /** The fetched run is consistent and not on screen yet. */
  ghost predicate Fresh(w: World, s: State, run: RunView) {
    RunOk(w, run) && run.prompts != [] && run.runId !in Hosts(s.runs)
  }

  ghost predicate HeldFollows(w: World, held: seq<Held>) {
    forall h :: h in held ==> Follows(w, h.draw) && h.draw.parent == Some(h.key.run)
  }

  lemma ReachedUnder(w: World, run: RunView, held: seq<Held>)
    requires RunOk(w, run) && HeldFollows(w, held)
    ensures forall x :: x in Absorbing(run, held) ==> Under(w, x, run.runId)
  {
    var ids := set x | x in Start(run) + HeldRuns(held) && Under(w, x, run.runId);
    UnderSelf(w, run.runId);
    assert Start(run) <= ids;
    forall h | h in held && h.key.run in ids ensures h.draw.runId in ids {
      UnderStep(w, h.draw.runId, run.runId);
    }
    ReachedIsLeast(Start(run), held);
  }

  /** Every absorbed run id is the run's, a fetched draw's, or an absorbed draw's. */
  lemma ReachedNamed(run: RunView, held: seq<Held>)
    ensures Absorbing(run, held) <= Start(run) + DrawRuns(Inside(held, Absorbing(run, held)))
  {
    var all := Absorbing(run, held);
    var ids := all * (Start(run) + DrawRuns(Inside(held, all)));
    ReachedIsLeast(Start(run), held);
    forall h | h in held && h.key.run in ids ensures h.draw.runId in ids {
      assert h.draw in Inside(held, all);
    }
    assert HeldClosed(ids, held);
  }

  lemma InsideReached(run: RunView, held: seq<Held>)
    ensures forall draw :: draw in Inside(held, Absorbing(run, held)) ==> draw.runId in Absorbing(run, held)
  {
    ReachedIsLeast(Start(run), held);
  }

  lemma SameMembers(a: seq<Row>, b: seq<Row>)
    requires multiset(a) == multiset(b)
    ensures forall row :: row in a <==> row in b
  {
    assert forall row :: row in a <==> row in multiset(a);
    assert forall row :: row in b <==> row in multiset(b);
  }

  /** A copy of every merged row survives deduplication, with the same core. */
  lemma DedupeCores(w: World, draws: seq<Row>)
    requires forall draw :: draw in draws ==> Follows(w, draw)
    ensures Cores(Dedupe(draws)) == Cores(draws) && DistinctIds(Dedupe(draws))
    ensures forall draw :: draw in Dedupe(draws) ==> draw in draws
  {
    DedupeKeepsFirst(draws);
    forall draw | draw in Dedupe(draws) ensures draw in draws {
      assert IsFirstCopy(draws, draw);
    }
    forall draw | draw in draws ensures Core(draw) in Cores(Dedupe(draws)) {
      var i := FindId(draws, draw.id);
      assert draws[i] in draws && IsFirstCopy(draws, draws[i]);
      assert Core(draws[i]) == Core(draw);
    }
  }

  lemma MergedDraws(w: World, run: RunView, held: seq<Held>, absorbed: seq<Row>)
    requires RunOk(w, run) && HeldFollows(w, held)
    requires multiset(absorbed) == multiset(Inside(held, Absorbing(run, held)))
    ensures var draws := Dedupe(run.draws + absorbed);
            && DrawsOk(w, run.runId, draws)
            && Cores(draws) == Cores(run.draws) + Cores(absorbed)
            && forall draw :: draw in draws ==> draw.runId in Absorbing(run, held)
  {
    var merged := run.draws + absorbed;
    SameMembers(absorbed, Inside(held, Absorbing(run, held)));
    ReachedUnder(w, run, held);
    ReachedIsLeast(Start(run), held);
    InsideReached(run, held);
    forall draw | draw in merged
      ensures Follows(w, draw) && draw.parent.Some? && draw.runId in Absorbing(run, held)
    {
      if draw in run.draws {
        assert draw.runId in DrawRuns(run.draws);
      }
    }
    DedupeCores(w, merged);
    CoresConcat(run.draws, absorbed);
  }

  lemma MergedLinked(w: World, run: RunView, held: seq<Held>, absorbed: seq<Row>)
    requires RunOk(w, run) && HeldFollows(w, held)
    requires multiset(absorbed) == multiset(Inside(held, Absorbing(run, held)))
    ensures Linked(run.runId, Dedupe(run.draws + absorbed))
  {
    var draws := Dedupe(run.draws + absorbed);
    MergedDraws(w, run, held, absorbed);
    SameMembers(absorbed, Inside(held, Absorbing(run, held)));
    ReachedNamed(run, held);
    DedupeKeepsFirst(run.draws + absorbed);
    forall draw | draw in draws && draw.parent.Some? && draw.parent.value != run.runId
      ensures exists other :: other in draws && other.runId == draw.parent.value
    {
      assert IsFirstCopy(run.draws + absorbed, draw);
      var up := ParentOfMerged(w, run, held, absorbed, draw);
      assert Core(up) in Cores(run.draws) + Cores(absorbed);
      var other :| other in draws && Core(other) == Core(up);
      assert Core(other).runId == other.runId && Core(up).runId == up.runId;
    }
  }

  lemma ParentOfMerged(w: World, run: RunView, held: seq<Held>, absorbed: seq<Row>, draw: Row) returns (up: Row)
    requires RunOk(w, run)
    requires forall row :: row in absorbed <==> row in Inside(held, Absorbing(run, held))
    requires HeldFollows(w, held)
    requires draw in run.draws + absorbed && draw.parent.Some? && draw.parent.value != run.runId
    ensures up in run.draws + absorbed && up.runId == draw.parent.value
  {
    var q := draw.parent.value;
    if draw in run.draws {
      up :| up in run.draws && up.runId == q;
    } else {
      ReachedNamed(run, held);
      InsideHeldUnder(held, Absorbing(run, held), draw);
      if q in DrawRuns(run.draws) {
        up :| up in run.draws && up.runId == q;
      } else {
        up :| up in Inside(held, Absorbing(run, held)) && up.runId == q;
      }
    }
  }

  lemma InsideHeldUnder(held: seq<Held>, ids: set<RunId>, draw: Row)
    requires draw in Inside(held, ids) && forall h :: h in held ==> h.draw.parent == Some(h.key.run)
    ensures draw.parent.Some? && draw.parent.value in ids
  {
  }

  lemma MergedOk(w: World, run: RunView, held: seq<Held>, absorbed: seq<Row>)
    requires RunOk(w, run) && run.prompts != [] && HeldFollows(w, held)
    requires multiset(absorbed) == multiset(Inside(held, Absorbing(run, held)))
    ensures RunOk(w, Merged(run, absorbed))
    ensures Cores(AllRows(Merged(run, absorbed))) == Cores(AllRows(run)) + Cores(absorbed)
  {
    hide Absorbing, HeldFollows, Linked, Dedupe, ApplyTiming, PromptsOk, DrawsOk, WindowExact, Cores;
    MergedDraws(w, run, held, absorbed);
    MergedLinked(w, run, held, absorbed);
    TimingExact(run.(draws := Dedupe(run.draws + absorbed)));
    CoresConcat(run.prompts, run.draws);
    CoresConcat(run.prompts, Dedupe(run.draws + absorbed));
  }

  lemma AppendKeeps(w: World, runs: seq<RunView>, run: RunView)
    requires Structure(w, runs) && RunOk(w, run) && run.runId !in Hosts(runs)
    ensures Structure(w, runs + [run])
    ensures Hosts(runs + [run]) == Hosts(runs) + {run.runId}
    ensures Shown(runs + [run]) == Shown(runs) + Cores(AllRows(run))
  {
    var after := runs + [run];
    assert forall other :: other in after <==> other == run || other in runs;
    assert forall k :: 0 <= k < |runs| ==> runs[k] in runs;
    forall row | row in Shown(runs) + Cores(AllRows(run)) ensures row in Shown(after) {
      if row in Cores(AllRows(run)) {
        assert run in after;
      }
    }
  }

  /** What stays held waits for nothing that the fetch brought. */
  lemma StillWaits(w: World, hosts: set<RunId>, shown: set<Row>, held: seq<Held>, ids: set<RunId>, host: RunId,
      rows: set<Row>)
    requires HeldOk(w, hosts, shown, [], held)
    requires forall row :: row in rows ==> row.runId in ids
    ensures HeldOk(w, hosts + {host}, shown + rows, [], Outside(held, ids))
  {
  }

  /** The fetch as a whole, on the run log's state. */
  lemma FetchKeepsInv(w: World, s: State, run: RunView, absorbed: seq<Row>, received: set<Row>)
    requires Inv(w, s, [], received) && Fresh(w, s, run)
    requires multiset(absorbed) == multiset(Inside(s.held, Absorbing(run, s.held)))
    ensures var s' := State(s.runs + [Merged(run, absorbed)], Outside(s.held, Absorbing(run, s.held)));
            Inv(w, s', [], received + Cores(AllRows(run)))
  {
    HeldHasParent(w, s, received);
    MergedOk(w, run, s.held, absorbed);
    AppendKeeps(w, s.runs, Merged(run, absorbed));
    FetchHeldOk(w, s, run, absorbed, received);
    FetchAccounts(w, s, run, absorbed, received);
  }

  /** Every row received or fetched is on screen or still held. */
  lemma FetchAccounts(w: World, s: State, run: RunView, absorbed: seq<Row>, received: set<Row>)
    requires received == Shown(s.runs) + HeldCores(s.held) + FlightCores([]) && RunOk(w, run) && run.prompts != []
    requires HeldFollows(w, s.held)
    requires multiset(absorbed) == multiset(Inside(s.held, Absorbing(run, s.held)))
    ensures received + Cores(AllRows(run))
         == Shown(s.runs) + Cores(AllRows(Merged(run, absorbed)))
          + HeldCores(Outside(s.held, Absorbing(run, s.held))) + FlightCores([])
  {
    MergedOk(w, run, s.held, absorbed);
    SplitHeld(s.held, Absorbing(run, s.held), absorbed);
  }

  lemma FetchHeldOk(w: World, s: State, run: RunView, absorbed: seq<Row>, received: set<Row>)
    requires Inv(w, s, [], received) && Fresh(w, s, run)
    requires multiset(absorbed) == multiset(Inside(s.held, Absorbing(run, s.held)))
    ensures HeldOk(w, Hosts(s.runs) + {run.runId}, Shown(s.runs) + Cores(AllRows(Merged(run, absorbed))), [],
                   Outside(s.held, Absorbing(run, s.held)))
  {
    HeldHasParent(w, s, received);
    MergedRowsReached(w, run, s.held, absorbed);
    StillWaits(w, Hosts(s.runs), Shown(s.runs), s.held, Absorbing(run, s.held),
        run.runId, Cores(AllRows(Merged(run, absorbed))));
  }

  lemma HeldHasParent(w: World, s: State, received: set<Row>)
    requires Inv(w, s, [], received)
    ensures HeldFollows(w, s.held)
  {
  }

  lemma MergedRowsReached(w: World, run: RunView, held: seq<Held>, absorbed: seq<Row>)
    requires RunOk(w, run) && run.prompts != [] && HeldFollows(w, held)
    requires multiset(absorbed) == multiset(Inside(held, Absorbing(run, held)))
    ensures forall row :: row in Cores(AllRows(Merged(run, absorbed))) ==> row.runId in Absorbing(run, held)
  {
    MergedDraws(w, run, held, absorbed);
    ReachedIsLeast(Start(run), held);
    assert run.runId in Start(run);
    forall row | row in AllRows(Merged(run, absorbed)) ensures Core(row).runId in Absorbing(run, held) {
      assert row in run.prompts || row in Dedupe(run.draws + absorbed);
    }
  }

  lemma SplitHeld(held: seq<Held>, ids: set<RunId>, absorbed: seq<Row>)
    requires multiset(absorbed) == multiset(Inside(held, ids))
    ensures HeldCores(held) == HeldCores(Outside(held, ids)) + Cores(absorbed)
  {
    SameMembers(absorbed, Inside(held, ids));
    forall h | h in held ensures Core(h.draw) in HeldCores(Outside(held, ids)) + Cores(absorbed) {
      if h.key.run in ids {
        assert h.draw in absorbed;
      } else {
        assert h in Outside(held, ids);
      }
    }
  }

  /** The run joins the list with the held draws that lead to it, the copies of each row in
      the order that they were held in. */
  ghost predicate Joins(s: State, run: RunView, s': State) {
    run.prompts != [] &&
    exists absorbed ::
      && multiset(absorbed) == multiset(Inside(s.held, Absorbing(run, s.held)))
      && Gathered(s.held, Absorbing(run, s.held), absorbed)
      && s' == State(s.runs + [Merged(run, absorbed)], Outside(s.held, Absorbing(run, s.held)))
  }

  /** A consistent fetched run that is not on screen yet can join: every row it brings and
      every row received before is on screen or held, for the reasons the invariant gives. */
  lemma JoinKeeps(w: World, s: State, run: RunView, s': State, received: set<Row>)
    requires Inv(w, s, [], received) && Fresh(w, s, run) && Joins(s, run, s')
    ensures Inv(w, s', [], received + Cores(AllRows(run)))
  {
    var absorbed :|
      && multiset(absorbed) == multiset(Inside(s.held, Absorbing(run, s.held)))
      && Gathered(s.held, Absorbing(run, s.held), absorbed)
      && s' == State(s.runs + [Merged(run, absorbed)], Outside(s.held, Absorbing(run, s.held)));
    FetchKeepsInv(w, s, run, absorbed, received);
  }

  // ---------- a whole page ----------

  /** The fetched runs join one after the other. */
  ghost predicate JoinsAll(s: State, runs: seq<RunView>, s': State) {
    if runs == [] then s' == s
    else
      var n := |runs| - 1;
      exists mid :: JoinsAll(s, runs[..n], mid) && Joins(mid, runs[n], s')
  }

  lemma JoinsNone(s: State)
    ensures JoinsAll(s, [], s)
  {
  }

  lemma JoinsOfNone(s: State, s': State)
    requires JoinsAll(s, [], s')
    ensures s' == s
  {
  }

  lemma JoinsSnoc(s: State, runs: seq<RunView>, run: RunView, mid: State, s': State)
    requires JoinsAll(s, runs, mid) && Joins(mid, run, s')
    ensures JoinsAll(s, runs + [run], s')
  {
    assert (runs + [run])[..|runs|] == runs;
  }

  lemma LastJoin(s: State, runs: seq<RunView>, s': State) returns (mid: State)
    requires JoinsAll(s, runs, s') && runs != []
    ensures JoinsAll(s, runs[..|runs| - 1], mid) && Joins(mid, runs[|runs| - 1], s')
  {
    hide Joins;
    var n := |runs| - 1;
    mid :| JoinsAll(s, runs[..n], mid) && Joins(mid, runs[n], s');
  }

  /** Runs that are in front already stay in front. */
  lemma {:induction false} JoinsBehind(front: seq<RunView>, held: seq<Held>, runs: seq<RunView>, s': State)
    requires JoinsAll(State([], held), runs, s')
    ensures JoinsAll(State(front, held), runs, State(front + s'.runs, s'.held))
  {
    hide Joins, JoinsAll;
    if runs == [] {
      JoinsOfNone(State([], held), s');
      JoinsNone(State(front, held));
      assert front + [] == front;
    } else {
      var n := |runs| - 1;
      var mid := LastJoin(State([], held), runs, s');
      JoinsBehind(front, held, runs[..n], mid);
      JoinBehind(front, mid, runs[n], s');
      JoinsSnoc(State(front, held), runs[..n], runs[n], State(front + mid.runs, mid.held),
          State(front + s'.runs, s'.held));
      assert runs[..n] + [runs[n]] == runs;
    }
  }

  lemma JoinBehind(front: seq<RunView>, s: State, run: RunView, s': State)
    requires Joins(s, run, s')
    ensures Joins(State(front + s.runs, s.held), run, State(front + s'.runs, s'.held))
  {
    hide Merged;
    var absorbed :|
      && multiset(absorbed) == multiset(Inside(s.held, Absorbing(run, s.held)))
      && Gathered(s.held, Absorbing(run, s.held), absorbed)
      && s' == State(s.runs + [Merged(run, absorbed)], Outside(s.held, Absorbing(run, s.held)));
    assert front + s'.runs == (front + s.runs) + [Merged(run, absorbed)];
  }

  lemma PageStep(s: State, page: seq<RunView>, i: nat, mid: State, held: seq<Held>, run: RunView, absorbed: seq<Row>)
    requires i < |page| && page[i].prompts != [] && JoinsAll(s, page[..i], mid)
    requires multiset(absorbed) == multiset(Inside(mid.held, Absorbing(page[i], mid.held)))
    requires Gathered(mid.held, Absorbing(page[i], mid.held), absorbed)
    requires held == Outside(mid.held, Absorbing(page[i], mid.held)) && run == Merged(page[i], absorbed)
    ensures JoinsAll(s, page[..i + 1], State(mid.runs + [run], held))
  {
    hide Absorbing, Merged, JoinsAll;
    assert page[..i + 1] == page[..i] + [page[i]];
    JoinsSnoc(s, page[..i], page[i], mid, State(mid.runs + [run], held));
  }

  /** The runs of a page are consistent, different, and none is on screen yet. */
  ghost predicate PageOk(w: World, s: State, runs: seq<RunView>) {
    && DistinctRuns(runs)
    && forall run :: run in runs ==> RunOk(w, run) && run.prompts != [] && run.runId !in Hosts(s.runs)
  }

  ghost function RowsOfAll(runs: seq<RunView>): set<Row> {
    if runs == [] then {} else RowsOfAll(runs[..|runs| - 1]) + Cores(AllRows(runs[|runs| - 1]))
  }

  /** A page keeps the invariant: every row that it brings and every row received before is
      on screen or held for its reason. */
  lemma {:induction false} PageKeeps(w: World, s: State, runs: seq<RunView>, s': State, received: set<Row>)
    requires Inv(w, s, [], received) && PageOk(w, s, runs) && JoinsAll(s, runs, s')
    ensures Inv(w, s', [], received + RowsOfAll(runs))
    ensures Hosts(s'.runs) == Hosts(s.runs) + Hosts(runs)
  {
    hide Inv, RunOk, Joins;
    if runs == [] {
      assert received + {} == received;
    } else {
      hide Hosts, AllRows, Cores, PageOk;
      var n := |runs| - 1;
      var mid :| JoinsAll(s, runs[..n], mid) && Joins(mid, runs[n], s');
      PageFront(w, s, runs);
      PageKeeps(w, s, runs[..n], mid, received);
      JoinKeeps(w, mid, runs[n], s', received + RowsOfAll(runs[..n]));
      JoinHosts(mid, runs[n], s');
      assert received + RowsOfAll(runs) == received + RowsOfAll(runs[..n]) + Cores(AllRows(runs[n]));
    }
  }

  lemma PageFront(w: World, s: State, runs: seq<RunView>)
    requires PageOk(w, s, runs) && runs != []
    ensures PageOk(w, s, runs[..|runs| - 1]) && RunOk(w, runs[|runs| - 1]) && runs[|runs| - 1].prompts != []
    ensures runs[|runs| - 1].runId !in Hosts(s.runs) + Hosts(runs[..|runs| - 1])
    ensures Hosts(runs) == Hosts(runs[..|runs| - 1]) + {runs[|runs| - 1].runId}
  {
    hide RunOk;
    var front, last := runs[..|runs| - 1], runs[|runs| - 1];
    assert runs == front + [last];
    assert last in runs && forall run :: run in front ==> run in runs;
    HostsSnoc(front, last);
  }

  lemma JoinHosts(s: State, run: RunView, s': State)
    requires Joins(s, run, s')
    ensures Hosts(s'.runs) == Hosts(s.runs) + {run.runId}
  {
    assert |s'.runs| == |s.runs| + 1 && s'.runs[..|s.runs|] == s.runs && s'.runs[|s.runs|].runId == run.runId;
    HostsSnoc(s.runs, s'.runs[|s.runs|]);
    assert s'.runs == s.runs + [s'.runs[|s.runs|]];
  }

  lemma HostsSnoc(runs: seq<RunView>, run: RunView)
    ensures Hosts(runs + [run]) == Hosts(runs) + {run.runId}
  {
    assert forall r :: r in runs + [run] <==> r in runs || r == run;
  }

  /** The runs that a page is now the authority for: its own and those of its draws. */
  ghost function FetchedIds(runs: seq<RunView>): set<RunId> {
    if runs == [] then {}
    else
      var run := runs[|runs| - 1];
      FetchedIds(runs[..|runs| - 1]) + {run.runId} + DrawRuns(run.draws)
  }
}
