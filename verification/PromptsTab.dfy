/** The Prompts tab's module state as an object: the runs and the inner hold maps are
    objects that several variables can name, and the handlers change them in place.
    Every handler is proved to do what the functions of RunLog.dfy say. */
module PromptsTab {
  import opened Options
  import opened Rows
  import opened DrawNesting
  import opened RunLog
  import opened LogStructure
  import opened LogInvariant
  import opened Keeping
  import opened RunningForest
  import opened TouchOrder
  import opened Reconcile
  import opened HeldOrder
  import opened FetchKeeps

  // ---------- what the recursion needs to know of the state ----------

  /** The parent chain of `x` ends at a run without a parent. */
  ghost predicate Rooted(w: World, x: RunId) {
    exists h :: w.parentOf(h) == None && Under(w, x, h)
  }

  /** A chain that ends cannot come back to where it started. */
  lemma {:induction false} NotAboveItself(w: World, x: RunId, n: nat, h: RunId, m: nat)
    requires n > 0 && Climbs(w, x, x, n) && Climbs(w, x, h, m) && w.parentOf(h) == None
    ensures false
    decreases m
  {
    if m >= n {
      ClimbsThrough(w, x, x, n, h, m);
      NotAboveItself(w, x, n, h, m - n);
    } else {
      ClimbsThrough(w, x, h, m, x, n);
    }
  }

  lemma {:induction false} ClimbsThrough(w: World, x: RunId, y: RunId, n: nat, h: RunId, m: nat)
    requires Climbs(w, x, y, n) && Climbs(w, x, h, m) && n <= m
    ensures Climbs(w, y, h, m - n)
    decreases n
  {
    if n > 0 {
      ClimbsThrough(w, w.parentOf(x).value, y, n - 1, h, m - 1);
    }
  }

  /** A run that is strictly above a rooted run is not that run. */
  lemma ChildIsNotAbove(w: World, x: RunId, above: RunId)
    requires Rooted(w, x) && w.parentOf(x).Some? && Under(w, w.parentOf(x).value, above)
    ensures x != above
  {
    if x == above {
      var n: nat :| Climbs(w, w.parentOf(x).value, x, n);
      var h :| w.parentOf(h) == None && Under(w, x, h);
      var m: nat :| Climbs(w, x, h, m);
      assert Climbs(w, x, x, n + 1);
      NotAboveItself(w, x, n + 1, h, m);
    }
  }

  lemma PlacedIsRooted(w: World, runs: seq<RunView>, draw: Row)
    requires Structure(w, runs) && Follows(w, draw) && draw.parent.Some?
    requires FindContainer(runs, draw.parent.value).Some?
    ensures Rooted(w, draw.runId)
  {
    ContainerAbove(w, runs, draw);
    assert runs[FindContainer(runs, draw.parent.value).value.index] in runs;
  }

  // ---------- the objects ----------

  /** A `PromptLogRun` object. */
  class Run {
    const runId: RunId
    var promptCount: nat
    var startedAt: int
    var endedAt: int
    var totalDuration: int
    var wallDuration: int
    var inTokens: int
    var outTokens: int
    var outcome: Option<string>
    var reason: Option<string>
    var prompts: seq<Row>
    var draws: seq<Row>

    constructor (view: RunView)
      ensures View() == view
    {
      runId := view.runId;
      promptCount, startedAt, endedAt := view.promptCount, view.startedAt, view.endedAt;
      totalDuration, wallDuration := view.totalDuration, view.wallDuration;
      inTokens, outTokens, outcome, reason := view.inTokens, view.outTokens, view.outcome, view.reason;
      prompts, draws := view.prompts, view.draws;
    }

    function View(): RunView
      reads this
    {
      RunView(runId, promptCount, startedAt, endedAt, totalDuration, wallDuration,
              inTokens, outTokens, outcome, reason, prompts, draws)
    }

    method ApplyRunTiming()
      requires prompts + draws != []
      modifies this
      ensures View() == ApplyTiming(old(View()))
    {
      var rows := prompts + draws;
      startedAt := MinStart(rows);
      endedAt := MaxEnd(rows);
      wallDuration := endedAt - startedAt;
    }

    method UpsertPrompt(p: Row)
      modifies this
      ensures View() == WithPrompt(old(View()), p)
    {
      var appended := FindId(prompts, p.id) == -1;
      prompts := Upsert(prompts, p);
      promptCount := |prompts|;
      if appended {
        totalDuration := totalDuration + p.duration;
        inTokens := inTokens + p.inTokens;
        outTokens := outTokens + p.outTokens;
      }
      assert View() == BeforeTiming(old(View()), p);
      UpsertNonEmpty(old(prompts), p);
      ApplyRunTiming();
    }

    /** A fetched run's draws, once those held for it have joined. */
    method SetDraws(all: seq<Row>, ghost absorbed: seq<Row>)
      requires prompts != [] && all == draws + absorbed
      modifies this
      ensures View() == Merged(old(View()), absorbed)
    {
      draws := DedupeDraws(all);
      ApplyRunTiming();
    }

    method UpsertDraw(draw: Row)
      modifies this
      ensures View() == WithDraw(old(View()), draw)
    {
      draws := Upsert(draws, draw);
      ApplyRunTiming();
    }
  }

  /** One inner map of `pendingDrawsByStep`: the draws held for each tool call. */
  class StepMap {
    var held: map<CallId, seq<Row>>

    constructor ()
      ensures held == map[]
    {
      held := map[];
    }
  }

  ghost function Views(runs: seq<Run>): seq<RunView>
    reads runs
  {
    seq(|runs|, i requires 0 <= i < |runs| reads runs => runs[i].View())
  }

  twostate lemma SameViews(runs: seq<Run>)
    requires forall run :: run in runs ==> unchanged(run)
    ensures Views(runs) == old(Views(runs))
  {
    forall i | 0 <= i < |runs| ensures runs[i].View() == old(runs[i].View()) {
      assert runs[i] in runs;
    }
  }

  lemma {:induction false} AttachAllAppend(draws: seq<Row>, draw: Row)
    ensures AttachAll(draws + [draw]) == AttachAll(draws) + [Attach(draw)]
  {
    if draws == [] {
      assert draws + [draw] == [draw];
    } else {
      assert (draws + [draw])[1..] == draws[1..] + [draw];
      AttachAllAppend(draws[1..], draw);
    }
  }

  lemma {:induction false} DrainStepsAppend(x: RunId, calls: seq<CallId>, call: CallId)
    ensures DrainSteps(x, calls + [call]) == DrainSteps(x, calls) + [DrainStep(x, call)]
  {
    if calls == [] {
      assert calls + [call] == [call];
    } else {
      assert (calls + [call])[1..] == calls[1..] + [call];
      DrainStepsAppend(x, calls[1..], call);
    }
  }

  /** One more round of the loop over the released draws. */
  lemma AttachRound(s: State, draws: seq<Row>, i: nat)
    requires i < |draws|
    ensures Work(s, AttachAll(draws[..i + 1])) == Work(Work(s, AttachAll(draws[..i])), [Attach(draws[i])])
  {
    assert draws[..i + 1] == draws[..i] + [draws[i]];
    AttachAllAppend(draws[..i], draws[i]);
    WorkConcat(s, AttachAll(draws[..i]), [Attach(draws[i])]);
  }

  /** One more round of the loop over the tool calls. */
  lemma DrainRound(s: State, x: RunId, calls: seq<CallId>, i: nat)
    requires i < |calls|
    ensures Work(s, DrainSteps(x, calls[..i + 1])) == Work(Work(s, DrainSteps(x, calls[..i])), [DrainStep(x, calls[i])])
  {
    assert calls[..i + 1] == calls[..i] + [calls[i]];
    DrainStepsAppend(x, calls[..i], calls[i]);
    WorkConcat(s, DrainSteps(x, calls[..i]), [DrainStep(x, calls[i])]);
  }

  /** A drain that finds nothing leaves the state as it is. */
  lemma EmptyDrain(s: State, key: Key)
    requires Select(s.held, key) == []
    ensures Work(s, [DrainOf(key)]) == s
  {
    SelectWithout(s.held, key);
    forall h | h in s.held ensures h.key != key {
      assert h.key == key ==> h.draw in Select(s.held, key);
    }
    NothingSelected(s.held, key);
    WorkOne(s, DrainOf(key));
  }

  lemma {:induction false} EmptyDrainSteps(s: State, x: RunId, calls: seq<CallId>)
    requires forall c :: Select(s.held, ByStep(x, c)) == []
    ensures Work(s, DrainSteps(x, calls)) == s
  {
    if calls != [] {
      EmptyDrain(s, ByStep(x, calls[0]));
      WorkConcat(s, [DrainStep(x, calls[0])], DrainSteps(x, calls[1..]));
      EmptyDrainSteps(s, x, calls[1..]);
    }
  }

  ghost predicate NoRepeats(runs: seq<Run>) {
    forall i, j :: 0 <= i < j < |runs| ==> runs[i] != runs[j]
  }

  function Fronted<T>(items: seq<T>, i: nat): seq<T>
    requires i < |items|
  {
    [items[i]] + items[..i] + items[i + 1..]
  }

  lemma FrontedRuns(runs: seq<Run>, i: nat)
    requires i < |runs| && NoRepeats(runs)
    ensures NoRepeats(Fronted(runs, i))
    ensures forall r :: r in Fronted(runs, i) ==> r in runs
    ensures Views(Fronted(runs, i)) == Fronted(Views(runs), i)
  {
  }

  function ListAt<K>(m: map<K, seq<Row>>, k: K): seq<Row> {
    if k in m then m[k] else []
  }

  /** Anchored, and no row dispatched the anchor yet. */
  method IsStepMissing(rows: seq<Row>, draw: Row) returns (waits: bool)
    ensures waits == WaitsForStep(rows, draw)
  {
    var index := AttachmentIndex(rows, draw.anchor);
    waits := draw.anchor.Some? && index == None;
  }

  class Tab {
    var allRuns: seq<Run>
    var pendingDrawsByParentRun: map<RunId, seq<Row>>
    var pendingDrawsByStep: map<RunId, StepMap>
    var runningCalls: seq<RunningCall>
    var runningTools: seq<RunningTool>
    ghost var held: seq<Held>
    ghost var Repr: set<object>

    /** No run and no inner map is listed twice. */
    ghost predicate Owned()
      reads this
    {
      && this in Repr
      && (forall r :: r in allRuns ==> r in Repr)
      && NoRepeats(allRuns)
      && (forall x :: x in pendingDrawsByStep ==> pendingDrawsByStep[x] in Repr)
      && (forall x, y :: x in pendingDrawsByStep && y in pendingDrawsByStep && x != y ==>
                           pendingDrawsByStep[x] != pendingDrawsByStep[y])
    }

    ghost function StepList(x: RunId, c: CallId): seq<Row>
      reads this, pendingDrawsByStep.Values
    {
      if x in pendingDrawsByStep then ListAt(pendingDrawsByStep[x].held, c) else []
    }

    /** The two maps hold, key by key, what the one list of held draws holds. */
    ghost predicate MapsMatch()
      reads this, pendingDrawsByStep.Values
    {
      && (forall p :: ListAt(pendingDrawsByParentRun, p) == Select(held, ByParent(p)))
      && (forall x, c :: StepList(x, c) == Select(held, ByStep(x, c)))
    }

    ghost predicate Valid()
      reads this, Repr
    {
      Owned() && MapsMatch()
    }

    ghost function Model(): State
      reads this, allRuns
    {
      State(Views(allRuns), held)
    }

    constructor ()
      ensures Valid() && fresh(Repr) && Model() == State([], [])
      ensures runningCalls == [] && runningTools == []
    {
      allRuns, pendingDrawsByParentRun, pendingDrawsByStep := [], map[], map[];
      runningCalls, runningTools, held := [], [], [];
      Repr := {this};
    }

    // ---------- searching and reordering the list ----------

    /** `findContainer`: the index of the run that shows `x`, and the rows that `x` names. */
    method FindContainerOf(x: RunId) returns (found: Option<Container>)
      ensures found == FindContainer(Model().runs, x)
    {
      for i := 0 to |allRuns|
        invariant FindContainer(Model().runs, x) == FindContainer(Model().runs, x, i)
      {
        assert Model().runs[i] == allRuns[i].View();
        var rows := ContainedIn(allRuns[i].View(), x);
        if rows.Some? {
          return Some(Container(i, rows.value));
        }
      }
      return None;
    }

    /** The position of the first run with this id, or -1. */
    method FindRunIndex(id: RunId) returns (index: int)
      ensures index == FindRun(Model().runs, id)
    {
      index := 0;
      while index < |allRuns|
        invariant 0 <= index <= |allRuns|
        invariant forall k :: 0 <= k < index ==> allRuns[k].runId != id
      {
        assert Model().runs[index].runId == allRuns[index].runId;
        if allRuns[index].runId == id {
          assert forall k :: 0 <= k < |allRuns| ==> Model().runs[k].runId == allRuns[k].runId;
          return;
        }
        index := index + 1;
      }
      assert forall k :: 0 <= k < |allRuns| ==> Model().runs[k].runId == allRuns[k].runId;
      index := -1;
    }

    method MoveRunToFront(id: RunId)
      requires Valid()
      modifies this`allRuns
      ensures Valid()
      ensures Model() == State(MoveToFront(old(Model().runs), id), old(held))
    {
      var index := FindRunIndex(id);
      if index > 0 {
        FrontedRuns(allRuns, index);
        allRuns := Fronted(allRuns, index);
      }
    }

    // ---------- holding a draw ----------

    method HoldByParent(parent: RunId, draw: Row)
      requires Valid()
      modifies this`pendingDrawsByParentRun, this`held
      ensures Valid()
      ensures Model() == Hold(old(Model()), ByParent(parent), draw)
    {
      hide Select;
      pendingDrawsByParentRun := pendingDrawsByParentRun[parent := ListAt(pendingDrawsByParentRun, parent) + [draw]];
      held := held + [Held(ByParent(parent), draw)];
      forall key ensures Select(held, key) == Select(old(held), key) + if key == ByParent(parent) then [draw] else [] {
        SelectAppend(old(held), Held(ByParent(parent), draw), key);
      }
    }

    /** The inner map for a container, which is made when there is none. */
    method StepMapFor(container: RunId) returns (byStep: StepMap)
      requires Valid()
      modifies this`pendingDrawsByStep, this`Repr
      ensures Valid() && fresh(Repr - old(Repr))
      ensures container in pendingDrawsByStep && pendingDrawsByStep[container] == byStep
      ensures forall x :: x in old(pendingDrawsByStep) ==>
                            x in pendingDrawsByStep && pendingDrawsByStep[x] == old(pendingDrawsByStep[x])
    {
      if container in pendingDrawsByStep {
        byStep := pendingDrawsByStep[container];
      } else {
        byStep := new StepMap();
        Repr := Repr + {byStep};
        pendingDrawsByStep := pendingDrawsByStep[container := byStep];
        assert forall x, c :: StepList(x, c) == old(StepList(x, c));
      }
    }

    method HoldByStep(container: RunId, call: CallId, draw: Row)
      requires Valid()
      modifies Repr
      ensures Valid() && fresh(Repr - old(Repr))
      ensures allRuns == old(allRuns) && Model() == Hold(old(Model()), ByStep(container, call), draw)
      ensures Undisturbed(old(pendingDrawsByStep).Keys)
    {
      hide Select;
      var byStep := StepMapFor(container);
      AppendHeld(byStep, container, call, draw);
    }

    // ---------- releasing held draws ----------

    method TakeByParent(parent: RunId) returns (draws: seq<Row>)
      requires Valid() && parent in pendingDrawsByParentRun
      modifies this`pendingDrawsByParentRun, this`held
      ensures Valid() && draws == Select(old(held), ByParent(parent))
      ensures held == Without(old(held), ByParent(parent))
      ensures pendingDrawsByParentRun == old(pendingDrawsByParentRun) - {parent}
    {
      hide Select, Without;
      draws := pendingDrawsByParentRun[parent];
      pendingDrawsByParentRun := pendingDrawsByParentRun - {parent};
      held := Without(held, ByParent(parent));
      assert draws == ListAt(old(pendingDrawsByParentRun), parent);
      forall key ensures Select(held, key) == if key == ByParent(parent) then [] else Select(old(held), key) {
        SelectOther(old(held), ByParent(parent), key);
      }
    }

    method TakeByStep(byStep: StepMap, ghost container: RunId, call: CallId) returns (draws: seq<Row>)
      requires Valid() && container in pendingDrawsByStep && pendingDrawsByStep[container] == byStep
      requires call in byStep.held
      modifies byStep, this`held
      ensures Valid() && draws == Select(old(held), ByStep(container, call))
      ensures byStep.held == old(byStep.held) - {call}
      ensures held == Without(old(held), ByStep(container, call))
    {
      draws := byStep.held[call];
      assert draws == StepList(container, call);
      byStep.held := byStep.held - {call};
      held := Without(held, ByStep(container, call));
      forall p ensures ListAt(pendingDrawsByParentRun, p) == Select(held, ByParent(p)) {
        SelectOther(old(held), ByStep(container, call), ByParent(p));
      }
      forall x, c ensures StepList(x, c) == Select(held, ByStep(x, c)) {
        SelectOther(old(held), ByStep(container, call), ByStep(x, c));
        assert old(StepList(x, c)) == Select(old(held), ByStep(x, c));
      }
    }

    /** Both the list and its abstraction grow by one draw under one key. */
    method AppendHeld(byStep: StepMap, ghost container: RunId, call: CallId, draw: Row)
      requires Valid() && container in pendingDrawsByStep && pendingDrawsByStep[container] == byStep
      modifies byStep, this`held
      ensures Valid() && held == old(held) + [Held(ByStep(container, call), draw)]
    {
      byStep.held := byStep.held[call := ListAt(byStep.held, call) + [draw]];
      held := held + [Held(ByStep(container, call), draw)];
      forall p ensures ListAt(pendingDrawsByParentRun, p) == Select(held, ByParent(p)) {
        SelectAppend(old(held), Held(ByStep(container, call), draw), ByParent(p));
      }
      forall x, c ensures StepList(x, c) == Select(held, ByStep(x, c)) {
        SelectAppend(old(held), Held(ByStep(container, call), draw), ByStep(x, c));
        assert old(StepList(x, c)) == Select(old(held), ByStep(x, c));
      }
    }

    // ---------- placing a draw ----------

    lemma ViewsOfOthers(index: nat)
      requires Valid() && index < |allRuns|
      ensures forall k :: 0 <= k < |allRuns| && k != index ==> allRuns[k] != allRuns[index]
    {
    }

    method PlaceDraw(index: nat, draw: Row)
      requires Valid() && index < |allRuns|
      modifies this`allRuns, allRuns[index]
      ensures Valid() && Model() == Place(old(Model()), index, draw)
    {
      var host := allRuns[index];
      ViewsOfOthers(index);
      host.UpsertDraw(draw);
      assert Model().runs == old(Model().runs)[index := WithDraw(old(Model().runs)[index], draw)];
      MoveRunToFront(host.runId);
    }

    // ---------- the recursion ----------

    /** The inner maps registered for the runs being drained are still registered, and
        the running entries are untouched. */
    twostate predicate Undisturbed(draining: set<RunId>)
      reads this
    {
      && (forall x :: x in draining && x in old(pendingDrawsByStep) ==>
                        x in pendingDrawsByStep && pendingDrawsByStep[x] == old(pendingDrawsByStep[x]))
      && runningCalls == old(runningCalls)
      && runningTools == old(runningTools)
    }

    /** `attachDraw`.  `draining` are the runs that the callers are draining: all of them
        are above the draw, so that no inner call can drop a map a caller still uses. */
    method AttachDraw(draw: Row, ghost w: World, ghost draining: set<RunId>)
      requires Valid() && Kept(w, Model()) && Follows(w, draw)
      requires draw.parent.Some? ==> forall x :: x in draining ==> Under(w, draw.parent.value, x)
      modifies Repr
      ensures Valid() && fresh(Repr - old(Repr)) && Kept(w, Model())
      ensures Model() == Work(old(Model()), [Attach(draw)])
      ensures Undisturbed(draining)
      decreases |held| + 1, 0, 2
    {
      assert this in Repr;
      hide Valid, Kept, Work;
      if draw.parent == None {
        AttachNothing(Model(), draw);
      } else {
        var found := FindContainerOf(draw.parent.value);
        if found == None {
          AttachOutcome(w, Model(), draw);
          HoldByParent(draw.parent.value, draw);
        } else {
          AttachInside(found.value, draw, w, draining);
        }
      }
    }

    method AttachInside(container: Container, draw: Row, ghost w: World, ghost draining: set<RunId>)
      requires Valid() && Kept(w, Model()) && Follows(w, draw) && draw.parent.Some?
      requires FindContainer(Model().runs, draw.parent.value) == Some(container)
      requires forall x :: x in draining ==> Under(w, draw.parent.value, x)
      modifies Repr
      ensures Valid() && fresh(Repr - old(Repr)) && Kept(w, Model())
      ensures Model() == Work(old(Model()), [Attach(draw)])
      ensures Undisturbed(draining)
      decreases |held| + 1, 0, 1
    {
      hide Valid, Kept;
      AttachOutcome(w, Model(), draw);
      var waits := IsStepMissing(container.rows, draw);
      if waits {
        HoldByStep(draw.parent.value, draw.anchor.value, draw);
      } else {
        PlaceAndDrain(container.index, draw, w, draining);
      }
    }

    method PlaceAndDrain(index: nat, draw: Row, ghost w: World, ghost draining: set<RunId>)
      requires Valid() && Kept(w, Model()) && Follows(w, draw) && draw.parent.Some?
      requires FindContainer(Model().runs, draw.parent.value).Some?
      requires index == FindContainer(Model().runs, draw.parent.value).value.index
      requires forall x :: x in draining ==> Under(w, draw.parent.value, x)
      modifies Repr
      ensures Valid() && fresh(Repr - old(Repr)) && Kept(w, Model())
      ensures Model() == Work(Place(old(Model()), index, draw), Drains(draw))
      ensures Undisturbed(draining)
      decreases |held| + 1, 0, 0
    {
      assert this in Repr && allRuns[index] in Repr;
      hide Valid, Structure, Work, Place, Drains, FindContainer;
      PlacedKept(w, Model(), draw);
      PlacedIsRooted(w, Model().runs, draw);
      AboveChild(w, draw, draining);
      PlaceDraw(index, draw);
      label Placed:
      assert unchanged(`pendingDrawsByStep) && unchanged(`runningCalls) && unchanged(`runningTools);
      DrainWaitingOn(draw, w, draining);
      assert Undisturbed@Placed(draining);
    }

    /** `drainWaitingOn`. */
    method DrainWaitingOn(arrived: Row, ghost w: World, ghost draining: set<RunId>)
      requires Valid() && Kept(w, Model()) && Rooted(w, arrived.runId)
      requires forall x :: x in draining ==> x != arrived.runId && Under(w, arrived.runId, x)
      modifies Repr
      ensures Valid() && fresh(Repr - old(Repr)) && Kept(w, Model())
      ensures Model() == Work(old(Model()), Drains(arrived))
      ensures Undisturbed(draining)
      decreases |held|, 3
    {
      hide Valid, Kept;
      WorkConcat(Model(), [DrainParent(arrived.runId)], DrainSteps(arrived.runId, ToolCallIds(arrived)));
      UnderSelf(w, arrived.runId);
      WorkKept(w, Model(), [DrainParent(arrived.runId)]);
      DrainByParent(arrived.runId, w, draining + {arrived.runId});
      DrainBySteps(arrived, w, draining);
    }

    method DrainByParent(x: RunId, ghost w: World, ghost draining: set<RunId>)
      requires Valid() && Kept(w, Model()) && forall y :: y in draining ==> Under(w, x, y)
      modifies Repr
      ensures Valid() && fresh(Repr - old(Repr)) && Kept(w, Model())
      ensures Model() == Work(old(Model()), [DrainParent(x)])
      ensures Undisturbed(draining)
      decreases |held|, 2
    {
      if x in pendingDrawsByParentRun {
        ReleaseByParent(x, w, draining);
      } else {
        EmptyDrain(Model(), ByParent(x));
      }
    }

    method ReleaseByParent(x: RunId, ghost w: World, ghost draining: set<RunId>)
      requires Valid() && Kept(w, Model()) && forall y :: y in draining ==> Under(w, x, y)
      requires x in pendingDrawsByParentRun
      modifies Repr
      ensures Valid() && fresh(Repr - old(Repr)) && Kept(w, Model())
      ensures Model() == Work(old(Model()), [DrainParent(x)])
      ensures Undisturbed(draining)
      decreases |held|, 2, 0
    {
      assert this in Repr;
      hide Valid, Kept, Work, Release, Follows, Under;
      DrainOutcome(w, Model(), ByParent(x));
      var draws := TakeByParent(x);
      label Taken:
      AttachEach(draws, x, w, draining);
      assert Undisturbed@Taken(draining);
    }

    /** The loop over one released list. */
    method AttachEach(draws: seq<Row>, ghost x: RunId, ghost w: World, ghost draining: set<RunId>)
      requires Valid() && Kept(w, Model())
      requires forall draw :: draw in draws ==> Follows(w, draw) && draw.parent == Some(x)
      requires forall y :: y in draining ==> Under(w, x, y)
      modifies Repr
      ensures Valid() && fresh(Repr - old(Repr)) && Kept(w, Model())
      ensures Model() == Work(old(Model()), AttachAll(draws))
      ensures Undisturbed(draining)
      decreases |held| + |draws|, 1
    {
      hide Valid, Kept;
      ghost var start := Model();
      for i := 0 to |draws|
        invariant Valid() && fresh(Repr - old(Repr)) && Kept(w, Model())
        invariant Model() == Work(start, AttachAll(draws[..i]))
        invariant |held| + |draws| - i <= |start.held| + |draws|
        invariant Undisturbed(draining)
      {
        AttachRound(start, draws, i);
        WorkKept(w, Model(), [Attach(draws[i])]);
        AttachDraw(draws[i], w, draining);
      }
      assert draws[..|draws|] == draws;
    }

    /** The loop over the arrived row's tool calls.  The inner map is looked up once,
        before the nested calls; it is still the registered one after each of them, so
        that the test for emptiness at the end looks at the right map. */
    method DrainBySteps(arrived: Row, ghost w: World, ghost draining: set<RunId>)
      requires Valid() && Kept(w, Model())
      requires forall x :: x in draining ==> x != arrived.runId && Under(w, arrived.runId, x)
      modifies Repr
      ensures Valid() && fresh(Repr - old(Repr)) && Kept(w, Model())
      ensures Model() == Work(old(Model()), DrainSteps(arrived.runId, ToolCallIds(arrived)))
      ensures Undisturbed(draining)
      decreases |held|, 2, 3
    {
      hide Kept, Work, DrainSteps, ToolCallIds;
      var x := arrived.runId;
      var calls := ToolCallIds(arrived);
      if x !in pendingDrawsByStep {
        assert forall c :: Select(held, ByStep(x, c)) == StepList(x, c);
        EmptyDrainSteps(Model(), x, calls);
        return;
      }
      var byStep := pendingDrawsByStep[x];
      UnderSelf(w, x);
      DrainEachStep(byStep, x, calls, w, draining + {x});
      if |byStep.held| == 0 {
        DropStepMap(x);
      }
    }

    method DropStepMap(x: RunId)
      requires Valid() && x in pendingDrawsByStep && pendingDrawsByStep[x].held == map[]
      modifies this`pendingDrawsByStep
      ensures Valid() && pendingDrawsByStep == old(pendingDrawsByStep) - {x}
    {
      pendingDrawsByStep := pendingDrawsByStep - {x};
      assert forall y, c :: StepList(y, c) == old(StepList(y, c));
    }

    method DrainEachStep(byStep: StepMap, x: RunId, calls: seq<CallId>, ghost w: World, ghost draining: set<RunId>)
      requires Valid() && Kept(w, Model()) && x in pendingDrawsByStep && pendingDrawsByStep[x] == byStep
      requires x in draining && forall y :: y in draining ==> Under(w, x, y)
      modifies Repr
      ensures Valid() && fresh(Repr - old(Repr)) && Kept(w, Model())
      ensures Model() == Work(old(Model()), DrainSteps(x, calls))
      ensures Undisturbed(draining)
      decreases |held|, 2, 2
    {
      hide Valid, Kept;
      ghost var start := Model();
      for i := 0 to |calls|
        invariant Valid() && fresh(Repr - old(Repr)) && Kept(w, Model())
        invariant Model() == Work(start, DrainSteps(x, calls[..i])) && |held| <= |start.held|
        invariant Undisturbed(draining)
      {
        DrainRound(start, x, calls, i);
        DrainByStep(byStep, x, calls[i], w, draining);
      }
      assert calls[..|calls|] == calls;
    }

    method DrainByStep(byStep: StepMap, x: RunId, call: CallId, ghost w: World, ghost draining: set<RunId>)
      requires Valid() && Kept(w, Model()) && x in pendingDrawsByStep && pendingDrawsByStep[x] == byStep
      requires x in draining && forall y :: y in draining ==> Under(w, x, y)
      modifies Repr
      ensures Valid() && fresh(Repr - old(Repr)) && Kept(w, Model())
      ensures Model() == Work(old(Model()), [DrainStep(x, call)]) && |held| <= |old(held)|
      ensures Undisturbed(draining)
      decreases |held|, 2, 1
    {
      if call in byStep.held {
        ReleaseByStep(byStep, x, call, w, draining);
      } else {
        assert StepList(x, call) == [];
        EmptyDrain(Model(), ByStep(x, call));
      }
    }

    method ReleaseByStep(byStep: StepMap, x: RunId, call: CallId, ghost w: World, ghost draining: set<RunId>)
      requires Valid() && Kept(w, Model()) && x in pendingDrawsByStep && pendingDrawsByStep[x] == byStep
      requires x in draining && forall y :: y in draining ==> Under(w, x, y)
      requires call in byStep.held
      modifies Repr
      ensures Valid() && fresh(Repr - old(Repr)) && Kept(w, Model())
      ensures Model() == Work(old(Model()), [DrainStep(x, call)]) && |held| <= |old(held)|
      ensures Undisturbed(draining)
      decreases |held|, 2, 0
    {
      assert this in Repr && byStep in Repr;
      hide Valid, Kept, Work;
      DrainOutcome(w, Model(), ByStep(x, call));
      var draws := TakeByStep(byStep, x, call);
      AttachEach(draws, x, w, draining);
    }

    // ---------- logged rows ----------

    /** `handlePromptUpdate`: the running placeholders of the row's run go, then the row
        is attached as a draw or shown as an own prompt. */
    method HandlePromptUpdate(prompt: Row, ghost w: World)
      requires Valid() && Kept(w, Model()) && Follows(w, prompt)
      modifies Repr
      ensures Valid() && fresh(Repr - old(Repr)) && Kept(w, Model())
      ensures Model() == HandleRow(old(Model()), prompt)
      ensures runningCalls == DropCalls(old(runningCalls), {prompt.runId})
      ensures runningTools == DropTools(old(runningTools), {prompt.runId})
    {
      runningCalls := DropCalls(runningCalls, {prompt.runId});
      runningTools := DropTools(runningTools, {prompt.runId});
      if prompt.parent.Some? {
        AttachDraw(prompt, w, {});
      } else {
        HandleOwnPrompt(prompt, w);
      }
    }

    method HandleOwnPrompt(prompt: Row, ghost w: World)
      requires Valid() && Kept(w, Model()) && Follows(w, prompt) && prompt.parent == None
      modifies Repr
      ensures Valid() && fresh(Repr - old(Repr)) && Kept(w, Model())
      ensures Model() == Work(ShowPrompt(old(Model()), prompt), Drains(prompt))
      ensures Undisturbed({})
    {
      hide Valid, Structure;
      ShowPromptStructure(w, Model(), prompt);
      UnderSelf(w, prompt.runId);
      ShowOwnPrompt(prompt);
      DrainWaitingOn(prompt, w, {});
    }

    method ShowOwnPrompt(prompt: Row)
      requires Valid()
      modifies Repr
      ensures Valid() && fresh(Repr - old(Repr))
      ensures Model() == ShowPrompt(old(Model()), prompt)
      ensures Undisturbed({})
    {
      var index := FindRunIndex(prompt.runId);
      if index == -1 {
        InsertNewRun(prompt);
      } else {
        UpdateExistingRun(index, prompt);
      }
    }

    method InsertNewRun(prompt: Row)
      requires Valid()
      modifies this`allRuns, this`Repr
      ensures Valid() && fresh(Repr - old(Repr))
      ensures Model() == old(Model()).(runs := [NewRun(prompt)] + old(Model().runs))
    {
      PutInFront(NewRun(prompt));
    }

    /** `unshift` of a new run object. */
    method PutInFront(view: RunView)
      requires Valid()
      modifies this`allRuns, this`Repr
      ensures Valid() && fresh(Repr - old(Repr))
      ensures Model() == old(Model()).(runs := [view] + old(Model().runs))
    {
      var run := new Run(view);
      allRuns := [run] + allRuns;
      Repr := Repr + {run};
      assert Model().runs == [view] + old(Model().runs);
    }

    method UpdateExistingRun(index: nat, prompt: Row)
      requires Valid() && index < |allRuns| && allRuns[index].runId == prompt.runId
      modifies this`allRuns, allRuns[index]
      ensures Valid()
      ensures Model() == State(MoveToFront(old(Model().runs)[index := WithPrompt(old(Model().runs)[index], prompt)],
              prompt.runId),
                               old(held))
    {
      var run := allRuns[index];
      ViewsOfOthers(index);
      run.UpsertPrompt(prompt);
      assert Model().runs == old(Model().runs)[index := WithPrompt(old(Model().runs)[index], prompt)];
      MoveRunToFront(prompt.runId);
    }

    // ---------- running placeholders ----------

    /** `findHostFor`: up the running parents until a run on screen is found. */
    method FindHostFor(x: RunId, ghost n: nat) returns (host: Option<nat>)
      requires Ends(Model().runs, runningCalls, x, n)
      ensures host == HostFor(Model().runs, runningCalls, x, n)
      decreases n
    {
      var found := FindContainerOf(x);
      if found.Some? {
        return Some(found.value.index);
      }
      var i := FindCall(runningCalls, x);
      if i != -1 && runningCalls[i].parent.Some? {
        assert runningCalls[i] in runningCalls;
        host := FindHostFor(runningCalls[i].parent.value, n - 1);
      } else {
        host := None;
      }
    }

    /** `handleCallStarted`: a run's own call brings the run to the front, or puts a shell
        there; any other call is only listed.  Returns the host to render again. */
    method HandleCallStarted(call: RunningCall) returns (host: Option<nat>)
      requires Valid() && (call.parent.Some? ==> NoIdTwice(Model().runs, runningCalls + [call], call.parent.value))
      modifies this`runningCalls, this`allRuns, this`Repr
      ensures Valid() && fresh(Repr - old(Repr))
      ensures runningCalls == old(runningCalls) + [call]
      ensures Model()
              == if call.parent == None then StartRun(old(Model()), call.runId, call.startedAt) else old(Model())
      ensures call.parent == None ==> host == Some(0)
      ensures call.parent.Some? ==>
                && Ends(Model().runs, runningCalls, call.parent.value, |runningCalls|)
                && host == HostFor(Model().runs, runningCalls, call.parent.value, |runningCalls|)
    {
      ListCall(call);
      if call.parent == None {
        ShowStart(call.runId, call.startedAt);
        host := Some(0);
      } else {
        ClimbEndsExactly(Model().runs, runningCalls, call.parent.value);
        host := FindHostFor(call.parent.value, |runningCalls|);
      }
    }

    method ListCall(call: RunningCall)
      requires Valid()
      modifies this`runningCalls
      ensures Valid() && Model() == old(Model()) && runningCalls == old(runningCalls) + [call]
    {
      runningCalls := runningCalls + [call];
    }

    method ShowStart(x: RunId, startedAt: int)
      requires Valid()
      modifies this`allRuns, this`Repr
      ensures Valid() && fresh(Repr - old(Repr))
      ensures Model() == StartRun(old(Model()), x, startedAt)
    {
      var index := FindRunIndex(x);
      if index != -1 {
        MoveRunToFront(x);
      } else {
        PutInFront(Shell(x, startedAt));
      }
    }

    method HandleToolStarted(tool: RunningTool)
      modifies this`runningTools
      ensures runningTools == old(runningTools) + [tool]
    {
      runningTools := runningTools + [tool];
    }

    /** Only the entry that finished goes. */
    method HandleToolFinished(x: RunId, call: CallId)
      modifies this`runningTools
      ensures runningTools == WithoutTool(old(runningTools), x, call)
    {
      runningTools := WithoutTool(runningTools, x, call);
    }

    /** `handleRunOutcome`: the run is marked and comes to the front, and every running
        entry below its own id goes; so nothing is left spinning in its body exactly when
        nothing was running below one of its logged draws alone. */
    method HandleRunOutcome(x: RunId, outcome: string, reason: string)
      requires Valid()
      modifies Repr
      ensures Valid() && Repr == old(Repr)
      ensures Model() == Finish(old(Model()), x, outcome, reason)
      ensures var onScreen := FindRun(old(Model().runs), x) != -1;
              && runningCalls
                 == (if onScreen then DropCalls(old(runningCalls), Closure({x}, old(runningCalls)))
                     else old(runningCalls))
              && runningTools
                 == (if onScreen then DropTools(old(runningTools), Closure({x}, old(runningCalls)))
                     else old(runningTools))
      ensures var i := FindRun(old(Model().runs), x);
              i != -1 ==>
                && Model().runs != [] && Model().runs[0].runId == x
                && (Quiet(Model().runs[0], runningCalls, runningTools)
                    <==> !HasStray(old(Model().runs)[i], old(runningCalls), old(runningTools)))
    {
      var index := FindRunIndex(x);
      if index != -1 {
        assert this in Repr && allRuns[index] in Repr;
        OutcomeQuiets(Model(), x, outcome, reason, runningCalls, runningTools);
        hide Valid, Quiet, HasStray, Finish;
        ShowOutcome(index, outcome, reason);
        SweepBelow(x);
      }
    }

    method ShowOutcome(index: nat, outcome: string, reason: string)
      requires Valid() && index < |allRuns| && FindRun(Model().runs, allRuns[index].runId) == index
      modifies this`allRuns, allRuns[index]
      ensures Valid()
      ensures Model() == Finish(old(Model()), old(allRuns[index].runId), outcome, reason)
    {
      var x := allRuns[index].runId;
      MarkOutcome(index, outcome, reason);
      MoveRunToFront(x);
    }

    /** The run's placeholders and those of every running call below it go. */
    method SweepBelow(x: RunId)
      requires Valid()
      modifies this`runningCalls, this`runningTools
      ensures Valid() && Model() == old(Model())
      ensures runningCalls == DropCalls(old(runningCalls), Closure({x}, old(runningCalls)))
      ensures runningTools == DropTools(old(runningTools), Closure({x}, old(runningCalls)))
    {
      var closure := CloseOver({x}, runningCalls);
      DropPlaceholders(closure);
    }

    method MarkOutcome(index: nat, outcome: string, reason: string)
      requires Valid() && index < |allRuns|
      modifies allRuns[index]
      ensures Valid() && Model().runs
           == old(Model().runs)[index := old(Model().runs)[index].(outcome := Some(outcome), reason := Some(reason))]
    {
      ViewsOfOthers(index);
      allRuns[index].outcome := Some(outcome);
      allRuns[index].reason := Some(reason);
    }

    // ---------- a fetched run ----------

    /** Everything held for one run, by parent or by step, in whatever order the inner map
        lists its steps. */
    method TakeRun(x: RunId) returns (draws: seq<Row>)
      requires Valid()
      modifies this`pendingDrawsByParentRun, this`pendingDrawsByStep, this`held, pendingDrawsByStep.Values
      ensures Valid() && held == Outside(old(held), {x})
      ensures pendingDrawsByStep.Values <= old(pendingDrawsByStep.Values)
      ensures multiset(draws) == multiset(Inside(old(held), {x})) && RunTaken(old(held), x, draws)
    {
      hide Outside, Inside, Select, Without, StepsTaken, RunTaken;
      draws := TakeHeldByParent(x);
      ghost var mid := held;
      var more := TakeSteps(x);
      NothingHeldFor(x);
      ParentThenSteps(old(held), mid, held, x, draws, more);
      draws := draws + more;
    }

    method TakeHeldByParent(x: RunId) returns (draws: seq<Row>)
      requires Valid()
      modifies this`pendingDrawsByParentRun, this`held
      ensures Valid() && x !in pendingDrawsByParentRun && Outside(held, {x}) == Outside(old(held), {x})
      ensures multiset(draws) + multiset(Inside(held, {x})) == multiset(Inside(old(held), {x}))
      ensures draws == Select(old(held), ByParent(x)) && forall h :: h in held ==> h in old(held)
      ensures forall c :: Select(held, ByStep(x, c)) == Select(old(held), ByStep(x, c))
    {
      draws := [];
      if x in pendingDrawsByParentRun {
        TakenByParent(held, x);
        draws := TakeByParent(x);
      } else {
        assert Select(held, ByParent(x)) == ListAt(pendingDrawsByParentRun, x);
      }
    }

    lemma NothingHeldFor(x: RunId)
      requires Valid() && x !in pendingDrawsByParentRun && x !in pendingDrawsByStep
      ensures Inside(held, {x}) == [] && Outside(held, {x}) == held
      ensures forall c :: Select(held, ByStep(x, c)) == []
    {
      forall key: Key | key.run == x ensures Select(held, key) == [] {
        if key.ByParent? {
          assert Select(held, key) == ListAt(pendingDrawsByParentRun, x);
        } else {
          assert Select(held, key) == StepList(x, key.call);
        }
      }
      NothingInside(held, x);
    }

    method TakeSteps(x: RunId) returns (draws: seq<Row>)
      requires Valid()
      modifies this`pendingDrawsByStep, this`held, pendingDrawsByStep.Values
      ensures Valid() && x !in pendingDrawsByStep && pendingDrawsByStep == old(pendingDrawsByStep) - {x}
      ensures Taking(old(held), held, x, draws)
    {
      hide Taking, Without, Select;
      draws := [];
      TakingNone(held, x);
      if x in pendingDrawsByStep {
        var byStep := pendingDrawsByStep[x];
        while byStep.held != map[]
          invariant Valid() && pendingDrawsByStep == old(pendingDrawsByStep) && Taking(old(held), held, x, draws)
          decreases |byStep.held|
        {
          var call :| call in byStep.held;
          TakingMore(old(held), held, x, call, draws);
          var more := TakeByStep(byStep, x, call);
          draws := draws + more;
        }
        DropStepMap(x);
      }
    }

    /** `reconcilePendingDraws`: a fetched run absorbs exactly the held draws that its id
        and its fetched draws lead to, and every other held draw stays as it is held. */
    method ReconcilePendingDraws(run: Run) returns (ghost absorbed: seq<Row>)
      requires Valid() && run !in Repr && run.prompts != []
      modifies this`pendingDrawsByParentRun, this`pendingDrawsByStep, this`held, pendingDrawsByStep.Values, run
      ensures Valid() && pendingDrawsByStep.Values <= old(pendingDrawsByStep.Values)
      ensures held == Outside(old(held), Absorbing(old(run.View()), old(held)))
      ensures multiset(absorbed) == multiset(Inside(old(held), Absorbing(old(run.View()), old(held))))
      ensures Gathered(old(held), Absorbing(old(run.View()), old(held)), absorbed)
      ensures run.View() == Merged(old(run.View()), absorbed)
      ensures run.prompts == old(run.prompts)
    {
      var all;
      all, absorbed := AbsorbHeld(run.runId, run.draws);
      run.SetDraws(all, absorbed);
    }

    /** `fetchedRunIdsFrom`: the loop over the runs and their draws. */
    method FetchedRunIds(page: seq<Run>) returns (ids: set<RunId>)
      ensures ids == FetchedIds(Views(page))
    {
      ids := {};
      for i := 0 to |page|
        invariant ids == FetchedIds(Views(page)[..i])
      {
        assert Views(page)[..i + 1][..i] == Views(page)[..i] && Views(page)[i] == page[i].View();
        var run := page[i];
        ids := ids + {run.runId} + (set draw | draw in run.draws :: draw.runId);
      }
      assert Views(page)[..|page|] == Views(page);
    }

    /** `applyPromptLogsResponse`: every fetched run absorbs what is held for it, the
        placeholders that the page settles go, and the page comes behind what is on screen.
        A page without runs empties the list. */
    method ApplyPromptLogsResponse(page: seq<Run>)
      requires Valid() && Loose(page)
      modifies this, pendingDrawsByStep.Values, page
      ensures Valid() && Repr == old(Repr) + set run | run in page
      ensures allRuns == if page == [] then [] else old(allRuns) + page
      ensures JoinsAll(if page == [] then State([], old(held)) else old(Model()), old(Views(page)), Model())
      ensures runningCalls == DropCalls(old(runningCalls), FetchedIds(Views(page)))
      ensures runningTools == DropTools(old(runningTools), FetchedIds(Views(page)))
    {
      ghost var before, waiting := Views(page), held;
      ghost var front := if page == [] then [] else Views(allRuns);
      hide Valid, JoinsAll, Loose, Views;
      SettlePage(page);
      JoinsBehind(front, waiting, before, State(Views(page), held));
      ShowPage(page);
    }

    /** All of it but the list itself. */
    method SettlePage(page: seq<Run>)
      requires Valid() && Loose(page)
      modifies this`pendingDrawsByParentRun, this`pendingDrawsByStep, this`held, this`runningCalls, this`runningTools
      modifies pendingDrawsByStep.Values, page
      ensures Valid() && Loose(page) && Views(allRuns) == old(Views(allRuns))
      ensures JoinsAll(State([], old(held)), old(Views(page)), State(Views(page), held))
      ensures runningCalls == DropCalls(old(runningCalls), FetchedIds(Views(page)))
      ensures runningTools == DropTools(old(runningTools), FetchedIds(Views(page)))
    {
      NotListed(page);
      hide Valid, JoinsAll, Loose, Views;
      ReconcilePage(page);
      SameViews(allRuns);
      DropFetched(page);
    }

    lemma NotListed(page: seq<Run>)
      requires Valid() && Loose(page)
      ensures forall run :: run in page ==> run !in allRuns
    {
    }

    /** A page joins a list that has runs, and takes the place of one that has none. */
    method ShowPage(page: seq<Run>)
      requires Valid() && Loose(page)
      modifies this`allRuns, this`Repr
      ensures Valid() && allRuns == if page == [] then [] else old(allRuns) + page
      ensures Model() == State((if page == [] then [] else old(Views(allRuns))) + Views(page), old(held))
      ensures Repr == old(Repr) + set run | run in page
    {
      if |page| > 0 && |allRuns| > 0 {
        AppendRuns(page);
      } else {
        ListPage(page);
      }
    }

    /** Fetched run objects are nobody else's. */
    ghost predicate Loose(page: seq<Run>)
      reads this`Repr, page
    {
      NoRepeats(page) && forall run :: run in page ==> run !in Repr && run.prompts != []
    }

    method DropFetched(page: seq<Run>)
      requires Valid() && Loose(page)
      modifies this`runningCalls, this`runningTools
      ensures Valid() && Loose(page) && Views(page) == old(Views(page)) && Views(allRuns) == old(Views(allRuns))
      ensures runningCalls == DropCalls(old(runningCalls), FetchedIds(Views(page)))
      ensures runningTools == DropTools(old(runningTools), FetchedIds(Views(page)))
    {
      hide Views, FetchedIds;
      var ids := FetchedRunIds(page);
      DropPlaceholders(ids);
    }

    method DropPlaceholders(ids: set<RunId>)
      requires Valid()
      modifies this`runningCalls, this`runningTools
      ensures Valid() && Model() == old(Model())
      ensures runningCalls == DropCalls(old(runningCalls), ids) && runningTools == DropTools(old(runningTools), ids)
    {
      runningCalls := DropCalls(runningCalls, ids);
      runningTools := DropTools(runningTools, ids);
    }

    method ListPage(page: seq<Run>)
      requires Valid() && NoRepeats(page)
      modifies this`allRuns, this`Repr
      ensures Valid() && allRuns == page && Model() == State(Views(page), old(held))
      ensures Repr == old(Repr) + set run | run in page
    {
      allRuns := page;
      Repr := Repr + set run | run in page;
    }

    /** `appendRuns`. */
    method AppendRuns(page: seq<Run>)
      requires Valid() && Loose(page)
      modifies this`allRuns, this`Repr
      ensures Valid() && allRuns == old(allRuns) + page
      ensures Model() == State(old(Views(allRuns)) + Views(page), old(held))
      ensures Repr == old(Repr) + set run | run in page
    {
      for i := 0 to |page|
        invariant Valid() && held == old(held) && allRuns == old(allRuns) + page[..i]
        invariant Repr == old(Repr) + set run | run in page[..i]
        invariant forall k :: i <= k < |page| ==> page[k] !in Repr
      {
        PushRun(page[i]);
        assert page[..i + 1] == page[..i] + [page[i]];
      }
      assert page[..|page|] == page;
      assert Views(allRuns) == old(Views(allRuns)) + Views(page);
    }

    method PushRun(run: Run)
      requires Valid() && run !in Repr
      modifies this`allRuns, this`Repr
      ensures Valid() && allRuns == old(allRuns) + [run] && Repr == old(Repr) + {run}
    {
      allRuns := allRuns + [run];
      Repr := Repr + {run};
    }

    method ReconcilePage(page: seq<Run>)
      requires Valid() && Loose(page)
      modifies this`pendingDrawsByParentRun, this`pendingDrawsByStep, this`held, pendingDrawsByStep.Values, page
      ensures Valid() && Loose(page)
      ensures JoinsAll(State([], old(held)), old(Views(page)), State(Views(page), held))
    {
      ghost var start, before := State([], held), Views(page);
      hide Valid, JoinsAll;
      JoinsNone(start);
      assert before[..0] == [] && Views(page[..0]) == [];
      for i := 0 to |page|
        invariant Valid() && pendingDrawsByStep.Values <= old(pendingDrawsByStep.Values)
        invariant forall k :: i <= k < |page| ==> page[k].View() == before[k]
        invariant forall k :: 0 <= k < |page| ==> page[k].prompts == before[k].prompts
        invariant JoinsAll(start, before[..i], State(Views(page[..i]), held))
      {
        ReconcileNext(page, i, start, before);
      }
      assert page[..|page|] == page && before[..|page|] == before;
    }

    method ReconcileNext(page: seq<Run>, i: nat, ghost start: State, ghost before: seq<RunView>)
      requires Valid() && NoRepeats(page) && i < |page| == |before|
      requires page[i] !in Repr && page[i].View() == before[i] && before[i].prompts != []
      requires JoinsAll(start, before[..i], State(Views(page[..i]), held))
      modifies this`pendingDrawsByParentRun, this`pendingDrawsByStep, this`held, pendingDrawsByStep.Values, page[i]
      ensures Valid() && pendingDrawsByStep.Values <= old(pendingDrawsByStep.Values)
      ensures page[i].prompts == old(page[i].prompts)
      ensures JoinsAll(start, before[..i + 1], State(Views(page[..i + 1]), held))
    {
      hide Valid, JoinsAll, Merged, Outside, Inside, Absorbing;
      ghost var mid := State(Views(page[..i]), held);
      ghost var absorbed := ReconcilePendingDraws(page[i]);
      PageStep(start, before, i, mid, held, page[i].View(), absorbed);
      assert Views(page[..i + 1]) == mid.runs + [page[i].View()];
    }

    /** The worklist loop: each further round takes at least one held draw. */
    method AbsorbHeld(x: RunId, fetched: seq<Row>) returns (merged: seq<Row>, ghost absorbed: seq<Row>)
      requires Valid()
      modifies this`pendingDrawsByParentRun, this`pendingDrawsByStep, this`held, pendingDrawsByStep.Values
      ensures Valid() && pendingDrawsByStep.Values <= old(pendingDrawsByStep.Values)
      ensures held == Outside(old(held), Reached({x} + DrawRuns(fetched), old(held)))
      ensures multiset(absorbed) == multiset(Inside(old(held), Reached({x} + DrawRuns(fetched), old(held))))
      ensures Gathered(old(held), Reached({x} + DrawRuns(fetched), old(held)), absorbed)
      ensures merged == fetched + absorbed
    {
      ghost var start, first := {x} + DrawRuns(fetched), held;
      ghost var done: set<RunId> := {};
      merged, absorbed := fetched, [];
      var frontier := [x] + RunIdsOf(fetched);
      OutsideNone(held);
      GatheredNone(held);
      StartOfWorklist(x, fetched, held);
      while frontier != []
        invariant Valid() && pendingDrawsByStep.Values <= old(pendingDrawsByStep.Values)
        invariant Worklist(start, first, done, RunSet(frontier)) && held == Outside(first, done)
        invariant merged == fetched + absorbed && multiset(absorbed) == multiset(Inside(first, done))
        invariant Gathered(first, done, absorbed)
        decreases |held|, |frontier|
      {
        ghost var taken := done;
        var more;
        more, frontier, done := ExpandFrontier(frontier, start, first, done, absorbed);
        MergeMore(fetched, absorbed, more, first, taken, done);
        merged, absorbed := merged + more, absorbed + more;
      }
      WorklistDone(start, first, done);
    }

    /** One round: the draws held for the frontier's runs, and their runs as the next one. */
    method ExpandFrontier(frontier: seq<RunId>, ghost start: set<RunId>, ghost first: seq<Held>, ghost done: set<RunId>,
                          ghost absorbed: seq<Row>)
      returns (draws: seq<Row>, next: seq<RunId>, ghost done': set<RunId>)
      requires Valid() && frontier != [] && Gathered(first, done, absorbed)
      requires Worklist(start, first, done, RunSet(frontier)) && held == Outside(first, done)
      modifies this`pendingDrawsByParentRun, this`pendingDrawsByStep, this`held, pendingDrawsByStep.Values
      ensures Valid() && pendingDrawsByStep.Values <= old(pendingDrawsByStep.Values)
      ensures Worklist(start, first, done', RunSet(next)) && held == Outside(first, done')
      ensures multiset(Inside(first, done')) == multiset(Inside(first, done)) + multiset(draws)
      ensures |held| + |next| == |old(held)| && Gathered(first, done', absorbed + draws)
    {
      draws, next, done' := [], [], done;
      assert absorbed + [] == absorbed;
      for i := 0 to |frontier|
        invariant Valid() && pendingDrawsByStep.Values <= old(pendingDrawsByStep.Values)
        invariant Worklist(start, first, done', RunSet(frontier[i..]) + RunSet(next)) && held == Outside(first, done')
        invariant multiset(Inside(first, done')) == multiset(Inside(first, done)) + multiset(draws)
        invariant |held| + |next| == |old(held)| && Gathered(first, done', absorbed + draws)
      {
        var more := TakeRun(frontier[i]);
        GatheredMore(first, done', absorbed + draws, frontier[i], more);
        Regroup(absorbed, draws, more);
        TakenRound(start, first, done', frontier, i, next, more);
        draws, next, done' := draws + more, next + RunIdsOf(more), done' + {frontier[i]};
      }
      assert RunSet(frontier[|frontier|..]) == {};
    }
  }

  lemma OutcomeQuiets(s: State, x: RunId, outcome: string, reason: string,
      calls: seq<RunningCall>, tools: seq<RunningTool>)
    requires FindRun(s.runs, x) != -1
    ensures var swept := Closure({x}, calls);
            var runs := Finish(s, x, outcome, reason).runs;
            && runs != [] && runs[0].runId == x
            && (Quiet(runs[0], DropCalls(calls, swept), DropTools(tools, swept))
                <==> !HasStray(s.runs[FindRun(s.runs, x)], calls, tools))
  {
    var i := FindRun(s.runs, x);
    var changed := s.runs[i := s.runs[i].(outcome := Some(outcome), reason := Some(reason))];
    assert forall k :: 0 <= k < |changed| ==> changed[k].runId == s.runs[k].runId;
    assert FindRun(changed, x) == i;
    NothingLeftExactly(changed[i], calls, tools);
  }

  lemma TakenByParent(held: seq<Held>, x: RunId)
    ensures Outside(Without(held, ByParent(x)), {x}) == Outside(held, {x})
    ensures multiset(Select(held, ByParent(x))) + multiset(Inside(Without(held, ByParent(x)), {x}))
         == multiset(Inside(held, {x}))
    ensures forall h :: h in Without(held, ByParent(x)) ==> h in held
    ensures forall c :: Select(Without(held, ByParent(x)), ByStep(x, c)) == Select(held, ByStep(x, c))
  {
    WithoutOutside(held, ByParent(x), {x});
    WithoutInside(held, ByParent(x), {x});
    SelectWithout(held, ByParent(x));
    forall c ensures Select(Without(held, ByParent(x)), ByStep(x, c)) == Select(held, ByStep(x, c)) {
      SelectOther(held, ByParent(x), ByStep(x, c));
    }
  }

  /** One more run of the frontier is done, and the runs of its draws come next. */
  lemma TakenRound(start: set<RunId>, held: seq<Held>, done: set<RunId>, frontier: seq<RunId>, i: nat,
                   next: seq<RunId>, more: seq<Row>)
    requires i < |frontier| && Worklist(start, held, done, RunSet(frontier[i..]) + RunSet(next))
    requires multiset(more) == multiset(Inside(Outside(held, done), {frontier[i]}))
    ensures Worklist(start, held, done + {frontier[i]}, RunSet(frontier[i + 1..]) + RunSet(next + RunIdsOf(more)))
    ensures Outside(Outside(held, done), {frontier[i]}) == Outside(held, done + {frontier[i]})
    ensures multiset(Inside(held, done + {frontier[i]})) == multiset(Inside(held, done)) + multiset(more)
    ensures |Outside(held, done)| == |Outside(held, done + {frontier[i]})| + |more|
  {
    RunSetHead(frontier[i..]);
    RunSetConcat(next, RunIdsOf(more));
    assert frontier[i..][1..] == frontier[i + 1..];
    assert {frontier[i]} + (RunSet(frontier[i + 1..]) + RunSet(next)) == RunSet(frontier[i..]) + RunSet(next);
    TakenStep(start, held, done, frontier[i], RunSet(frontier[i + 1..]) + RunSet(next), more);
    assert RunSet(frontier[i + 1..]) + RunSet(next) + RunSet(RunIdsOf(more))
        == RunSet(frontier[i + 1..]) + RunSet(next + RunIdsOf(more));
  }

  lemma AboveChild(w: World, draw: Row, draining: set<RunId>)
    requires Follows(w, draw) && draw.parent.Some? && Rooted(w, draw.runId)
    requires forall x :: x in draining ==> Under(w, draw.parent.value, x)
    ensures forall x :: x in draining ==> x != draw.runId && Under(w, draw.runId, x)
  {
    forall x | x in draining ensures x != draw.runId && Under(w, draw.runId, x) {
      ChildIsNotAbove(w, draw.runId, x);
      UnderStep(w, draw.runId, x);
    }
  }
}
