/** A row whose parent is not a run of its own on screen: however often it is logged and
    however often it is held again, its copies stay in the order they were logged in, and
    the one that ends on screen is the newest. */
module NewestCopy {
  import opened Options
  import opened Rows
  import opened RunLog
  import opened LogStructure
  import opened LogInvariant
  import opened LeastClosure
  import opened Copies

  // ---------- the queue of a row's copies ----------

  /** All held copies of the row wait for the same thing. */
  ghost predicate OneKey(held: seq<Held>, id: int) {
    forall h, g :: h in held && g in held && h.draw.id == id && g.draw.id == id ==> h.key == g.key
  }

  /** The item comes before any copy that is in flight. */
  ghost predicate Before(t: Task, agenda: seq<Task>, id: int) {
    forall k: nat :: k < |agenda| && IsCopy(agenda[k], id) ==> t in agenda[..k]
  }

  /** What is about to drain a held copy comes before any copy that is in flight. */
  ghost predicate DrainsFirst(held: seq<Held>, agenda: seq<Task>, id: int) {
    forall h :: h in held && h.draw.id == id && DrainOf(h.key) in agenda ==> Before(DrainOf(h.key), agenda, id)
  }

  predicate IsCopy(t: Task, id: int) {
    t.Attach? && t.draw.id == id
  }

  /** A drain is on the agenda only once the row that it drains for is on screen. */
  ghost predicate Due(shown: set<Row>, agenda: seq<Task>) {
    forall t :: t in agenda ==>
      match t
      case Attach(_) => true
      case DrainParent(x) => HasRow(shown, x)
      case DrainStep(x, c) => Dispatched(shown, x, c)
  }

  ghost predicate Queued(s: State, agenda: seq<Task>, id: int) {
    OneKey(s.held, id) && DrainsFirst(s.held, agenda, id) && Due(Shown(s.runs), agenda)
  }

  /** The copy at the end of the queue: the last in flight, else the last held, else the one
      on screen. */
  ghost function Newest(s: State, agenda: seq<Task>, id: int): set<Row> {
    var flying, waiting := LastOf(InFlight(agenda), id), LastHeld(s.held, id);
    if flying.Some? then {flying.value} else if waiting.Some? then {waiting.value} else CopiesOf(s.runs, id)
  }

  /** The row is an own prompt, or a draw of a run that is itself a draw. */
  ghost predicate Nested(w: World, id: int) {
    w.logged(id).parent.Some? ==> w.parentOf(w.logged(id).parent.value).Some?
  }

  // ---------- one item of the agenda ----------

  lemma FlightFirst(t: Task, rest: seq<Task>)
    ensures InFlight([t] + rest) == if t.Attach? then [t.draw] + InFlight(rest) else InFlight(rest)
  {
    assert ([t] + rest)[1..] == rest;
  }

  lemma ReleasedFlight(released: seq<Row>, rest: seq<Task>, id: int)
    ensures LastOf(InFlight(AttachAll(released) + rest), id)
         == if LastOf(InFlight(rest), id).Some? then LastOf(InFlight(rest), id) else LastOf(released, id)
  {
    InFlightConcat(AttachAll(released), rest);
    InFlightAttachAll(released);
    LastOfConcat(released, InFlight(rest), id);
  }

  lemma Released(held: seq<Held>, key: Key, id: int)
    requires OneKey(held, id)
    ensures (LastOf(Select(held, key), id) == None && LastHeld(Without(held, key), id) == LastHeld(held, id))
         || (LastOf(Select(held, key), id) == LastHeld(held, id) && LastHeld(Without(held, key), id) == None)
  {
    if exists h :: h in held && h.draw.id == id && h.key == key {
      ReleaseLast(held, key, id);
    } else {
      ReleaseOthers(held, key, id);
    }
  }

  lemma DrainNewest(s: State, key: Key, rest: seq<Task>, id: int)
    requires OneKey(s.held, id)
    ensures Newest(Release(s, key).0, Release(s, key).1 + rest, id) == Newest(s, [DrainOf(key)] + rest, id)
  {
    FlightFirst(DrainOf(key), rest);
    ReleasedFlight(Select(s.held, key), rest, id);
    Released(s.held, key, id);
  }

  lemma DrainQueued(s: State, key: Key, rest: seq<Task>, id: int)
    requires Queued(s, [DrainOf(key)] + rest, id)
    ensures Queued(Release(s, key).0, Release(s, key).1 + rest, id)
    ensures Newest(Release(s, key).0, Release(s, key).1 + rest, id) == Newest(s, [DrainOf(key)] + rest, id)
  {
    var more := AttachAll(Select(s.held, key));
    DrainNewest(s, key, rest, id);
    SelectWithout(s.held, key);
    assert forall t :: t in rest ==> t in [DrainOf(key)] + rest;
    forall h | h in Without(s.held, key) && h.draw.id == id && DrainOf(h.key) in more + rest
      ensures Before(DrainOf(h.key), more + rest, id)
    {
      ReleasedElsewhere(s.held, key, h, id);
      StaysBefore(DrainOf(key), more, rest, DrainOf(h.key), id);
    }
  }

  /** Other tasks may take the place of the first one, as long as no copy is among them. */
  lemma StaysBefore(first: Task, more: seq<Task>, rest: seq<Task>, t: Task, id: int)
    requires Before(t, [first] + rest, id) && t != first && forall u :: u in more ==> !IsCopy(u, id)
    ensures Before(t, more + rest, id)
  {
    forall k: nat | k < |more + rest| && IsCopy((more + rest)[k], id) ensures t in (more + rest)[..k] {
      assert forall i :: 0 <= i < |more| ==> (more + rest)[i] == more[i] && more[i] in more;
      assert k >= |more|;
      var j := k - |more|;
      assert (more + rest)[k] == rest[j] && ([first] + rest)[j + 1] == rest[j];
      InPrefix(rest, more, first, t, j);
    }
  }

  lemma NewBefore(more: seq<Task>, rest: seq<Task>, t: Task, id: int)
    requires t in more && forall u :: u in more ==> !IsCopy(u, id)
    ensures Before(t, more + rest, id)
  {
    forall k: nat | k < |more + rest| && IsCopy((more + rest)[k], id) ensures t in (more + rest)[..k] {
      assert forall i :: 0 <= i < |more| ==> (more + rest)[i] == more[i] && more[i] in more;
      var i :| 0 <= i < |more| && more[i] == t;
      assert (more + rest)[..k][i] == t;
    }
  }

  /** When a copy stays held, none was released. */
  lemma ReleasedElsewhere(held: seq<Held>, key: Key, h: Held, id: int)
    requires OneKey(held, id) && h in Without(held, key) && h.draw.id == id
    ensures h in held && h.key != key && DrainOf(h.key) != DrainOf(key)
    ensures forall draw :: draw in Select(held, key) ==> draw.id != id
  {
    SelectWithout(held, key);
    forall draw | draw in Select(held, key) ensures draw.id != id {
      assert Held(key, draw) in held;
    }
  }

  lemma InPrefix(rest: seq<Task>, more: seq<Task>, first: Task, t: Task, j: nat)
    requires j <= |rest| && t != first && t in ([first] + rest)[..j + 1]
    ensures t in (more + rest)[..|more| + j]
  {
    var i :| 0 <= i < j + 1 && ([first] + rest)[i] == t;
    assert (more + rest)[|more| + i - 1] == t;
  }

  lemma HoldQueued(s: State, key: Key, draw: Row, rest: seq<Task>, id: int)
    requires Queued(s, [Attach(draw)] + rest, id)
    requires draw.id == id ==> DrainOf(key) !in rest && forall h :: h in s.held && h.draw.id == id ==> h.key == key
    ensures Queued(Hold(s, key, draw), rest, id)
    ensures Newest(Hold(s, key, draw), rest, id) == Newest(s, [Attach(draw)] + rest, id)
  {
    var held := s.held + [Held(key, draw)];
    assert forall h :: h in held <==> h in s.held || h == Held(key, draw);
    FlightFirst(Attach(draw), rest);
    LastOfConcat([draw], InFlight(rest), id);
    LastHeldAppend(s.held, Held(key, draw), id);
    RestQueued(s, draw, [], rest, id);
    assert [] + rest == rest;
  }

  /** New drains go before everything else on the agenda. */
  lemma RestQueued(s: State, draw: Row, more: seq<Task>, rest: seq<Task>, id: int)
    requires Queued(s, [Attach(draw)] + rest, id) && forall t :: t in more ==> !t.Attach?
    ensures DrainsFirst(s.held, more + rest, id) && Due(Shown(s.runs), rest)
  {
    assert forall t :: t in rest ==> t in [Attach(draw)] + rest;
    forall h | h in s.held && h.draw.id == id && DrainOf(h.key) in more + rest
      ensures Before(DrainOf(h.key), more + rest, id)
    {
      if DrainOf(h.key) in more {
        NewBefore(more, rest, DrainOf(h.key), id);
      } else {
        StaysBefore(Attach(draw), more, rest, DrainOf(h.key), id);
      }
    }
  }

  lemma PlaceQueued(s: State, s': State, draw: Row, rest: seq<Task>, id: int)
    requires Queued(s, [Attach(draw)] + rest, id) && s'.held == s.held
    requires Shown(s'.runs) == Shown(s.runs) + {Core(draw)}
    requires CopiesOf(s'.runs, id) == if draw.id == id then {draw} else CopiesOf(s.runs, id)
    requires draw.id == id ==> LastHeld(s.held, id) == None
    ensures Queued(s', Drains(draw) + rest, id)
    ensures Newest(s', Drains(draw) + rest, id) == Newest(s, [Attach(draw)] + rest, id)
  {
    RestQueued(s, draw, Drains(draw), rest, id);
    FlightFirst(Attach(draw), rest);
    LastOfConcat([draw], InFlight(rest), id);
    InFlightConcat(Drains(draw), rest);
    InFlightDrains(draw);
    assert [] + InFlight(rest) == InFlight(rest);
    DrainsDue(Shown(s.runs), draw, rest);
  }

  lemma DrainsDue(shown: set<Row>, row: Row, rest: seq<Task>)
    requires Due(shown, rest)
    ensures Due(shown + {Core(row)}, Drains(row) + rest)
  {
    var after := shown + {Core(row)};
    assert Core(row).runId == row.runId && ToolCallIds(Core(row)) == ToolCallIds(row);
    forall t | t in Drains(row) + rest ensures Due(after, [t]) {
      if t in rest {
        assert Due(shown, [t]);
      }
      assert Core(row) in after;
    }
  }

  /** Whatever the container search says of a copy, the queue keeps its order. */
  lemma AttachQueued(w: World, s: State, draw: Row, rest: seq<Task>, received: set<Row>, id: int)
    requires Inv(w, s, [Attach(draw)] + rest, received) && Queued(s, [Attach(draw)] + rest, id) && Nested(w, id)
    ensures Queued(Do(s, Attach(draw)).0, Do(s, Attach(draw)).1 + rest, id)
    ensures Newest(Do(s, Attach(draw)).0, Do(s, Attach(draw)).1 + rest, id) == Newest(s, [Attach(draw)] + rest, id)
  {
    hide Structure, Queued, Newest;
    assert Attach(draw) in [Attach(draw)] + rest;
    FindContainerSome(w, s.runs, draw.parent.value);
    var c := FindContainer(s.runs, draw.parent.value);
    assert [] + rest == rest;
    if draw.id == id {
      CopyParent(w, s, draw);
    }
    if c.None? {
      HeldByParentQueued(w, s, draw, rest, id);
    } else {
      WaitsExactly(w, s.runs, draw);
      if WaitsForStep(c.value.rows, draw) {
        HeldByStepQueued(w, s, draw, rest, id);
      } else {
        PlacedQueued(w, s, draw, rest, id);
      }
    }
  }

  lemma HeldByParentQueued(w: World, s: State, draw: Row, rest: seq<Task>, id: int)
    requires HeldOk(w, Hosts(s.runs), Shown(s.runs), [Attach(draw)] + rest, s.held)
    requires Queued(s, [Attach(draw)] + rest, id) && Follows(w, draw) && draw.parent.Some?
    requires draw.id == id ==> draw.parent.value !in Hosts(s.runs) && !HasRow(Shown(s.runs), draw.parent.value)
    ensures Queued(Hold(s, ByParent(draw.parent.value), draw), rest, id)
    ensures Newest(Hold(s, ByParent(draw.parent.value), draw), rest, id) == Newest(s, [Attach(draw)] + rest, id)
  {
    if draw.id == id {
      HeldWithParent(w, s, draw, rest, id);
    }
    HoldQueued(s, ByParent(draw.parent.value), draw, rest, id);
  }

  lemma HeldByStepQueued(w: World, s: State, draw: Row, rest: seq<Task>, id: int)
    requires HeldOk(w, Hosts(s.runs), Shown(s.runs), [Attach(draw)] + rest, s.held)
    requires Queued(s, [Attach(draw)] + rest, id) && Follows(w, draw) && draw.parent.Some? && draw.anchor.Some?
    requires draw.id == id ==> HasRow(Shown(s.runs), draw.parent.value)
    requires !Dispatched(Shown(s.runs), draw.parent.value, draw.anchor.value)
    ensures Queued(Hold(s, ByStep(draw.parent.value, draw.anchor.value), draw), rest, id)
    ensures Newest(Hold(s, ByStep(draw.parent.value, draw.anchor.value), draw), rest, id)
            == Newest(s, [Attach(draw)] + rest, id)
  {
    if draw.id == id {
      HeldWithStep(w, s, draw, rest, id);
    }
    HoldQueued(s, ByStep(draw.parent.value, draw.anchor.value), draw, rest, id);
  }

  lemma PlacedQueued(w: World, s: State, draw: Row, rest: seq<Task>, id: int)
    requires Structure(w, s.runs) && HeldOk(w, Hosts(s.runs), Shown(s.runs), [Attach(draw)] + rest, s.held)
    requires Queued(s, [Attach(draw)] + rest, id) && Follows(w, draw) && draw.parent.Some?
    requires FindContainer(s.runs, draw.parent.value).Some?
    requires draw.id == id ==> HasRow(Shown(s.runs), draw.parent.value)
    requires draw.anchor.Some? ==> Dispatched(Shown(s.runs), draw.parent.value, draw.anchor.value)
    ensures var placed := Place(s, FindContainer(s.runs, draw.parent.value).value.index, draw);
            && Queued(placed, Drains(draw) + rest, id)
            && Newest(placed, Drains(draw) + rest, id) == Newest(s, [Attach(draw)] + rest, id)
  {
    hide Structure;
    if draw.id == id {
      HeldWithStep(w, s, draw, rest, id);
      LastHeldMember(s.held, id);
    }
    PlaceStructure(w, s, draw);
    PlaceCopies(w, s, draw, id);
    PlaceQueued(s, Place(s, FindContainer(s.runs, draw.parent.value).value.index, draw), draw, rest, id);
  }

  /** The parent of a nested draw is never a run of its own on screen. */
  lemma CopyParent(w: World, s: State, draw: Row)
    requires Structure(w, s.runs) && Follows(w, draw) && draw.parent.Some? && Nested(w, draw.id)
    ensures draw.parent.value !in Hosts(s.runs)
  {
    assert Core(draw).parent == draw.parent;
    if draw.parent.value in Hosts(s.runs) {
      HostsAreRoots(w, s.runs, draw.parent.value);
    }
  }

  lemma CopiesAgree(w: World, draw: Row, copy: Row)
    requires Follows(w, draw) && Follows(w, copy) && draw.id == copy.id
    ensures draw.parent == copy.parent && draw.anchor == copy.anchor
  {
    assert Core(draw).parent == draw.parent && Core(copy).parent == copy.parent;
    assert Core(draw).anchor == draw.anchor && Core(copy).anchor == copy.anchor;
  }

  /** Before the parent is on screen, every copy waits for the parent. */
  lemma HeldWithParent(w: World, s: State, draw: Row, rest: seq<Task>, id: int)
    requires HeldOk(w, Hosts(s.runs), Shown(s.runs), [Attach(draw)] + rest, s.held)
            && Due(Shown(s.runs), [Attach(draw)] + rest)
    requires Follows(w, draw) && draw.parent.Some? && draw.id == id
    requires draw.parent.value !in Hosts(s.runs) && !HasRow(Shown(s.runs), draw.parent.value)
    ensures forall h :: h in s.held && h.draw.id == id ==> h.key == ByParent(draw.parent.value)
    ensures DrainParent(draw.parent.value) !in rest
  {
    forall h | h in s.held && h.draw.id == id ensures h.key == ByParent(draw.parent.value) {
      CopiesAgree(w, draw, h.draw);
      assert Waits(Hosts(s.runs), Shown(s.runs), [Attach(draw)] + rest, h);
    }
    assert forall t :: t in rest ==> t in [Attach(draw)] + rest;
  }

  /** Once it is, every copy waits for the step, and none waits when the step is there. */
  lemma HeldWithStep(w: World, s: State, draw: Row, rest: seq<Task>, id: int)
    requires HeldOk(w, Hosts(s.runs), Shown(s.runs), [Attach(draw)] + rest, s.held)
            && Queued(s, [Attach(draw)] + rest, id)
    requires Follows(w, draw) && draw.parent.Some? && draw.id == id
    requires HasRow(Shown(s.runs), draw.parent.value)
    ensures forall h :: h in s.held && h.draw.id == id ==>
              && draw.anchor.Some? && h.key == ByStep(draw.parent.value, draw.anchor.value)
              && !Dispatched(Shown(s.runs), draw.parent.value, draw.anchor.value)
    ensures draw.anchor.Some? && !Dispatched(Shown(s.runs), draw.parent.value, draw.anchor.value) ==>
              DrainStep(draw.parent.value, draw.anchor.value) !in rest
  {
    var agenda := [Attach(draw)] + rest;
    forall h | h in s.held && h.draw.id == id
      ensures draw.anchor.Some? && h.key == ByStep(draw.parent.value, draw.anchor.value)
      ensures !Dispatched(Shown(s.runs), draw.parent.value, draw.anchor.value)
    {
      CopiesAgree(w, draw, h.draw);
      assert Waits(Hosts(s.runs), Shown(s.runs), agenda, h);
      NotDrained(s, draw, rest, h, id);
    }
    assert forall t :: t in rest ==> t in agenda;
  }

  /** No drain of a held copy is pending when another copy is the next item. */
  lemma NotDrained(s: State, draw: Row, rest: seq<Task>, h: Held, id: int)
    requires DrainsFirst(s.held, [Attach(draw)] + rest, id) && h in s.held && h.draw.id == id && draw.id == id
    ensures DrainOf(h.key) !in [Attach(draw)] + rest
  {
    var agenda := [Attach(draw)] + rest;
    assert IsCopy(agenda[0], id) && agenda[..0] == [];
  }

  lemma {:induction false} WorkNewest(w: World, s: State, agenda: seq<Task>, received: set<Row>, id: int)
    requires Inv(w, s, agenda, received) && Queued(s, agenda, id) && Nested(w, id)
    ensures Queued(Work(s, agenda), [], id) && Newest(Work(s, agenda), [], id) == Newest(s, agenda, id)
    decreases |s.held| + |InFlight(agenda)|, |agenda| - |InFlight(agenda)|, |InFlight(agenda)|
  {
    hide Inv, Queued, Newest;
    if agenda != [] {
      assert agenda == [agenda[0]] + agenda[1..];
      FirstNewest(w, s, agenda[0], agenda[1..], received, id);
      DoDecreases(s, agenda);
      InFlightLength(agenda);
      WorkNewest(w, Do(s, agenda[0]).0, Do(s, agenda[0]).1 + agenda[1..], received, id);
    }
  }

  lemma FirstNewest(w: World, s: State, t: Task, rest: seq<Task>, received: set<Row>, id: int)
    requires Inv(w, s, [t] + rest, received) && Queued(s, [t] + rest, id) && Nested(w, id)
    ensures Inv(w, Do(s, t).0, Do(s, t).1 + rest, received)
    ensures Queued(Do(s, t).0, Do(s, t).1 + rest, id)
    ensures Newest(Do(s, t).0, Do(s, t).1 + rest, id) == Newest(s, [t] + rest, id)
  {
    hide Inv, Queued, Newest;
    DoKeeps(w, s, t, rest, received);
    match t
    case DrainParent(x) => DrainQueued(s, ByParent(x), rest, id);
    case DrainStep(x, c) => DrainQueued(s, ByStep(x, c), rest, id);
    case Attach(draw) => AttachQueued(w, s, draw, rest, received, id);
  }

  // ---------- whole streams ----------

  /** The copy of a row that was logged last. */
  ghost function Logs(messages: seq<Message>, id: int): Option<Row> {
    if messages == [] then None
    else
      var m := messages[|messages| - 1];
      if m.Logged? && m.row.id == id then Some(m.row) else Logs(messages[..|messages| - 1], id)
  }

  ghost function AsSet(copy: Option<Row>): set<Row> {
    if copy.Some? then {copy.value} else {}
  }

  lemma {:induction false} StreamNewest(w: World, messages: seq<Message>, id: int)
    requires Consistent(w, messages) && Nested(w, id)
    ensures Queued(Play(messages), [], id) && Newest(Play(messages), [], id) == AsSet(Logs(messages, id))
  {
    if messages != [] {
      var before, m := messages[..|messages| - 1], messages[|messages| - 1];
      StreamNewest(w, before, id);
      PlayKeeps(w, before);
      MessageNewest(w, Play(before), m, Received(before), id);
    }
  }

  lemma MessageNewest(w: World, s: State, m: Message, received: set<Row>, id: int)
    requires Inv(w, s, [], received) && Queued(s, [], id) && Nested(w, id)
    requires (m.Logged? ==> Follows(w, m.row)) && (m.Started? ==> w.parentOf(m.run) == None)
    ensures Queued(Handle(s, m), [], id)
    ensures Newest(Handle(s, m), [], id) == if m.Logged? && m.row.id == id then {m.row} else Newest(s, [], id)
  {
    hide Inv, HandleRow;
    match m
    case Started(x, at) => StartCopies(s, x, at, id);
    case Ended(x, outcome, reason) => FinishCopies(s, x, outcome, reason, id);
    case Logged(row) =>
      if row.parent.Some? {
        DrawNewest(w, s, row, received, id);
      } else {
        OwnPromptNewest(w, s, row, received, id);
      }
  }

  lemma DrawNewest(w: World, s: State, row: Row, received: set<Row>, id: int)
    requires Inv(w, s, [], received) && Queued(s, [], id) && Nested(w, id) && Follows(w, row) && row.parent.Some?
    ensures Queued(HandleRow(s, row), [], id)
    ensures Newest(HandleRow(s, row), [], id) == if row.id == id then {row} else Newest(s, [], id)
  {
    AddAttach(w, s, row, received);
    assert Queued(s, [Attach(row)], id);
    WorkNewest(w, s, [Attach(row)], received + {Core(row)}, id);
    FlightFirst(Attach(row), []);
    assert [Attach(row)] + [] == [Attach(row)];
  }

  lemma OwnPromptNewest(w: World, s: State, p: Row, received: set<Row>, id: int)
    requires Inv(w, s, [], received) && Queued(s, [], id) && Nested(w, id) && Follows(w, p) && p.parent == None
    ensures Queued(HandleRow(s, p), [], id)
    ensures Newest(HandleRow(s, p), [], id) == if p.id == id then {p} else Newest(s, [], id)
  {
    hide Structure;
    var s' := ShowPrompt(s, p);
    ShowPromptStructure(w, s, p);
    ShowKeeps(w, s, s', p, [], received);
    assert Drains(p) + [] == Drains(p);
    PromptQueued(w, s, p, received, id);
    WorkNewest(w, s', Drains(p), received + {Core(p)}, id);
  }

  lemma PromptQueued(w: World, s: State, p: Row, received: set<Row>, id: int)
    requires Inv(w, s, [], received) && Queued(s, [], id) && Follows(w, p) && p.parent == None
    ensures Queued(ShowPrompt(s, p), Drains(p), id)
    ensures Newest(ShowPrompt(s, p), Drains(p), id) == if p.id == id then {p} else Newest(s, [], id)
  {
    hide Queued, Newest, ShowPrompt;
    ShowPromptStructure(w, s, p);
    PromptCopies(w, s, p, id);
    PromptHeld(s, p);
    if p.id == id {
      NeverHeld(w, s, p, received);
    }
    ShownQueued(s, ShowPrompt(s, p), p, id);
  }

  lemma PromptHeld(s: State, p: Row)
    ensures ShowPrompt(s, p).held == s.held
  {
  }

  lemma ShownQueued(s: State, s': State, p: Row, id: int)
    requires Queued(s, [], id) && s'.held == s.held
    requires Shown(s'.runs) == Shown(s.runs) + {Core(p)}
    requires CopiesOf(s'.runs, id) == if p.id == id then {p} else CopiesOf(s.runs, id)
    requires p.id == id ==> LastHeld(s.held, id) == None
    ensures Queued(s', Drains(p), id)
    ensures Newest(s', Drains(p), id) == if p.id == id then {p} else Newest(s, [], id)
  {
    DrainsDue(Shown(s.runs), p, []);
    assert Drains(p) + [] == Drains(p);
    InFlightDrains(p);
    assert forall t :: t in Drains(p) ==> !t.Attach?;
    assert DrainsFirst(s.held, Drains(p), id);
  }

  /** An own prompt is never held. */
  lemma NeverHeld(w: World, s: State, p: Row, received: set<Row>)
    requires Inv(w, s, [], received) && Follows(w, p) && p.parent == None
    ensures LastHeld(s.held, p.id) == None
  {
    LastHeldMember(s.held, p.id);
    forall h | h in s.held ensures h.draw.id != p.id {
      assert Waits(Hosts(s.runs), Shown(s.runs), [], h);
      if h.draw.id == p.id {
        CopiesAgree(w, p, h.draw);
      }
    }
  }
}
