/** The single-flight generator of image_server/server.py: any number of request threads,
    interleaved at will, over one lock taken without blocking. */
module ImageServer {
  import opened Options

  /** How `generate` ends: with an image, with an ImageGenerationError, with anything else. */
  datatype Outcome = Image | Failed | Crashed

  /** How the cache release ends; an exception of its own replaces the generation's. */
  datatype Release = Freed | ReleaseFailed | ReleaseCrashed

  function Ending(o: Outcome, r: Release): Outcome {
    match r
    case Freed => o
    case ReleaseFailed => Failed
    case ReleaseCrashed => Crashed
  }

  /** Where a request's thread stands; `sent` says whether writing the response went through
      (no response at all is None). */
  datatype Phase =
    | Arrived
    | Refusing
    | TurnedAway(written: bool)
    | Generating
    | Releasing(o: Outcome)
    | Responding(o: Outcome, r: Release)
    | Unlocking(o: Outcome, r: Release, sent: Option<bool>)
    | Finished(o: Outcome, r: Release, sent: Option<bool>)

  datatype Event =
    | Refused
    | AnsweredBusy(status: int, written: bool)
    | Acquired
    | Generated(o: Outcome)
    | CacheReleased(r: Release)
    | Responded(status: int, written: bool)
    | Unlocked

  datatype Entry = Entry(request: nat, event: Event)

  /** The shared lock, the threads, and everything that they did, in order. */
  datatype State = State(lock: bool, phases: seq<Phase>, log: seq<Entry>)

  datatype Step =
    | Arrive
    | Take(t: nat)
    | AnswerBusy(t: nat, written: bool)
    | Generate(t: nat, o: Outcome)
    | ReleaseCache(t: nat, r: Release)
    | Respond(t: nat, written: bool)
    | Unlock(t: nat)

  predicate Enabled(s: State, step: Step) {
    match step
    case Arrive => true
    case Take(t) => t < |s.phases| && s.phases[t].Arrived?
    case AnswerBusy(t, _) => t < |s.phases| && s.phases[t].Refusing?
    case Generate(t, _) => t < |s.phases| && s.phases[t].Generating?
    case ReleaseCache(t, _) => t < |s.phases| && s.phases[t].Releasing?
    case Respond(t, _) => t < |s.phases| && s.phases[t].Responding?
    case Unlock(t) => t < |s.phases| && s.phases[t].Unlocking?
  }

  function Moved(s: State, t: nat, p: Phase, e: Event, lock: bool): State
    requires t < |s.phases|
  {
    State(lock, s.phases[t := p], s.log + [Entry(t, e)])
  }

  function Do(s: State, step: Step): State
    requires Enabled(s, step)
  {
    match step
    case Arrive => s.(phases := s.phases + [Arrived])
    case Take(t) => if s.lock then Moved(s, t, Refusing, Refused, true) else Moved(s, t, Generating, Acquired, true)
    case AnswerBusy(t, written) => Moved(s, t, TurnedAway(written), AnsweredBusy(503, written), s.lock)
    case Generate(t, o) => Moved(s, t, Releasing(o), Generated(o), s.lock)
    case ReleaseCache(t, r) =>
      var o := s.phases[t].o;
      var p := if Ending(o, r).Crashed? then Unlocking(o, r, None) else Responding(o, r);
      Moved(s, t, p, CacheReleased(r), s.lock)
    case Respond(t, written) =>
      var Responding(o, r) := s.phases[t];
      Moved(s, t, Unlocking(o, r, Some(written)), Responded(Status(Ending(o, r)), written), s.lock)
    case Unlock(t) =>
      var Unlocking(o, r, sent) := s.phases[t];
      Moved(s, t, Finished(o, r, sent), Unlocked, false)
  }

  function Status(ending: Outcome): int {
    if ending.Image? then 200 else 500
  }

  const IDLE := State(false, [], [])

  predicate Possible(s: State, steps: seq<Step>)
    decreases |steps|
  {
    steps == [] || (Enabled(s, steps[0]) && Possible(Do(s, steps[0]), steps[1..]))
  }

  function Run(s: State, steps: seq<Step>): State
    requires Possible(s, steps)
    decreases |steps|
  {
    if steps == [] then s else Run(Do(s, steps[0]), steps[1..])
  }

  // ---------- what a request may have done ----------

  /** Between taking the lock and giving it back. */
  predicate Inside(s: State, t: nat) {
    t < |s.phases| && IsInside(s.phases[t])
  }

  predicate IsInside(p: Phase) {
    p.Generating? || p.Releasing? || p.Responding? || p.Unlocking?
  }

  predicate UnderLock(e: Event) {
    !e.Refused? && !e.AnsweredBusy?
  }

  /** A whole section: the generation, exactly one cache release after it, then the response
      if the section has one, and the lock last. */
  function Section(o: Outcome, r: Release, sent: Option<bool>): seq<Event> {
    [Acquired, Generated(o), CacheReleased(r)]
    + (if sent.Some? then [Responded(Status(Ending(o, r)), sent.value)] else [])
    + [Unlocked]
  }

  /** The part of its section that a request in this phase has behind it. */
  function Behind(p: Phase): seq<Event> {
    match p
    case Arrived => []
    case Refusing => [Refused]
    case TurnedAway(written) => [Refused, AnsweredBusy(503, written)]
    case Generating => [Acquired]
    case Releasing(o) => [Acquired, Generated(o)]
    case Responding(o, r) => [Acquired, Generated(o), CacheReleased(r)]
    case Unlocking(o, r, sent) => Section(o, r, sent)[..|Section(o, r, sent)| - 1]
    case Finished(o, r, sent) => Section(o, r, sent)
  }

  function EventsOf(log: seq<Entry>, t: nat): seq<Event> {
    if log == [] then []
    else
      var last := log[|log| - 1];
      EventsOf(log[..|log| - 1], t) + (if last.request == t then [last.event] else [])
  }

  lemma EventsOfAppend(log: seq<Entry>, entry: Entry, t: nat)
    ensures EventsOf(log + [entry], t) == EventsOf(log, t) + (if entry.request == t then [entry.event] else [])
  {
    assert (log + [entry])[..|log|] == log;
  }

  // ---------- what every interleaving keeps ----------

  /** The lock is held exactly while some request is inside, and never by two. */
  ghost predicate Exclusive(s: State) {
    && (s.lock <==> exists t: nat :: Inside(s, t))
    && (forall t: nat, u: nat :: Inside(s, t) && Inside(s, u) ==> t == u)
  }

  ghost predicate Histories(s: State) {
    && (forall t: nat :: t < |s.phases| ==> EventsOf(s.log, t) == Behind(s.phases[t]))
    && (forall i: nat :: i < |s.log| ==> s.log[i].request < |s.phases|)
    && (forall t: nat :: t < |s.phases| && (s.phases[t].Unlocking? || s.phases[t].Finished?) ==>
          (s.phases[t].sent == None <==> Ending(s.phases[t].o, s.phases[t].r).Crashed?))
    && (forall t: nat :: t < |s.phases| && s.phases[t].Responding? ==> !Ending(s.phases[t].o, s.phases[t].r).Crashed?)
  }

  ghost predicate UnlockedFrom(log: seq<Entry>, i: nat, end: nat) {
    exists k: nat :: i <= k < end && k < |log| && i < |log| && log[k] == Entry(log[i].request, Unlocked)
  }

  /** Whoever did something under the lock is still inside or has unlocked since. */
  ghost predicate Settled(s: State) {
    forall i: nat :: i < |s.log| && UnderLock(s.log[i].event) ==>
      Inside(s, s.log[i].request) || UnlockedFrom(s.log, i, |s.log|)
  }

  /** Sections never overlap: between two requests' doings under the lock, the first unlocked. */
  ghost predicate Serial(log: seq<Entry>) {
    forall i: nat, j: nat ::
      (i < j < |log| && UnderLock(log[i].event) && UnderLock(log[j].event) && log[i].request != log[j].request) ==>
        UnlockedFrom(log, i, j)
  }

  ghost predicate Inv(s: State) {
    Exclusive(s) && Histories(s) && Settled(s) && Serial(s.log)
  }

  lemma MovedHistories(s: State, t: nat, p: Phase, e: Event, lock: bool)
    requires Histories(s) && t < |s.phases|
    requires Behind(p) == Behind(s.phases[t]) + [e]
    requires p.Unlocking? || p.Finished? ==> (p.sent == None <==> Ending(p.o, p.r).Crashed?)
    requires p.Responding? ==> !Ending(p.o, p.r).Crashed?
    ensures Histories(Moved(s, t, p, e, lock))
  {
    hide Behind, Ending;
    var after := Moved(s, t, p, e, lock);
    forall u: nat | u < |after.phases| ensures EventsOf(after.log, u) == Behind(after.phases[u]) {
      EventsOfAppend(s.log, Entry(t, e), u);
      if u != t {
        assert EventsOf(s.log, u) + [] == EventsOf(s.log, u);
      }
    }
  }

  lemma UnlockedStays(log: seq<Entry>, entry: Entry, i: nat, end: nat)
    requires i < |log| && end <= |log| && UnlockedFrom(log, i, end)
    ensures UnlockedFrom(log + [entry], i, end)
  {
    var k: nat :| i <= k < end && k < |log| && i < |log| && log[k] == Entry(log[i].request, Unlocked);
    assert (log + [entry])[k] == log[k] && (log + [entry])[i] == log[i];
  }

  /** A move under the lock is made by the one request inside, or by the one that enters. */
  lemma MovedSerial(s: State, t: nat, p: Phase, e: Event, lock: bool)
    requires Settled(s) && Serial(s.log) && t < |s.phases|
    requires UnderLock(e) ==> forall u: nat :: Inside(s, u) ==> u == t
    ensures Serial(Moved(s, t, p, e, lock).log)
  {
    var log := s.log;
    var entry := Entry(t, e);
    forall i: nat, j: nat | i < j < |log + [entry]| && UnderLock((log + [entry])[i].event)
        && UnderLock((log + [entry])[j].event)
                            && (log + [entry])[i].request != (log + [entry])[j].request
      ensures UnlockedFrom(log + [entry], i, j)
    {
      assert log[i] == (log + [entry])[i];
      if j < |log| {
        assert log[j] == (log + [entry])[j];
      }
      UnlockedStays(log, entry, i, j);
    }
  }

  lemma MovedSettled(s: State, t: nat, p: Phase, e: Event, lock: bool)
    requires Settled(s) && t < |s.phases|
    requires UnderLock(e) ==> IsInside(p) || e == Unlocked
    requires IsInside(s.phases[t]) ==> IsInside(p) || e == Unlocked
    ensures Settled(Moved(s, t, p, e, lock))
  {
    var after := Moved(s, t, p, e, lock);
    forall i: nat | i < |after.log| && UnderLock(after.log[i].event)
      ensures Inside(after, after.log[i].request) || UnlockedFrom(after.log, i, |after.log|)
    {
      assert after.log[|s.log|] == Entry(t, e);
      if i < |s.log| {
        assert after.log[i] == s.log[i];
        if UnlockedFrom(s.log, i, |s.log|) {
          var k: nat :| i <= k < |s.log| && s.log[k] == Entry(s.log[i].request, Unlocked);
          assert after.log[k] == s.log[k];
        }
      }
    }
  }

  lemma MovedExclusive(s: State, t: nat, p: Phase, e: Event, lock: bool)
    requires Exclusive(s) && t < |s.phases|
    requires IsInside(p) ==> (IsInside(s.phases[t]) || !s.lock) && lock
    requires !IsInside(p) ==> lock == (s.lock && !IsInside(s.phases[t]))
    ensures Exclusive(Moved(s, t, p, e, lock))
  {
    var after := Moved(s, t, p, e, lock);
    forall u: nat ensures Inside(after, u) <==> if u == t then IsInside(p) else Inside(s, u) {
    }
    if IsInside(p) {
      assert Inside(after, t);
    } else if lock {
      var u: nat :| Inside(s, u);
      assert Inside(after, u);
    } else if IsInside(s.phases[t]) {
      assert Inside(s, t);
    }
  }

  lemma ArriveKeeps(s: State)
    requires Inv(s)
    ensures Inv(Do(s, Arrive))
  {
    var after := Do(s, Arrive);
    forall u: nat ensures Inside(after, u) <==> Inside(s, u) {
    }
    NeverSeen(s.log, |s.phases|);
  }

  lemma {:induction false} NeverSeen(log: seq<Entry>, t: nat)
    requires forall i: nat :: i < |log| ==> log[i].request != t
    ensures EventsOf(log, t) == []
  {
    if log != [] {
      NeverSeen(log[..|log| - 1], t);
    }
  }

  /** The lock of Exclusive, seen by a thread that is inside: nobody else is. */
  lemma AloneInside(s: State, t: nat)
    requires Exclusive(s) && t < |s.phases| && (Inside(s, t) || !s.lock)
    ensures forall u: nat :: Inside(s, u) ==> u == t
  {
  }

  lemma MoveKeeps(s: State, t: nat, p: Phase, e: Event, lock: bool)
    requires Inv(s) && t < |s.phases|
    requires Behind(p) == Behind(s.phases[t]) + [e]
    requires p.Unlocking? || p.Finished? ==> (p.sent == None <==> Ending(p.o, p.r).Crashed?)
    requires p.Responding? ==> !Ending(p.o, p.r).Crashed?
    requires UnderLock(e) ==> (IsInside(p) || e == Unlocked) && (IsInside(s.phases[t]) || !s.lock)
    requires IsInside(s.phases[t]) ==> IsInside(p) || e == Unlocked
    requires IsInside(p) ==> (IsInside(s.phases[t]) || !s.lock) && lock
    requires !IsInside(p) ==> lock == (s.lock && !IsInside(s.phases[t]))
    ensures Inv(Moved(s, t, p, e, lock))
  {
    MovedHistories(s, t, p, e, lock);
    MovedSettled(s, t, p, e, lock);
    MovedExclusive(s, t, p, e, lock);
    if UnderLock(e) {
      AloneInside(s, t);
    }
    MovedSerial(s, t, p, e, lock);
  }

  lemma GenerateKeeps(s: State, t: nat, o: Outcome)
    requires Inv(s) && Enabled(s, Generate(t, o))
    ensures Inv(Do(s, Generate(t, o)))
  {
    assert Inside(s, t);
    MoveKeeps(s, t, Releasing(o), Generated(o), s.lock);
  }

  lemma ReleaseKeeps(s: State, t: nat, r: Release)
    requires Inv(s) && Enabled(s, ReleaseCache(t, r))
    ensures Inv(Do(s, ReleaseCache(t, r)))
  {
    assert Inside(s, t);
    var o := s.phases[t].o;
    if Ending(o, r).Crashed? {
      MoveKeeps(s, t, Unlocking(o, r, None), CacheReleased(r), s.lock);
    } else {
      MoveKeeps(s, t, Responding(o, r), CacheReleased(r), s.lock);
    }
  }

  lemma RespondKeeps(s: State, t: nat, written: bool)
    requires Inv(s) && Enabled(s, Respond(t, written))
    ensures Inv(Do(s, Respond(t, written)))
  {
    assert Inside(s, t);
    var Responding(o, r) := s.phases[t];
    MoveKeeps(s, t, Unlocking(o, r, Some(written)), Responded(Status(Ending(o, r)), written), s.lock);
  }

  lemma UnlockKeeps(s: State, t: nat)
    requires Inv(s) && Enabled(s, Unlock(t))
    ensures Inv(Do(s, Unlock(t)))
  {
    assert Inside(s, t);
    var Unlocking(o, r, sent) := s.phases[t];
    MoveKeeps(s, t, Finished(o, r, sent), Unlocked, false);
  }

  lemma StepKeeps(s: State, step: Step)
    requires Inv(s) && Enabled(s, step)
    ensures Inv(Do(s, step))
  {
    hide Inv;
    match step {
      case Arrive => ArriveKeeps(s);
      case Take(t) =>
        if s.lock {
          MoveKeeps(s, t, Refusing, Refused, true);
        } else {
          MoveKeeps(s, t, Generating, Acquired, true);
        }
      case AnswerBusy(t, written) => MoveKeeps(s, t, TurnedAway(written), AnsweredBusy(503, written), s.lock);
      case Generate(t, o) => GenerateKeeps(s, t, o);
      case ReleaseCache(t, r) => ReleaseKeeps(s, t, r);
      case Respond(t, written) => RespondKeeps(s, t, written);
      case Unlock(t) => UnlockKeeps(s, t);
    }
  }

  lemma {:induction false} RunKeeps(s: State, steps: seq<Step>)
    requires Inv(s) && Possible(s, steps)
    ensures Inv(Run(s, steps))
    decreases |steps|
  {
    if steps != [] {
      StepKeeps(s, steps[0]);
      RunKeeps(Do(s, steps[0]), steps[1..]);
    }
  }

  /** Every interleaving: one request inside at most, every request with a prefix of its
      section behind it, and sections that never overlap. */
  lemma EveryInterleaving(steps: seq<Step>)
    requires Possible(IDLE, steps)
    ensures Exclusive(Run(IDLE, steps)) && Histories(Run(IDLE, steps)) && Serial(Run(IDLE, steps).log)
  {
    RunKeeps(IDLE, steps);
  }

  /** A request is turned away exactly when another one is inside at that moment. */
  lemma BusyExactly(steps: seq<Step>, t: nat)
    requires Possible(IDLE, steps) && Enabled(Run(IDLE, steps), Take(t))
    ensures Do(Run(IDLE, steps), Take(t)).phases[t].Refusing?
            <==> exists u: nat :: u != t && Inside(Run(IDLE, steps), u)
  {
    EveryInterleaving(steps);
    var s := Run(IDLE, steps);
    assert !Inside(s, t);
    if s.lock {
      var u: nat :| Inside(s, u);
      assert u != t;
    }
  }

  /** And that is all that ever happens to it: it is told that the server is busy. */
  lemma RefusedExactly(steps: seq<Step>, t: nat)
    requires Possible(IDLE, steps) && t < |Run(IDLE, steps).phases| && Run(IDLE, steps).phases[t].TurnedAway?
    ensures EventsOf(Run(IDLE, steps).log, t)
         == [Refused, AnsweredBusy(503, Run(IDLE, steps).phases[t].written)]
  {
    EveryInterleaving(steps);
  }

  /** However the generations ended, the lock is free once no request is inside. */
  lemma NeverLeftLocked(steps: seq<Step>)
    requires Possible(IDLE, steps)
    requires forall t: nat :: t < |Run(IDLE, steps).phases| ==> !IsInside(Run(IDLE, steps).phases[t])
    ensures !Run(IDLE, steps).lock
  {
    EveryInterleaving(steps);
  }

  /** A finished request's doings are one whole section. It was answered with 200 exactly
      when there is an image and the cache was freed, not at all when the release crashed, or
      the generation under a release that went well, and with 500 otherwise. */
  lemma FinishedExactly(steps: seq<Step>, t: nat)
    requires Possible(IDLE, steps) && t < |Run(IDLE, steps).phases| && Run(IDLE, steps).phases[t].Finished?
    ensures var Finished(o, r, sent) := Run(IDLE, steps).phases[t];
            && EventsOf(Run(IDLE, steps).log, t)
               == [Acquired, Generated(o), CacheReleased(r)]
                  + (if sent.Some? then [Responded(if o == Image && r == Freed then 200 else 500, sent.value)] else [])
                  + [Unlocked]
            && (sent == None <==> r == ReleaseCrashed || (r == Freed && o == Crashed))
  {
    EveryInterleaving(steps);
  }
}
