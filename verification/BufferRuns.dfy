/**
 * Runs of one server's request path: a request is stamped with a fresh number and a deadline, waits in
 * the buffers, is popped by the waiter and is released once the clock has passed its deadline.
 */
module BufferRuns {
  import opened Wrappers
  import opened Clock
  import opened Buffers

  /** Where the waiter stands with the request it has popped. */
  datatype Waiter =
    | Looking
    | Holding(r: Request, sender: Option<Sender>)
    | Awaiting(r: Request, sender: Option<Sender>)
    | Notified(r: Request, sender: Option<Sender>, at: nat)

  /** A request sent to whoever inserted it, and the clock when its deadline was notified. */
  datatype Release = Release(r: Request, sender: Sender, at: nat)

  /** `stamped` are the requests on their way to the buffers; `popped` records every deadline popped. */
  datatype Node = Node(
    clock: ClockState,
    nextId: nat,
    stamped: map<nat, Request>,
    buffers: BuffersState,
    waiter: Waiter,
    popped: seq<nat>,
    released: seq<Release>)

  /** The clock's drift and resynchronisation period. */
  datatype Config = Config(drift: nat, syncFreq: nat)

  datatype Step =
    | Stamp
    | Insert(id: nat, leads: bool)
    | Free(id: nat, newDeadline: nat)
    | Pop(r: Request)
    | Register
    | Tick(fast: bool)
    | Resync(time: nat)
    | Deliver

  function Start(now: nat, uncertainty: nat): Node {
    Node(ClockState(now, 0, uncertainty, multiset{}, map[]), 0, map[], EMPTY_BUFFERS, Looking, [], [])
  }

  predicate Enabled(s: Node, step: Step) {
    match step
    case Insert(id, _) => id in s.stamped
    case Pop(r) => s.waiter.Looking? && IsNext(s.buffers, r)
    case Register => s.waiter.Holding?
    case Deliver => s.waiter.Notified?
    case _ => true
  }

  /** The waiter hears of its deadline when the clock notifies it. */
  function WaiterAfter(w: Waiter, due: map<nat, Sender>, now: nat): Waiter {
    if w.Awaiting? && w.r.deadline in due && due[w.r.deadline] == w.r.id then Notified(w.r, w.sender, now) else w
  }

  /** The sender of a request is named after it; the waiter's own channel is named after the request it holds. */
  ghost function Next(g: Config, s: Node, step: Step): Node
    requires Enabled(s, step)
  {
    match step
    case Stamp =>
      s.(nextId := s.nextId + 1, stamped := s.stamped[s.nextId := Request(s.nextId, NewDeadline(s.clock))])
    case Insert(id, leads) =>
      s.(stamped := s.stamped - {id}, buffers := Inserted(s.buffers, s.clock, s.stamped[id], id, leads).0)
    case Free(id, newDeadline) => s.(buffers := Freed(s.buffers, id, newDeadline))
    case Pop(r) =>
      var sender := if r.id in s.buffers.notifiers then Some(s.buffers.notifiers[r.id]) else None;
      s.(buffers := WithoutNext(s.buffers, r), waiter := Holding(r, sender), popped := s.popped + [r.deadline])
    case Register =>
      s.(clock := WithDeadline(s.clock, s.waiter.r.deadline, s.waiter.r.id),
         waiter := Awaiting(s.waiter.r, s.waiter.sender))
    case Tick(fast) =>
      var clock := Ticked(s.clock, g.drift, g.syncFreq, fast);
      s.(clock := clock, waiter := WaiterAfter(s.waiter, DueSenders(Moved(s.clock, g.drift, fast)), clock.logicalTime))
    case Resync(time) => s.(clock := Resynced(s.clock, time))
    case Deliver =>
      var Notified(r, sender, at) := s.waiter;
      s.(waiter := Looking,
         released := if sender.Some? then s.released + [Release(r, sender.value, at)] else s.released)
  }

  ghost function After(g: Config, s: Node, steps: seq<Step>): Option<Node> {
    if |steps| == 0 then Some(s)
    else match After(g, s, steps[..|steps| - 1])
      case None => None
      case Some(m) =>
        if Enabled(m, steps[|steps| - 1]) then Some(Next(g, m, steps[|steps| - 1])) else None
  }

  // Every request is in exactly one place.

  function EarlyIds(early: multiset<Request>): set<nat> {
    set r | r in early :: r.id
  }

  function FlightId(w: Waiter): set<nat> {
    if w.Looking? then {} else {w.r.id}
  }

  function ReleasedIds(released: seq<Release>): set<nat> {
    set x | x in released :: x.r.id
  }

  /** The numbers of the requests in each of the five places a request can be. */
  datatype Places = Places(stamped: set<nat>, early: set<nat>, late: set<nat>, flight: set<nat>, released: set<nat>)

  function PlacesOf(s: Node): Places {
    Places(s.stamped.Keys, EarlyIds(s.buffers.early), s.buffers.late.Keys, FlightId(s.waiter), ReleasedIds(s.released))
  }

  function One(b: bool): nat {
    if b then 1 else 0
  }

  /** The number of places that hold the request. */
  function Count(p: Places, id: nat): nat {
    One(id in p.stamped) + One(id in p.early) + One(id in p.late) + One(id in p.flight) + One(id in p.released)
  }

  ghost predicate OnePlace(s: Node) {
    forall id: nat {:trigger Count(PlacesOf(s), id)} :: Count(PlacesOf(s), id) == One(id < s.nextId)
  }

  ghost predicate EarlyOnce(early: multiset<Request>) {
    && (forall r | r in early :: early[r] == 1)
    && (forall r, q | r in early && q in early && r.id == q.id :: r == q)
  }

  ghost predicate ReleasedOnce(released: seq<Release>) {
    forall i, j | 0 <= i < j < |released| :: released[i].r.id != released[j].r.id
  }

  /** No place holds a request twice. */
  ghost predicate NoCopies(s: Node) {
    && EarlyOnce(s.buffers.early)
    && (forall id | id in s.stamped :: s.stamped[id].id == id)
    && (forall id | id in s.buffers.late :: s.buffers.late[id].id == id)
    && ReleasedOnce(s.released)
  }

  /** Exactly the buffered requests have a notifier, which is their own. */
  ghost predicate BuffersNotify(b: BuffersState) {
    && b.notifiers.Keys == EarlyIds(b.early) + b.late.Keys
    && (forall id | id in b.notifiers :: b.notifiers[id] == id)
  }

  ghost predicate Notifying(s: Node) {
    && BuffersNotify(s.buffers)
    && (!s.waiter.Looking? ==> s.waiter.sender == Some(s.waiter.r.id))
    && (forall x | x in s.released :: x.sender == x.r.id)
  }

  ghost predicate Placed(s: Node) {
    OnePlace(s) && NoCopies(s) && Notifying(s)
  }

  lemma AddedEarly(early: multiset<Request>, r: Request)
    ensures EarlyIds(early + multiset{r}) == EarlyIds(early) + {r.id}
  {
    assert forall q :: q in early + multiset{r} <==> q in early || q == r;
  }

  lemma RemovedEarly(early: multiset<Request>, r: Request)
    requires r in early && early[r] == 1
    requires forall q | q in early && q.id == r.id :: q == r
    ensures EarlyIds(early - multiset{r}) == EarlyIds(early) - {r.id}
  {
    assert forall q :: q in early - multiset{r} <==> q in early && q != r;
  }

  lemma AddedRelease(released: seq<Release>, x: Release)
    ensures ReleasedIds(released + [x]) == ReleasedIds(released) + {x.r.id}
  {
    assert forall y :: y in released + [x] <==> y in released || y == x;
  }

  /** The places after a step: where it takes a request from, and where it puts it. */
  function PlacesAfter(s: Node, step: Step): Places
    requires Enabled(s, step)
  {
    var p := PlacesOf(s);
    match step
    case Stamp => p.(stamped := p.stamped + {s.nextId})
    case Insert(id, leads) =>
      if Eligible(s.buffers, s.stamped[id]) || leads
      then p.(stamped := p.stamped - {id}, early := p.early + {id})
      else p.(stamped := p.stamped - {id}, late := p.late + {id})
    case Free(id, _) => if id in p.late then p.(late := p.late - {id}, early := p.early + {id}) else p
    case Pop(r) => p.(early := p.early - {r.id}, flight := {r.id})
    case Deliver => p.(flight := {}, released := p.released + {s.waiter.r.id})
    case _ => p
  }

  lemma {:induction false} InsertMoves(g: Config, s: Node, step: Step)
    requires NoCopies(s) && Enabled(s, step) && step.Insert?
    ensures PlacesOf(Next(g, s, step)) == PlacesAfter(s, step)
  {
    AddedEarly(s.buffers.early, s.stamped[step.id]);
    AddedEarly(s.buffers.early, s.stamped[step.id].(deadline := NewDeadline(s.clock)));
  }

  lemma {:induction false} FreeMoves(g: Config, s: Node, step: Step)
    requires NoCopies(s) && step.Free?
    ensures PlacesOf(Next(g, s, step)) == PlacesAfter(s, step)
  {
    if step.id in s.buffers.late {
      AddedEarly(s.buffers.early, s.buffers.late[step.id].(deadline := step.newDeadline));
    }
  }

  lemma {:induction false} PopMoves(g: Config, s: Node, step: Step)
    requires NoCopies(s) && Enabled(s, step) && step.Pop?
    ensures PlacesOf(Next(g, s, step)) == PlacesAfter(s, step)
  {
    RemovedEarly(s.buffers.early, step.r);
  }

  lemma {:induction false} DeliverMoves(g: Config, s: Node, step: Step)
    requires Notifying(s) && Enabled(s, step) && step.Deliver?
    ensures PlacesOf(Next(g, s, step)) == PlacesAfter(s, step)
  {
    AddedRelease(s.released, Release(s.waiter.r, s.waiter.r.id, s.waiter.at));
  }

  lemma {:induction false} StepMoves(g: Config, s: Node, step: Step)
    requires NoCopies(s) && Notifying(s) && Enabled(s, step)
    ensures PlacesOf(Next(g, s, step)) == PlacesAfter(s, step)
  {
    match step
    case Insert(_, _) => InsertMoves(g, s, step);
    case Free(_, _) => FreeMoves(g, s, step);
    case Pop(_) => PopMoves(g, s, step);
    case Deliver => DeliverMoves(g, s, step);
    case _ =>
  }

  lemma {:induction false} NotTwice(s: Node, id: nat)
    requires OnePlace(s)
    ensures Count(PlacesOf(s), id) == One(id < s.nextId)
  {
  }

  /** Only a new request is counted once more. */
  lemma {:induction false} CountAfter(s: Node, step: Step, id: nat)
    requires Enabled(s, step) && Count(PlacesOf(s), id) == One(id < s.nextId)
    ensures Count(PlacesAfter(s, step), id) == One(id < s.nextId + One(step.Stamp?))
  {
    if step.Pop? {
      assert step.r.id in EarlyIds(s.buffers.early);
    }
  }

  lemma {:induction false} StepOnePlace(g: Config, s: Node, step: Step)
    requires Placed(s) && Enabled(s, step)
    ensures OnePlace(Next(g, s, step))
  {
    StepMoves(g, s, step);
    forall id: nat ensures Count(PlacesOf(Next(g, s, step)), id) == One(id < Next(g, s, step).nextId) {
      NotTwice(s, id);
      CountAfter(s, step, id);
    }
  }

  /** Adding a request under a new number leaves every request in the early buffer once. */
  lemma {:induction false} AddedOnce(early: multiset<Request>, r: Request)
    requires EarlyOnce(early) && r.id !in EarlyIds(early)
    ensures EarlyOnce(early + multiset{r})
  {
    assert forall q | q in early :: q.id in EarlyIds(early);
  }

  lemma {:induction false} RemovedOnce(early: multiset<Request>, r: Request)
    requires EarlyOnce(early)
    ensures EarlyOnce(early - multiset{r})
  {
    assert forall q | q in early - multiset{r} :: q in early;
  }

  lemma {:induction false} DeliverNoCopies(released: seq<Release>, x: Release)
    requires ReleasedOnce(released) && x.r.id !in ReleasedIds(released)
    ensures ReleasedOnce(released + [x])
  {
    assert forall y | y in released :: y.r.id in ReleasedIds(released);
    assert forall i | 0 <= i < |released| :: released[i] in released;
  }

  /** What an insertion adds, if it adds to the early buffer. */
  function Pushed(s: Node, step: Step): Option<Request>
    requires Enabled(s, step)
  {
    match step
    case Insert(id, leads) =>
      if Eligible(s.buffers, s.stamped[id]) then Some(s.stamped[id])
      else if leads then Some(s.stamped[id].(deadline := NewDeadline(s.clock)))
      else None
    case Free(id, newDeadline) =>
      if id in s.buffers.late then Some(s.buffers.late[id].(deadline := newDeadline)) else None
    case _ => None
  }

  lemma {:induction false} InsertNoCopies(g: Config, s: Node, step: Step)
    requires NoCopies(s) && Enabled(s, step) && step.Insert? && step.id !in EarlyIds(s.buffers.early)
    ensures NoCopies(Next(g, s, step))
  {
    var pushed := Pushed(s, step);
    if pushed.Some? {
      AddedOnce(s.buffers.early, pushed.value);
    }
  }

  /** A request that goes early keeps its notifier, or gets one. */
  lemma {:induction false} EarlyNotifies(b: BuffersState, pushed: Request)
    requires BuffersNotify(b)
    ensures BuffersNotify(b.(early := b.early + multiset{pushed}, notifiers := b.notifiers[pushed.id := pushed.id]))
  {
    AddedEarly(b.early, pushed);
  }

  lemma {:induction false} LateNotifies(b: BuffersState, r: Request)
    requires BuffersNotify(b)
    ensures BuffersNotify(b.(late := b.late[r.id := r], notifiers := b.notifiers[r.id := r.id]))
  {
  }

  lemma {:induction false} InsertNotifies(g: Config, s: Node, step: Step)
    requires NoCopies(s) && Notifying(s) && Enabled(s, step) && step.Insert?
    ensures Notifying(Next(g, s, step))
  {
    var pushed := Pushed(s, step);
    if pushed.Some? {
      EarlyNotifies(s.buffers, pushed.value);
    } else {
      LateNotifies(s.buffers, s.stamped[step.id]);
    }
  }

  lemma {:induction false} FreeNoCopies(g: Config, s: Node, step: Step)
    requires NoCopies(s) && step.Free? && step.id !in EarlyIds(s.buffers.early)
    ensures NoCopies(Next(g, s, step))
  {
    if step.id in s.buffers.late {
      AddedOnce(s.buffers.early, s.buffers.late[step.id].(deadline := step.newDeadline));
    }
  }

  lemma {:induction false} FreeNotifies(g: Config, s: Node, step: Step)
    requires NoCopies(s) && Notifying(s) && step.Free?
    ensures Notifying(Next(g, s, step))
  {
    if step.id in s.buffers.late {
      AddedEarly(s.buffers.early, s.buffers.late[step.id].(deadline := step.newDeadline));
    }
  }

  lemma {:induction false} PopNoCopies(g: Config, s: Node, step: Step)
    requires NoCopies(s) && Enabled(s, step) && step.Pop?
    ensures NoCopies(Next(g, s, step))
  {
    RemovedOnce(s.buffers.early, step.r);
  }

  lemma {:induction false} PopNotifies(g: Config, s: Node, step: Step)
    requires NoCopies(s) && Notifying(s) && Enabled(s, step) && step.Pop? && step.r.id !in s.buffers.late
    ensures Notifying(Next(g, s, step))
  {
    RemovedEarly(s.buffers.early, step.r);
    assert step.r.id in EarlyIds(s.buffers.early);
  }

  lemma {:induction false} DeliverKeeps(g: Config, s: Node, step: Step)
    requires NoCopies(s) && Notifying(s) && Enabled(s, step) && step.Deliver?
    requires s.waiter.r.id !in ReleasedIds(s.released)
    ensures NoCopies(Next(g, s, step)) && Notifying(Next(g, s, step))
  {
    var x := Release(s.waiter.r, s.waiter.r.id, s.waiter.at);
    DeliverNoCopies(s.released, x);
    assert forall y | y in s.released + [x] :: y in s.released || y == x;
  }

  /** What the code relies on when it takes a notifier: requests are neither lost nor held twice. */
  lemma {:induction false} StepPlaced(g: Config, s: Node, step: Step)
    requires Placed(s) && Enabled(s, step)
    ensures Placed(Next(g, s, step))
  {
    StepOnePlace(g, s, step);
    match step
    case Insert(id, _) => NotTwice(s, id); InsertNoCopies(g, s, step); InsertNotifies(g, s, step);
    case Free(id, _) =>
      NotTwice(s, id);
      if id in s.buffers.late {
        FreeNoCopies(g, s, step);
        FreeNotifies(g, s, step);
      }
    case Pop(r) =>
      assert r.id in EarlyIds(s.buffers.early);
      NotTwice(s, r.id);
      PopNoCopies(g, s, step);
      PopNotifies(g, s, step);
    case Deliver => NotTwice(s, s.waiter.r.id); DeliverKeeps(g, s, step);
    case _ =>
  }

  // Nothing is released before its deadline.

  ghost predicate ClockFollows(s: Node) {
    match s.waiter
    case Awaiting(r, _) => s.clock.deadlines == multiset{r.deadline} && s.clock.database == map[r.deadline := r.id]
    case _ => s.clock.deadlines == multiset{} && s.clock.database == map[]
  }

  ghost predicate Timely(s: Node) {
    && (s.waiter.Notified? ==> s.waiter.r.deadline < s.waiter.at)
    && (forall x | x in s.released :: x.r.deadline < x.at)
  }

  /** The waiter is notified on exactly the first tick that takes the clock past its deadline. */
  lemma {:induction false} TickNotifies(g: Config, s: Node, fast: bool)
    requires ClockFollows(s)
    ensures ClockFollows(Next(g, s, Tick(fast)))
    ensures s.waiter.Awaiting? ==>
              var now := s.clock.logicalTime + Advance(g.drift, fast);
              Next(g, s, Tick(fast)).waiter ==
                if s.waiter.r.deadline < now then Notified(s.waiter.r, s.waiter.sender, now) else s.waiter
    ensures !s.waiter.Awaiting? ==> Next(g, s, Tick(fast)).waiter == s.waiter
  {
    var moved := Moved(s.clock, g.drift, fast);
    var kept := Remaining(moved.deadlines, moved.logicalTime);
    if s.waiter.Awaiting? && s.waiter.r.deadline < moved.logicalTime {
      assert DueSenders(moved) == moved.database;
      assert kept == multiset{};
    } else {
      NothingDue(moved);
    }
  }

  lemma {:induction false} StepTimely(g: Config, s: Node, step: Step)
    requires ClockFollows(s) && Timely(s) && Enabled(s, step)
    ensures ClockFollows(Next(g, s, step)) && Timely(Next(g, s, step))
  {
    if step.Tick? {
      TickNotifies(g, s, step.fast);
    } else if step.Deliver? && s.waiter.sender.Some? {
      var x := Release(s.waiter.r, s.waiter.sender.value, s.waiter.at);
      assert forall y | y in s.released + [x] :: y in s.released || y == x;
    }
  }

  // The order in which requests are popped.

  predicate Sorted(popped: seq<nat>) {
    forall i, j | 0 <= i < j < |popped| :: popped[i] <= popped[j]
  }

  /** No request in the early buffer comes before the last one popped. */
  predicate Ordered(b: BuffersState) {
    b.lastReleased.Some? ==> forall r | r in b.early :: b.lastReleased.value <= r.deadline
  }

  /** What a step pushes into the early buffer is not before the last deadline popped. */
  predicate PushesInOrder(s: Node, step: Step)
    requires Enabled(s, step)
  {
    var pushed := Pushed(s, step);
    pushed.Some? && s.buffers.lastReleased.Some? ==> s.buffers.lastReleased.value <= pushed.value.deadline
  }

  ghost predicate PoppedInOrder(s: Node) {
    && Sorted(s.popped)
    && s.buffers.lastReleased == if |s.popped| == 0 then None else Some(s.popped[|s.popped| - 1])
  }

  lemma {:induction false} PushShows(s: Node, g: Config, step: Step)
    requires Enabled(s, step) && (step.Insert? || step.Free?)
    ensures var (b, b') := (s.buffers, Next(g, s, step).buffers);
            && b'.lastReleased == b.lastReleased
            && forall r :: r in b'.early <==> r in b.early || Pushed(s, step) == Some(r)
  {
  }

  /** A step keeps the early buffer ordered if and only if it does not push a deadline from the past. */
  lemma {:induction false} OrderKeptIff(g: Config, s: Node, step: Step)
    requires Enabled(s, step) && Ordered(s.buffers)
    ensures Ordered(Next(g, s, step).buffers) <==> PushesInOrder(s, step)
  {
    if step.Insert? || step.Free? {
      PushShows(s, g, step);
    } else if step.Pop? {
      assert forall r | r in s.buffers.early - multiset{step.r} :: r in s.buffers.early;
    }
  }

  /** The next deadline popped, whichever request the heap chooses, is in order if and only if the buffer is. */
  lemma {:induction false} NextPopInOrder(b: BuffersState, r: Request)
    requires IsNext(b, r)
    ensures Ordered(b) <==> (b.lastReleased.Some? ==> b.lastReleased.value <= r.deadline)
  {
  }

  lemma {:induction false} StepSorted(g: Config, s: Node, step: Step)
    requires Enabled(s, step) && PushesInOrder(s, step) && Ordered(s.buffers) && PoppedInOrder(s)
    ensures Ordered(Next(g, s, step).buffers) && PoppedInOrder(Next(g, s, step))
  {
    OrderKeptIff(g, s, step);
  }

  /** The deadlines of all requests released so far, and of the one in flight, are those popped. */
  function Deadlines(released: seq<Release>): (deadlines: seq<nat>)
    ensures |deadlines| == |released|
  {
    seq(|released|, i requires 0 <= i < |released| => released[i].r.deadline)
  }

  ghost predicate ReleasesPopped(s: Node) {
    s.popped == Deadlines(s.released) + if s.waiter.Looking? then [] else [s.waiter.r.deadline]
  }

  lemma {:induction false} StepReleases(g: Config, s: Node, step: Step)
    requires Enabled(s, step) && ReleasesPopped(s) && Notifying(s)
    ensures ReleasesPopped(Next(g, s, step))
  {
    if step.Deliver? {
      var x := Release(s.waiter.r, s.waiter.sender.value, s.waiter.at);
      assert Deadlines(s.released + [x]) == Deadlines(s.released) + [x.r.deadline];
    }
  }

  // A leader's clock.

  /** The server leads, and a resynchronisation does not turn its clock back. */
  predicate Steady(s: Node, step: Step) {
    && (step.Insert? ==> step.leads)
    && (step.Resync? ==> s.clock.logicalTime <= step.time)
  }

  /** Nothing is due later than a deadline given now. */
  ghost predicate WithinDelay(s: Node) {
    var horizon := NewDeadline(s.clock);
    && s.buffers.late == map[]
    && (forall id | id in s.stamped :: s.stamped[id].deadline <= horizon)
    && (forall r | r in s.buffers.early :: r.deadline <= horizon)
    && (s.buffers.lastReleased.Some? ==> s.buffers.lastReleased.value <= horizon)
  }

  lemma {:induction false} StepWithinDelay(g: Config, s: Node, step: Step)
    requires Enabled(s, step) && Steady(s, step) && WithinDelay(s)
    ensures PushesInOrder(s, step) && WithinDelay(Next(g, s, step))
  {
    if step.Insert? || step.Free? {
      PushShows(s, g, step);
    } else if step.Pop? {
      assert forall r | r in s.buffers.early - multiset{step.r} :: r in s.buffers.early;
    }
  }

  // Runs.

  ghost predicate RunInv(s: Node) {
    Placed(s) && ClockFollows(s) && Timely(s) && ReleasesPopped(s)
  }

  lemma {:induction false} RunKeepsInv(g: Config, now: nat, uncertainty: nat, steps: seq<Step>)
    ensures var after := After(g, Start(now, uncertainty), steps);
            after.Some? ==> RunInv(after.value)
    decreases |steps|
  {
    var s := Start(now, uncertainty);
    if |steps| == 0 {
      assert Deadlines([]) == [];
      assert forall id: nat :: Count(PlacesOf(s), id) == 0;
    } else {
      var before, step := steps[..|steps| - 1], steps[|steps| - 1];
      RunKeepsInv(g, now, uncertainty, before);
      var m := After(g, s, before);
      if m.Some? && Enabled(m.value, step) {
        StepPlaced(g, m.value, step);
        StepTimely(g, m.value, step);
        StepReleases(g, m.value, step);
      }
    }
  }

  /**
   * In every run, whatever the clock, the resynchronisations, the roles and the new deadlines from
   * the leader do, each request is on its way to the buffers, early, late, in flight or released, and in
   * only one of these places; those in the buffers are exactly those with a notifier.
   */
  lemma {:induction false} ExactlyOnePlace(g: Config, now: nat, uncertainty: nat, steps: seq<Step>, id: nat)
    ensures var after := After(g, Start(now, uncertainty), steps);
            after.Some? ==>
              var (s, p) := (after.value, PlacesOf(after.value));
              && Count(p, id) == One(id < s.nextId)
              && (id in s.buffers.notifiers <==> id in p.early || id in p.late)
              && EarlyOnce(s.buffers.early) && ReleasedOnce(s.released)
  {
    RunKeepsInv(g, now, uncertainty, steps);
  }

  /**
   * Every release goes to whoever inserted the request, after the clock has passed its deadline,
   * and releases come in the order of the pops.
   */
  lemma {:induction false} ReleasedAfterDeadline(g: Config, now: nat, uncertainty: nat, steps: seq<Step>)
    ensures var after := After(g, Start(now, uncertainty), steps);
            after.Some? ==>
              var s := after.value;
              && (forall x | x in s.released :: x.sender == x.r.id && x.r.deadline < x.at)
              && Deadlines(s.released) <= s.popped
              && |s.popped| <= |s.released| + 1
  {
    RunKeepsInv(g, now, uncertainty, steps);
  }

  /** Every step of the run pushes in order. */
  ghost predicate AlwaysPushesInOrder(g: Config, s: Node, steps: seq<Step>) {
    |steps| > 0 ==>
      var before := steps[..|steps| - 1];
      && AlwaysPushesInOrder(g, s, before)
      && (After(g, s, before).Some? && Enabled(After(g, s, before).value, steps[|steps| - 1]) ==>
            PushesInOrder(After(g, s, before).value, steps[|steps| - 1]))
  }

  ghost predicate AlwaysSteady(g: Config, s: Node, steps: seq<Step>) {
    |steps| > 0 ==>
      var before := steps[..|steps| - 1];
      && AlwaysSteady(g, s, before)
      && (After(g, s, before).Some? ==> Steady(After(g, s, before).value, steps[|steps| - 1]))
  }

  lemma {:induction false} OrderedRuns(g: Config, now: nat, uncertainty: nat, steps: seq<Step>)
    requires AlwaysPushesInOrder(g, Start(now, uncertainty), steps)
    ensures var after := After(g, Start(now, uncertainty), steps);
            after.Some? ==> Ordered(after.value.buffers) && PoppedInOrder(after.value)
    decreases |steps|
  {
    if |steps| > 0 {
      var s, before, step := Start(now, uncertainty), steps[..|steps| - 1], steps[|steps| - 1];
      OrderedRuns(g, now, uncertainty, before);
      var m := After(g, s, before);
      if m.Some? && Enabled(m.value, step) {
        StepSorted(g, m.value, step);
      }
    }
  }

  /** Deadlines are popped, and so released, in non-decreasing order if every push is in order. */
  lemma {:induction false} ReleasedInOrder(g: Config, now: nat, uncertainty: nat, steps: seq<Step>)
    requires AlwaysPushesInOrder(g, Start(now, uncertainty), steps)
    ensures var after := After(g, Start(now, uncertainty), steps);
            after.Some? ==> Sorted(after.value.popped) && Sorted(Deadlines(after.value.released))
  {
    OrderedRuns(g, now, uncertainty, steps);
    RunKeepsInv(g, now, uncertainty, steps);
    var after := After(g, Start(now, uncertainty), steps);
    if after.Some? {
      var s := after.value;
      forall i, j | 0 <= i < j < |s.released| ensures Deadlines(s.released)[i] <= Deadlines(s.released)[j] {
        assert s.popped[i] <= s.popped[j];
      }
    }
  }

  lemma {:induction false} SteadyPushesInOrder(g: Config, now: nat, uncertainty: nat, steps: seq<Step>)
    requires AlwaysSteady(g, Start(now, uncertainty), steps)
    ensures AlwaysPushesInOrder(g, Start(now, uncertainty), steps)
    ensures var after := After(g, Start(now, uncertainty), steps);
            after.Some? ==> WithinDelay(after.value)
    decreases |steps|
  {
    if |steps| > 0 {
      var s, before, step := Start(now, uncertainty), steps[..|steps| - 1], steps[|steps| - 1];
      SteadyPushesInOrder(g, now, uncertainty, before);
      var m := After(g, s, before);
      if m.Some? && Enabled(m.value, step) {
        StepWithinDelay(g, m.value, step);
      }
    }
  }

  /** A leader whose clock is never turned back releases every request in deadline order. */
  lemma {:induction false} LeaderReleasesInOrder(g: Config, now: nat, uncertainty: nat, steps: seq<Step>)
    requires AlwaysSteady(g, Start(now, uncertainty), steps)
    ensures var after := After(g, Start(now, uncertainty), steps);
            after.Some? ==> Sorted(after.value.popped) && Sorted(Deadlines(after.value.released))
  {
    SteadyPushesInOrder(g, now, uncertainty, steps);
    ReleasedInOrder(g, now, uncertainty, steps);
  }

  // Order is lost by any push that is not in order.

  lemma {:induction false} Extend(g: Config, s: Node, steps: seq<Step>, step: Step)
    requires After(g, s, steps).Some? && Enabled(After(g, s, steps).value, step)
    ensures After(g, s, steps + [step]) == Some(Next(g, After(g, s, steps).value, step))
    ensures AlwaysPushesInOrder(g, s, steps + [step]) <==>
              AlwaysPushesInOrder(g, s, steps) && PushesInOrder(After(g, s, steps).value, step)
  {
    assert (steps + [step])[..|steps|] == steps;
  }

  /** How many of the waiter's steps are left before it looks for the next request. */
  function StepsLeft(w: Waiter): nat {
    match w
    case Looking => 0
    case Notified(_, _, _) => 1
    case Awaiting(_, _) => 2
    case Holding(_, _) => 3
  }

  /** A run that pops out of order and begins with `steps`. */
  ghost predicate LosesOrder(g: Config, s: Node, steps: seq<Step>, run: seq<Step>) {
    steps <= run && After(g, s, run).Some? && !Sorted(After(g, s, run).value.popped)
  }

  lemma {:induction false} PopLosesOrder(g: Config, s: Node, steps: seq<Step>)
    requires After(g, s, steps).Some?
    requires var m := After(g, s, steps).value;
             m.waiter.Looking? && PoppedInOrder(m) && !Ordered(m.buffers)
    ensures exists run :: LosesOrder(g, s, steps, run)
  {
    var m := After(g, s, steps).value;
    var some :| some in m.buffers.early;
    NextExists(m.buffers, some);
    var r :| IsNext(m.buffers, r);
    Extend(g, s, steps, Pop(r));
    NextPopInOrder(m.buffers, r);
    var popped := m.popped + [r.deadline];
    assert popped[|m.popped| - 1] > popped[|m.popped|];
    assert LosesOrder(g, s, steps, steps + [Pop(r)]);
  }

  /** The waiter can be brought to look for the next request, without anything entering or leaving the buffers. */
  lemma {:induction false} UnorderedLosesOrder(g: Config, s: Node, steps: seq<Step>)
    requires After(g, s, steps).Some?
    requires var m := After(g, s, steps).value; ClockFollows(m) && PoppedInOrder(m) && !Ordered(m.buffers)
    ensures exists run :: LosesOrder(g, s, steps, run)
    decreases StepsLeft(After(g, s, steps).value.waiter)
  {
    var m := After(g, s, steps).value;
    if m.waiter.Looking? {
      PopLosesOrder(g, s, steps);
      return;
    }
    var before, next := steps, Deliver;
    if m.waiter.Holding? {
      next := Register;
    } else if m.waiter.Awaiting? {
      before, next := steps + [Resync(m.waiter.r.deadline)], Tick(true);
      Extend(g, s, steps, Resync(m.waiter.r.deadline));
      TickNotifies(g, After(g, s, before).value, true);
    }
    Extend(g, s, before, next);
    UnorderedLosesOrder(g, s, before + [next]);
    var run :| LosesOrder(g, s, before + [next], run);
    assert LosesOrder(g, s, steps, run);
  }

  /** From every ordered state, a push that is not in order can be followed by a pop that is not. */
  lemma {:induction false} OrderNeedsEveryPush(g: Config, now: nat, uncertainty: nat, steps: seq<Step>, step: Step)
    requires AlwaysPushesInOrder(g, Start(now, uncertainty), steps)
    requires After(g, Start(now, uncertainty), steps).Some?
    requires Enabled(After(g, Start(now, uncertainty), steps).value, step)
    requires !PushesInOrder(After(g, Start(now, uncertainty), steps).value, step)
    ensures exists run :: LosesOrder(g, Start(now, uncertainty), steps + [step], run)
  {
    OrderedRuns(g, now, uncertainty, steps);
    RunKeepsInv(g, now, uncertainty, steps);
    UnorderedNext(g, After(g, Start(now, uncertainty), steps).value, step);
    Extend(g, Start(now, uncertainty), steps, step);
    UnorderedLosesOrder(g, Start(now, uncertainty), steps + [step]);
  }

  lemma {:induction false} UnorderedNext(g: Config, m: Node, step: Step)
    requires Enabled(m, step) && !PushesInOrder(m, step)
    requires ClockFollows(m) && Timely(m) && PoppedInOrder(m) && Ordered(m.buffers)
    ensures var m' := Next(g, m, step); ClockFollows(m') && PoppedInOrder(m') && !Ordered(m'.buffers)
  {
    OrderKeptIff(g, m, step);
    StepTimely(g, m, step);
  }

  /** Two requests stamped at the same time, of which one has been popped and the other has not arrived. */
  function Overtaken(leads: bool): seq<Step> {
    [Stamp, Stamp, Insert(0, leads)]
  }

  lemma {:induction false} BothStamped(g: Config, now: nat)
    ensures var s, d := Start(now, 0), now + DEADLINE_DELAY;
            && AlwaysPushesInOrder(g, s, [Stamp, Stamp])
            && After(g, s, [Stamp, Stamp]) ==
                 Some(s.(nextId := 2, stamped := map[0 := Request(0, d), 1 := Request(1, d)]))
  {
    Extend(g, Start(now, 0), [], Stamp);
    Extend(g, Start(now, 0), [Stamp], Stamp);
    assert [] + [Stamp] == [Stamp] && [Stamp] + [Stamp] == [Stamp, Stamp];
  }

  lemma {:induction false} OvertakenRun(g: Config, now: nat, leads: bool)
    ensures var r, s := Request(0, now + DEADLINE_DELAY), Start(now, 0);
            var steps := Overtaken(leads) + [Pop(r)];
            && AlwaysPushesInOrder(g, s, steps)
            && After(g, s, steps) ==
                 Some(Node(s.clock, 2, map[1 := Request(1, now + DEADLINE_DELAY)],
                           BuffersState(multiset{}, map[], map[], Some(r.deadline)),
                           Holding(r, Some(0)), [r.deadline], []))
  {
    var r, s := Request(0, now + DEADLINE_DELAY), Start(now, 0);
    BothStamped(g, now);
    Extend(g, s, [Stamp, Stamp], Insert(0, leads));
    assert [Stamp, Stamp] + [Insert(0, leads)] == Overtaken(leads);
    var m := After(g, s, Overtaken(leads)).value;
    assert m.stamped == map[1 := Request(1, now + DEADLINE_DELAY)];
    assert m.buffers == BuffersState(multiset{r}, map[0 := 0], map[], None);
    Extend(g, s, Overtaken(leads), Pop(r));
    var after := Next(g, m, Pop(r));
    assert after.buffers == BuffersState(multiset{}, map[], map[], Some(r.deadline));
    assert after.waiter == Holding(r, Some(0)) && after.popped == [r.deadline];
  }

  /** A leader whose clock is turned back, by however little, can release requests out of order. */
  lemma {:induction false} TurnedBackClockLosesOrder(g: Config, now: nat, earlier: nat)
    requires earlier < now
    ensures exists run :: LosesOrder(g, Start(now, 0), [], run)
  {
    var s := Start(now, 0);
    var r := Request(0, now + DEADLINE_DELAY);
    OvertakenRun(g, now, true);
    var steps := Overtaken(true) + [Pop(r)];
    Extend(g, s, steps, Resync(earlier));
    OrderNeedsEveryPush(g, now, 0, steps + [Resync(earlier)], Insert(1, true));
    var run :| LosesOrder(g, s, steps + [Resync(earlier)] + [Insert(1, true)], run);
    assert LosesOrder(g, s, [], run);
  }

  /** A follower that is sent a new deadline before the last one popped can release requests out of order. */
  lemma {:induction false} EarlyNewDeadlineLosesOrder(g: Config, now: nat, newDeadline: nat)
    requires newDeadline < now + DEADLINE_DELAY
    ensures exists run :: LosesOrder(g, Start(now, 0), [], run)
  {
    var s := Start(now, 0);
    var r := Request(0, now + DEADLINE_DELAY);
    OvertakenRun(g, now, false);
    var steps := Overtaken(false) + [Pop(r)];
    Extend(g, s, steps, Insert(1, false));
    OrderNeedsEveryPush(g, now, 0, steps + [Insert(1, false)], Free(1, newDeadline));
    var run :| LosesOrder(g, s, steps + [Insert(1, false)] + [Free(1, newDeadline)], run);
    assert LosesOrder(g, s, [], run);
  }
}
