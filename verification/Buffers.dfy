/**
 * The buffers in which a server holds requests until their deadlines: `early` releases them in
 * deadline order, `late` keeps those that came after a later deadline had been released.
 */
module Buffers {
  import opened Wrappers
  import opened Clock

  datatype Request = Request(id: nat, deadline: nat)

  datatype BuffersState = BuffersState(
    early: multiset<Request>,
    notifiers: map<nat, Sender>,
    late: map<nat, Request>,
    lastReleased: Option<nat>)

  const EMPTY_BUFFERS := BuffersState(multiset{}, map[], map[], None)

  predicate Eligible(b: BuffersState, r: Request) {
    b.lastReleased.Some? ==> b.lastReleased.value < r.deadline
  }

  /** The buffers after an insertion, and the deadline that a leader gave a request that came too late. */
  function Inserted(b: BuffersState, c: ClockState, r: Request, sender: Sender, leads: bool)
    : (BuffersState, Option<nat>)
  {
    var b1 := b.(notifiers := b.notifiers[r.id := sender]);
    if Eligible(b, r) then (b1.(early := b1.early + multiset{r}), None)
    else if leads then (b1.(early := b1.early + multiset{r.(deadline := NewDeadline(c))}), Some(NewDeadline(c)))
    else (b1.(late := b1.late[r.id := r]), None)
  }

  function Freed(b: BuffersState, id: nat, newDeadline: nat): BuffersState {
    if id in b.late
    then b.(late := b.late - {id}, early := b.early + multiset{b.late[id].(deadline := newDeadline)})
    else b
  }

  /** A request that the heap may pop: no other has an earlier deadline. */
  predicate IsNext(b: BuffersState, r: Request) {
    r in b.early && forall e | e in b.early :: r.deadline <= e.deadline
  }

  function WithoutNext(b: BuffersState, r: Request): BuffersState {
    b.(early := b.early - multiset{r}, notifiers := b.notifiers - {r.id}, lastReleased := Some(r.deadline))
  }

  lemma {:induction false} NextExists(b: BuffersState, some: Request)
    requires some in b.early
    ensures exists r :: IsNext(b, r)
    decreases some.deadline
  {
    if e :| e in b.early && e.deadline < some.deadline {
      NextExists(b, e);
    } else {
      assert IsNext(b, some);
    }
  }

  lemma {:induction false} SomeIsNext(b: BuffersState)
    requires b.early != multiset{}
    ensures exists r | r in b.early :: forall e | e in b.early :: r.deadline <= e.deadline
  {
    var some :| some in b.early;
    NextExists(b, some);
    var r :| IsNext(b, r);
  }

  class Buffers {
    const clock: Clock
    var early: multiset<Request>
    var notifiers: map<nat, Sender>
    var late: map<nat, Request>
    var lastReleasedDeadline: Option<nat>

    ghost function View(): BuffersState
      reads this
    {
      BuffersState(early, notifiers, late, lastReleasedDeadline)
    }

    constructor (clock: Clock)
      ensures View() == EMPTY_BUFFERS && this.clock == clock
    {
      this.clock := clock;
      early, notifiers, late, lastReleasedDeadline := multiset{}, map[], map[], None;
    }

    /** The waiter's locked section: takes the next request, if there is one, with its notifier. */
    method PopEarly() returns (popped: Option<(Request, Option<Sender>)>)
      modifies this
      ensures popped.None? ==> old(early) == multiset{} && View() == old(View())
      ensures popped.Some? ==>
                var (r, sender) := popped.value;
                && IsNext(old(View()), r) && View() == WithoutNext(old(View()), r)
                && early == old(early) - multiset{r} && lastReleasedDeadline == Some(r.deadline)
                && late == old(late) && notifiers == old(notifiers) - {r.id}
                && sender == if r.id in old(notifiers) then Some(old(notifiers)[r.id]) else None
    {
      if early == multiset{} {
        return None;
      }
      SomeIsNext(View());
      var r :| r in early && forall e | e in early :: r.deadline <= e.deadline;
      early := early - multiset{r};
      lastReleasedDeadline := Some(r.deadline);
      var sender := if r.id in notifiers then Some(notifiers[r.id]) else None;
      notifiers := notifiers - {r.id};
      popped := Some((r, sender));
    }

    method FreeFromLate(id: nat, newDeadline: nat)
      modifies this
      ensures View() == Freed(old(View()), id, newDeadline)
      ensures late == old(late) - {id} && notifiers == old(notifiers)
      ensures early == old(early) +
                       if id in old(late) then multiset{old(late)[id].(deadline := newDeadline)} else multiset{}
    {
      if id in late {
        var r := late[id];
        late := late - {id};
        early := early + multiset{r.(deadline := newDeadline)};
      }
    }

    method Insert(r: Request, sender: Sender, imLeader: bool) returns (newDeadline: Option<nat>)
      modifies this
      ensures (View(), newDeadline) == Inserted(old(View()), clock.View(), r, sender, imLeader)
      ensures notifiers == old(notifiers)[r.id := sender] && lastReleasedDeadline == old(lastReleasedDeadline)
      ensures var inTime := lastReleasedDeadline.Some? ==> r.deadline > lastReleasedDeadline.value;
              && (inTime ==> early == old(early) + multiset{r} && late == old(late) && newDeadline.None?)
              && (!inTime && imLeader ==>
                    && newDeadline == Some(clock.logicalTime + DEADLINE_DELAY)
                    && early == old(early) + multiset{r.(deadline := newDeadline.value)} && late == old(late))
              && (!inTime && !imLeader ==>
                    early == old(early) && late == old(late)[r.id := r] && newDeadline.None?)
    {
      notifiers := notifiers[r.id := sender];
      var eligible := match lastReleasedDeadline
        case None => true
        case Some(last) => r.deadline > last;
      newDeadline := None;
      if eligible {
        early := early + multiset{r};
      } else if imLeader {
        var deadline := clock.logicalTime + DEADLINE_DELAY;
        early := early + multiset{r.(deadline := deadline)};
        newDeadline := Some(deadline);
      } else {
        late := late[r.id := r];
      }
    }
  }
}
