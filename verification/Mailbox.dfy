/** The one-slot priority mailbox of a service and its worker. */
module Mailbox {
  import opened Common

  /** An event object; smaller priorities are more urgent. */
  datatype Event = Event(id: nat, priority: nat)

  datatype State = State(slot: Option<Event>, available: bool, held: Option<Event>, next: nat)

  const EMPTY := State(None, false, None, 0)

  /** One lock section of a dispatcher or of the worker. */
  datatype Action = Dispatch(priority: nat) | Take | Settle

  datatype Entry = Accepted(event: Event) | Refused(event: Event) | Taken(event: Event) | Settled(event: Event)

  function Dispatched(s: State, priority: nat): (State, seq<Entry>) {
    var e := Event(s.next, priority);
    var t := s.(next := s.next + 1);
    if s.slot.None? || priority <= s.slot.value.priority
    then (t.(slot := Some(e), available := true), [Accepted(e)]) else (t, [Refused(e)])
  }

  /** The worker, woken by the flag, reads the slot without emptying it. */
  function Taking(s: State): (State, seq<Entry>) {
    if s.held.None? && s.available && s.slot.Some?
    then (s.(held := s.slot), [Taken(s.slot.value)]) else (s, [])
  }

  /** After handling, the slot is emptied only if it still holds that event. */
  function Settling(s: State): (State, seq<Entry>) {
    if s.held.None? then (s, [])
    else
      (if s.slot == s.held then s.(slot := None, available := false, held := None) else s.(held := None),
       [Settled(s.held.value)])
  }

  function Step(s: State, a: Action): (State, seq<Entry>) {
    match a
    case Dispatch(p) => Dispatched(s, p)
    case Take => Taking(s)
    case Settle => Settling(s)
  }

  function Run(actions: seq<Action>): (State, seq<Entry>) {
    if actions == [] then (EMPTY, [])
    else
      var (s, log) := Run(actions[..|actions| - 1]);
      var (t, es) := Step(s, actions[|actions| - 1]);
      (t, log + es)
  }

  // ----- invariants -----

  predicate InSlot(s: State, e: Event) {
    s.slot == Some(e)
  }

  /** `e` is waiting or was taken, or a later event at least as urgent is or was. */
  ghost predicate Served(s: State, log: seq<Entry>, e: Event) {
    exists f: Event :: e.id <= f.id && f.priority <= e.priority && Accepted(f) in log && (InSlot(s, f) || Taken(f) in log)
  }

  /** Another event took the slot of `e` before the worker had read it. */
  ghost predicate Overtaken(log: seq<Entry>, e: Event) {
    exists i, j ::
      && 0 <= i < j < |log| && log[i] == Accepted(e)
      && log[j].Accepted? && log[j].event.priority <= e.priority
      && Taken(e) !in log[..j]
  }

  ghost predicate Accounted(s: State, log: seq<Entry>, e: Event) {
    InSlot(s, e) || Taken(e) in log || Overtaken(log, e)
  }

  /** What may follow what: events are offered, and taken, in the order of their ids. */
  predicate Ordered(before: Entry, after: Entry) {
    && (Offer(before) && Offer(after) ==> before.event.id < after.event.id)
    && (before.Taken? && after.Taken? ==> before.event.id < after.event.id)
    && (before.Taken? && Offer(after) ==> before.event.id < after.event.id)
    && (before.Accepted? && after.Taken? ==> before.event.id <= after.event.id)
  }

  predicate Offer(x: Entry) {
    x.Accepted? || x.Refused?
  }

  ghost predicate Inv(s: State, log: seq<Entry>) {
    && (s.available <==> s.slot.Some?)
    && (s.slot.Some? ==> Accepted(s.slot.value) in log)
    && (s.held.Some? ==> Taken(s.held.value) in log && (s.slot.Some? ==> s.slot == s.held || s.held.value.id < s.slot.value.id))
    && (forall x <- log :: x.event.id < s.next)
    && (forall x <- log :: x.Accepted? ==> Served(s, log, x.event) && Accounted(s, log, x.event))
    && (s.slot.Some? ==> forall x <- log :: x.Accepted? ==> x.event.id <= s.slot.value.id)
    && (forall x <- log :: x.Taken? ==> Accepted(x.event) in log && Spent(s, x.event))
    && (forall i, j :: 0 <= i < j < |log| ==> Ordered(log[i], log[j]))
  }

  /** An event once taken is in the worker's hands, or can never be read again. */
  predicate Spent(s: State, e: Event) {
    s.held == Some(e) || (s.slot.Some? ==> e.id < s.slot.value.id)
  }

  lemma ServedStays(s: State, log: seq<Entry>, t: State, es: seq<Entry>, e: Event)
    requires Served(s, log, e)
    requires s.slot.Some? ==>
               || t.slot == s.slot || Taken(s.slot.value) in log + es
               || (t.slot.Some? && s.slot.value.id < t.slot.value.id && t.slot.value.priority <= s.slot.value.priority
                   && Accepted(t.slot.value) in log + es)
    ensures Served(t, log + es, e)
  {
    var f: Event :| e.id <= f.id && f.priority <= e.priority && Accepted(f) in log && (InSlot(s, f) || Taken(f) in log);
    assert Accepted(f) in log + es;
    if Taken(f) in log {
      assert Taken(f) in log + es;
    } else if !InSlot(t, f) && Taken(f) !in log + es {
      assert InSlot(t, t.slot.value);
    }
  }

  lemma ServedBy(s: State, log: seq<Entry>, e: Event) returns (f: Event)
    requires Served(s, log, e)
    ensures e.id <= f.id && f.priority <= e.priority && Accepted(f) in log && (InSlot(s, f) || Taken(f) in log)
  {
    f :| e.id <= f.id && f.priority <= e.priority && Accepted(f) in log && (InSlot(s, f) || Taken(f) in log);
  }

  lemma ServesItself(s: State, log: seq<Entry>, e: Event)
    requires Accepted(e) in log && InSlot(s, e)
    ensures Served(s, log, e) && Accounted(s, log, e)
  {
  }

  lemma OvertakenStays(log: seq<Entry>, es: seq<Entry>, e: Event)
    requires Overtaken(log, e)
    ensures Overtaken(log + es, e)
  {
    var i, j :| 0 <= i < j < |log| && log[i] == Accepted(e) && log[j].Accepted?
                && log[j].event.priority <= e.priority && Taken(e) !in log[..j];
    assert (log + es)[..j] == log[..j];
    assert (log + es)[i] == Accepted(e) && (log + es)[j] == log[j];
  }

  lemma Overtakes(log: seq<Entry>, e: Event, f: Event)
    requires Accepted(e) in log && Taken(e) !in log && f.priority <= e.priority
    ensures Overtaken(log + [Accepted(f)], e)
  {
    var i :| 0 <= i < |log| && log[i] == Accepted(e);
    var all := log + [Accepted(f)];
    assert all[i] == Accepted(e) && all[|log|] == Accepted(f) && all[..|log|] == log;
  }

  lemma AccountedStep(s: State, log: seq<Entry>, a: Action, e: Event)
    requires Inv(s, log) && Accepted(e) in log
    ensures Accounted(Step(s, a).0, log + Step(s, a).1, e)
  {
    hide Served, Ordered;
    var (t, es) := Step(s, a);
    if Overtaken(log, e) {
      OvertakenStays(log, es, e);
    } else if Taken(e) in log {
      assert Taken(e) in log + es;
    } else if !InSlot(t, e) {
      Overtakes(log, e, t.slot.value);
    }
  }

  lemma StepInv(s: State, log: seq<Entry>, a: Action)
    requires Inv(s, log)
    ensures Inv(Step(s, a).0, log + Step(s, a).1)
  {
    hide Served, Ordered, Accounted;
    var (t, es) := Step(s, a);
    forall x | x in log && x.Accepted? ensures Served(t, log + es, x.event) && Accounted(t, log + es, x.event) {
      ServedStays(s, log, t, es, x.event);
      AccountedStep(s, log, a, x.event);
    }
    StepOrdered(s, log, a);
    if a.Dispatch? && es[0].Accepted? {
      ServesItself(t, log + es, es[0].event);
    }
  }

  lemma StepOrdered(s: State, log: seq<Entry>, a: Action)
    requires Inv(s, log)
    ensures forall i, j :: 0 <= i < j < |log + Step(s, a).1| ==> Ordered((log + Step(s, a).1)[i], (log + Step(s, a).1)[j])
  {
    var es := Step(s, a).1;
    forall i | 0 <= i < |log| && es != [] ensures Ordered(log[i], es[0]) {
      assert log[i] in log;
    }
  }

  lemma {:induction false} RunInv(actions: seq<Action>)
    ensures Inv(Run(actions).0, Run(actions).1)
  {
    if actions != [] {
      RunInv(actions[..|actions| - 1]);
      var (s, log) := Run(actions[..|actions| - 1]);
      StepInv(s, log, actions[|actions| - 1]);
    }
  }

  // ----- what dispatchers may rely on -----

  /** The worker is told to look exactly when there is something to read. */
  lemma FlagMeansFull(actions: seq<Action>)
    ensures Run(actions).0.available <==> Run(actions).0.slot.Some?
  {
    RunInv(actions);
  }

  lemma SameOffer(actions: seq<Action>, x: Entry, y: Entry)
    requires x in Run(actions).1 && y in Run(actions).1 && Offer(x) && Offer(y) && x.event.id == y.event.id
    ensures x == y
  {
    hide Served;
    RunInv(actions);
    var log := Run(actions).1;
    var i :| 0 <= i < |log| && log[i] == x;
    var j :| 0 <= j < |log| && log[j] == y;
    assert i < j ==> Ordered(x, y);
    assert j < i ==> Ordered(y, x);
  }

  /** The most recently accepted event is waiting in the slot or was taken. */
  lemma LatestIsServed(actions: seq<Action>, i: nat)
    requires i < |Run(actions).1| && Run(actions).1[i].Accepted?
    requires forall j :: i < j < |Run(actions).1| ==> !Run(actions).1[j].Accepted?
    ensures var e := Run(actions).1[i].event; InSlot(Run(actions).0, e) || Taken(e) in Run(actions).1
  {
    hide Served, Run;
    RunInv(actions);
    var (s, log) := Run(actions);
    assert log[i] in log;
    var f := ServedBy(s, log, log[i].event);
    var j :| 0 <= j < |log| && log[j] == Accepted(f);
    assert j < i ==> Ordered(log[j], log[i]);
  }

  /** Every accepted event is taken or waiting, or a later one at least as urgent is. */
  lemma AcceptedIsServed(actions: seq<Action>, e: Event)
    requires Accepted(e) in Run(actions).1
    ensures Served(Run(actions).0, Run(actions).1, e)
  {
    RunInv(actions);
  }

  /** No event is handled twice, and none out of turn. */
  lemma HandledOnce(actions: seq<Action>, i: nat, j: nat)
    requires i < j < |Run(actions).1| && Run(actions).1[i].Taken? && Run(actions).1[j].Taken?
    ensures Run(actions).1[i].event.id < Run(actions).1[j].event.id
  {
    RunInv(actions);
    assert Ordered(Run(actions).1[i], Run(actions).1[j]);
  }

  /** An event the slot turned away is never handled. */
  lemma RefusedIsLost(actions: seq<Action>, e: Event)
    requires Refused(e) in Run(actions).1
    ensures Taken(e) !in Run(actions).1
  {
    RunInv(actions);
    if Taken(e) in Run(actions).1 {
      SameOffer(actions, Refused(e), Accepted(e));
    }
  }

  /** An offered event is lost, neither waiting nor ever taken, exactly if the slot
      turned it away or another event took its place before the worker read it. */
  lemma LostExactly(actions: seq<Action>, e: Event)
    requires var log := Run(actions).1; Accepted(e) in log || Refused(e) in log
    ensures var (s, log) := Run(actions);
            Taken(e) !in log && !InSlot(s, e) <==> Refused(e) in log || Overtaken(log, e)
  {
    hide Served, Run;
    RunInv(actions);
    var (s, log) := Run(actions);
    if Refused(e) in log {
      RefusedIsLost(actions, e);
      if InSlot(s, e) {
        SameOffer(actions, Refused(e), Accepted(e));
      }
    } else if Overtaken(log, e) {
      OvertakenIsLost(s, log, e);
    }
  }

  lemma OvertakenIsLost(s: State, log: seq<Entry>, e: Event)
    requires Inv(s, log) && Overtaken(log, e)
    ensures Taken(e) !in log && !InSlot(s, e)
  {
    hide Served, Accounted;
    var i, j :| 0 <= i < j < |log| && log[i] == Accepted(e) && log[j].Accepted?
                && log[j].event.priority <= e.priority && Taken(e) !in log[..j];
    assert Ordered(log[i], log[j]) && log[j] in log;
    forall k | 0 <= k < |log| ensures log[k] != Taken(e) {
      if k < j {
        assert log[..j][k] == log[k];
      } else if j < k {
        assert Ordered(log[j], log[k]);
      }
    }
  }

  /** Some event waits that the worker has not read. */
  predicate Waiting(s: State) {
    s.slot.Some? && s.slot != s.held
  }

  /** Though nothing waits, an offer is turned away exactly while a more urgent
      event is being handled that is still in the slot. */
  lemma RefusedThoughIdle(actions: seq<Action>, priority: nat)
    requires !Waiting(Run(actions).0)
    ensures Refused(Event(Run(actions).0.next, priority)) in Step(Run(actions).0, Dispatch(priority)).1
       <==> Run(actions).0.held.Some? && Run(actions).0.slot == Run(actions).0.held
            && Run(actions).0.held.value.priority < priority
  {
    hide Run;
  }

  /** An event at least as urgent as `e` waits in the slot, or has been handled. */
  ghost predicate Upheld(s: State, log: seq<Entry>, e: Event) {
    || (s.slot.Some? && e.id <= s.slot.value.id && s.slot.value.priority <= e.priority)
    || exists g: Event :: e.id <= g.id && g.priority <= e.priority && Settled(g) in log
  }

  /** The slot's priority does not worsen before an event of it is handled. */
  lemma {:induction false} NeverWorsens(actions: seq<Action>, n: nat, e: Event)
    requires n <= |actions| && Run(actions[..n]).0.slot == Some(e)
    ensures Upheld(Run(actions).0, Run(actions).1, e)
  {
    if n == |actions| {
      assert actions[..n] == actions;
    } else {
      var front := actions[..|actions| - 1];
      assert front[..n] == actions[..n];
      NeverWorsens(front, n, e);
      RunInv(front);
      UpheldStep(Run(front).0, Run(front).1, actions[|actions| - 1], e);
    }
  }

  lemma UpheldStep(s: State, log: seq<Entry>, a: Action, e: Event)
    requires Inv(s, log) && Upheld(s, log, e)
    ensures Upheld(Step(s, a).0, log + Step(s, a).1, e)
  {
    var (t, es) := Step(s, a);
    if g: Event :| e.id <= g.id && g.priority <= e.priority && Settled(g) in log {
      assert Settled(g) in log + es;
    } else if a.Settle? && s.held.Some? && s.slot == s.held {
      assert Settled(s.held.value) in log + es;
    }
  }

  /** The event being handled still guards the slot: a less urgent event offered
      meanwhile is lost although nothing else is waiting. */
  lemma LostBehindHandledEvent()
    ensures var (s, log) := Run([Dispatch(1), Take, Dispatch(2), Settle]);
            s.slot.None? && s.held.None? && Refused(Event(1, 2)) in log && Taken(Event(0, 1)) in log
  {
    var a1 := [] + [Dispatch(1)];
    var a2 := a1 + [Take];
    var a3 := a2 + [Dispatch(2)];
    RunOn([], Dispatch(1));
    RunOn(a1, Take);
    RunOn(a2, Dispatch(2));
    RunOn(a3, Settle);
    assert a3 + [Settle] == [Dispatch(1), Take, Dispatch(2), Settle];
    var log := Run(a3 + [Settle]).1;
    assert log[1] == Taken(Event(0, 1)) && log[2] == Refused(Event(1, 2));
  }

  lemma RunOn(actions: seq<Action>, a: Action)
    ensures Run(actions + [a])
         == (Step(Run(actions).0, a).0, Run(actions).1 + Step(Run(actions).0, a).1)
  {
    assert (actions + [a])[..|actions|] == actions;
  }

  // ----- the state, told from the history -----

  /** The event in the slot is the latest accepted, until it is settled. */
  ghost predicate Occupies(log: seq<Entry>, e: Event) {
    Accepted(e) in log && Settled(e) !in log && forall x <- log :: x.Accepted? ==> x.event.id <= e.id
  }

  predicate Handles(log: seq<Entry>, e: Event) {
    Taken(e) in log && Settled(e) !in log
  }

  ghost predicate Told(s: State, log: seq<Entry>) {
    && (forall e :: s.slot == Some(e) <==> Occupies(log, e))
    && (forall e :: s.held == Some(e) <==> Handles(log, e))
  }

  lemma ToldStep(s: State, log: seq<Entry>, a: Action)
    requires Inv(s, log) && Told(s, log)
    ensures Told(Step(s, a).0, log + Step(s, a).1)
  {
    hide Served, Accounted, Ordered;
    var (t, es) := Step(s, a);
    forall e ensures t.slot == Some(e) <==> Occupies(log + es, e) {
      assert s.slot == Some(e) <==> Occupies(log, e);
      if s.held.Some? {
        assert Taken(s.held.value) in log;
      }
      if a.Dispatch? {
        assert Settled(Event(s.next, a.priority)) !in log by {
          assert forall x <- log :: x.event.id < s.next;
        }
        if es == [Accepted(Event(s.next, a.priority))] {
          assert es[0] in log + es;
        }
      }
    }
    forall e ensures t.held == Some(e) <==> Handles(log + es, e) {
      assert s.held == Some(e) <==> Handles(log, e);
      if a.Take? && es != [] {
        SlotUnsettled(s, log);
        assert es[0] in log + es;
      }
      if a.Settle? && es != [] {
        assert es[0] in log + es;
      }
    }
  }

  lemma SlotUnsettled(s: State, log: seq<Entry>)
    requires Told(s, log) && s.slot.Some?
    ensures Settled(s.slot.value) !in log
  {
    assert Occupies(log, s.slot.value);
  }

  lemma {:induction false} RunTold(actions: seq<Action>)
    ensures Told(Run(actions).0, Run(actions).1)
  {
    if actions == [] {
      NothingTold();
    } else {
      hide Told, Inv, Step;
      var front := actions[..|actions| - 1];
      RunTold(front);
      RunInv(front);
      ToldStep(Run(front).0, Run(front).1, actions[|actions| - 1]);
    }
  }

  lemma NothingTold()
    ensures Told(EMPTY, [])
  {
  }

  /** An offer is accepted exactly if no more urgent event fills the slot, which is
      the latest accepted one until it was handled; it then fills the slot itself. */
  lemma OfferExactly(actions: seq<Action>, priority: nat)
    ensures var (s, log) := Run(actions); var (t, es) := Step(s, Dispatch(priority)); var e := Event(s.next, priority);
            && (es == [Accepted(e)] || es == [Refused(e)]) && t.next == s.next + 1 && t.held == s.held
            && (es == [Accepted(e)] <==> forall f: Event :: Occupies(log, f) ==> priority <= f.priority)
            && t.slot == (if es == [Accepted(e)] then Some(e) else s.slot)
  {
    RunTold(actions);
    hide Run, Occupies;
    var (s, log) := Run(actions);
    if s.slot.Some? {
      assert Occupies(log, s.slot.value);
    }
  }

  /** A free worker takes what fills the slot, whenever something does; once it has
      handled it the worker is free, and the slot too unless something newer is in. */
  lemma WorkerExactly(actions: seq<Action>)
    ensures var (s, log) := Run(actions); var (t, es) := Step(s, Take);
            && es == (if s.held.None? && s.slot.Some? then [Taken(s.slot.value)] else [])
            && t == s.(held := if s.held.None? then s.slot else s.held)
    ensures var (s, log) := Run(actions); var (t, es) := Step(s, Settle);
            && es == (if s.held.Some? then [Settled(s.held.value)] else [])
            && t.held == None && t.next == s.next
            && t.slot == (if s.held.Some? && s.slot == s.held then None else s.slot)
  {
    RunInv(actions);
    hide Run, Served, Accounted, Ordered;
  }

  // ----- the service object -----

  class Service {
    var currentEvent: Option<Event>
    var eventAvailable: bool
    var held: Option<Event>
    var next: nat

    ghost function View(): State
      reads this
    {
      State(currentEvent, eventAvailable, held, next)
    }

    constructor ()
      ensures View() == EMPTY
    {
      currentEvent, eventAvailable, held, next := None, false, None, 0;
    }

    method Dispatch(priority: nat)
      modifies this
      ensures View() == Step(old(View()), Action.Dispatch(priority)).0
    {
      var event := Event(next, priority);
      next := next + 1;
      if currentEvent.None? || event.priority <= currentEvent.value.priority {
        currentEvent := Some(event);
        eventAvailable := true;
      }
    }

    method Take()
      requires held.None?
      modifies this`held
      ensures View() == Step(old(View()), Action.Take).0
    {
      if eventAvailable {
        held := currentEvent;
      }
    }

    method Settle()
      requires held.Some?
      modifies this
      ensures View() == Step(old(View()), Action.Settle).0
    {
      if currentEvent == held {
        currentEvent := None;
        eventAvailable := false;
      }
      held := None;
    }
  }
}
