/** The two-thread action queue of the touch handler: the poll thread resolves
    gestures and queues them under a generation, the action thread checks each
    one again before it begins. Times are milliseconds of a monotonic clock. */
module ActionQueue {
  import opened Common
  import opened TouchButton

  const CAPACITY := 2

  /** Gestures with consequences are never queued behind other work, and expire. */
  predicate Guarded(kind: Kind) {
    kind == Hold || kind == Triple || kind == Swipe
  }

  datatype Item = Item(serial: nat, kind: Kind, generation: nat, queuedAt: int)

  /** `fetched` was taken from the queue and not checked yet. */
  datatype Handler = Handler(
    now: int,
    generation: nat,
    pending: seq<Item>,
    stopped: bool,
    fetched: Option<Item>,
    running: Option<Item>,
    busy: bool,
    serial: nat)

  const STARTED := Handler(0, 0, [], false, None, None, false, 0)

  /** One section of the poll thread, the action thread or a stopping thread. */
  datatype Action = Pass(ms: nat) | DropPending | Resolve(kind: Kind) | Halt | Fetch | Check | Finish

  datatype Entry =
    | Invalidated(generation: nat)
    | Queued(item: Item)
    | Discarded(kind: Kind)
    | Halted
    | Begun(item: Item, at: int)
    | Ended

  function Resolved(s: Handler, kind: Kind): (Handler, seq<Entry>) {
    if s.stopped then (s, [])
    else if Guarded(kind) && (s.busy || s.pending != []) then (s, [Discarded(kind)])
    else if |s.pending| == CAPACITY then (s, [Discarded(kind)])
    else
      var item := Item(s.serial, kind, s.generation, s.now);
      (s.(pending := s.pending + [item], serial := s.serial + 1), [Queued(item)])
  }

  predicate Fresh(s: Handler, item: Item) {
    !s.stopped && item.generation == s.generation && !(Guarded(item.kind) && s.now - item.queuedAt > DOUBLE_CLICK_WINDOW)
  }

  function Checked(s: Handler): (Handler, seq<Entry>) {
    if s.fetched.None? then (s, [])
    else if Fresh(s, s.fetched.value) then
      (s.(fetched := None, running := s.fetched, busy := true), [Begun(s.fetched.value, s.now)])
    else (s.(fetched := None), [Discarded(s.fetched.value.kind)])
  }

  function Advance(s: Handler, a: Action): (Handler, seq<Entry>) {
    match a
    case Pass(ms) => (s.(now := s.now + ms), [])
    case DropPending => (s.(generation := s.generation + 1, pending := []), [Invalidated(s.generation + 1)])
    case Resolve(kind) => Resolved(s, kind)
    case Halt => (s.(stopped := true), [Halted])
    case Fetch =>
      if s.fetched.None? && s.running.None? && s.pending != []
      then (s.(fetched := Some(s.pending[0]), pending := s.pending[1..]), []) else (s, [])
    case Check => Checked(s)
    case Finish => if s.running.Some? then (s.(running := None, busy := false), [Ended]) else (s, [])
  }

  function Run(actions: seq<Action>): (Handler, seq<Entry>) {
    if actions == [] then (STARTED, [])
    else
      var (s, log) := Run(actions[..|actions| - 1]);
      var (t, es) := Advance(s, actions[|actions| - 1]);
      (t, log + es)
  }

  // ----- invariants -----

  predicate Item?(e: Entry) {
    e.Queued? || e.Begun?
  }

  /** What may follow what. */
  predicate Ordered(before: Entry, after: Entry) {
    && (before.Queued? && after.Queued? ==> before.item.serial < after.item.serial)
    && (before.Begun? && after.Begun? ==> before.item.serial < after.item.serial)
    && (before.Begun? && after.Queued? ==> before.item.serial < after.item.serial)
    && (before.Queued? && after.Invalidated? ==> before.item.generation < after.generation)
    && (before.Invalidated? && Item?(after) ==> before.generation <= after.item.generation)
    && (before.Halted? ==> !Item?(after))
  }

  /** The items taken out of the queue but not begun, and those still in it. */
  function Waiting(s: Handler): seq<Item> {
    (if s.fetched.Some? then [s.fetched.value] else []) + s.pending
  }

  /** Waiting items were queued, in order, after everything that began. */
  ghost predicate Lined(w: seq<Item>, log: seq<Entry>) {
    && (forall x <- w :: Queued(x) in log)
    && (forall x <- w, e <- log :: e.Begun? ==> e.item.serial < x.serial)
    && (forall i, j :: 0 <= i < j < |w| ==> w[i].serial < w[j].serial)
  }

  ghost predicate Inv(s: Handler, log: seq<Entry>) {
    && |s.pending| <= CAPACITY
    && (s.busy <==> s.running.Some?)
    && (s.fetched.Some? ==> s.running.None?)
    && (s.stopped <==> Halted in log)
    && (forall e <- log :: e.Invalidated? ==> e.generation <= s.generation)
    && (forall e <- log :: Item?(e) ==> e.item.serial < s.serial && e.item.generation <= s.generation)
    && Lined(Waiting(s), log)
    && (forall e <- log :: e.Begun? ==> Queued(e.item) in log && InTime(e))
    && (forall i, j :: 0 <= i < j < |log| ==> Ordered(log[i], log[j]))
  }

  predicate InTime(e: Entry)
    requires e.Begun?
  {
    Guarded(e.item.kind) ==> e.at - e.item.queuedAt <= DOUBLE_CLICK_WINDOW
  }

  /** The one entry a step may log, against the state it is logged in. */
  ghost predicate Fits(s: Handler, t: Handler, e: Entry) {
    && (e.Queued? ==> !s.stopped && e.item.serial == s.serial < t.serial && e.item.generation == s.generation)
    && (e.Begun? ==> !s.stopped && s.fetched == Some(e.item) && e.item.generation == s.generation && InTime(e))
    && (e.Invalidated? ==> e.generation == s.generation + 1 == t.generation)
  }

  lemma StepFits(s: Handler, log: seq<Entry>, a: Action)
    requires Inv(s, log)
    ensures |Advance(s, a).1| <= 1 && forall e <- Advance(s, a).1 :: Fits(s, Advance(s, a).0, e)
    ensures var t := Advance(s, a).0;
            && s.generation <= t.generation && s.serial <= t.serial && |t.pending| <= CAPACITY
            && (t.busy <==> t.running.Some?) && (t.fetched.Some? ==> t.running.None?)
            && (t.stopped <==> s.stopped || Halted in Advance(s, a).1)
  {
  }

  /** What waits after a step: some of what waited before, and what was queued. */
  lemma StepWaiting(s: Handler, a: Action)
    requires s.fetched.Some? ==> s.running.None?
    ensures var (t, es) := Advance(s, a); Line(Waiting(s), Waiting(t), es)
    ensures forall e <- Advance(s, a).1 :: e.Queued? ==> e.item.serial == s.serial
  {
  }

  predicate Line(w: seq<Item>, w': seq<Item>, es: seq<Entry>) {
    if es != [] && es[0].Queued? then w' == w + [es[0].item]
    else if es != [] && es[0].Begun? then w != [] && es[0].item == w[0] && w' == w[1..]
    else w' == w || (w != [] && w' == w[1..]) || (w != [] && w' == [w[0]]) || w' == []
  }

  lemma LinedStep(w: seq<Item>, w': seq<Item>, log: seq<Entry>, es: seq<Entry>, serial: nat)
    requires Lined(w, log) && Line(w, w', es) && |es| <= 1
    requires forall e <- log :: Item?(e) ==> e.item.serial < serial
    requires forall e <- es :: e.Queued? ==> e.item.serial == serial
    ensures Lined(w', log + es)
  {
    forall x | x in w' ensures Queued(x) in log + es && forall e <- log + es :: e.Begun? ==> e.item.serial < x.serial {
      assert x in w ==> Queued(x) in log;
      if es != [] && es[0].Begun? {
        var k :| 0 <= k < |w'| && w'[k] == x;
        assert w[0].serial < w[k + 1].serial;
      }
    }
    forall i, j | 0 <= i < j < |w'| ensures w'[i].serial < w'[j].serial {
      if j < |w| && w'[j] == w[j] {
        assert w'[i] == w[i];
      } else if es != [] && es[0].Queued? {
        assert w[i] in w && Queued(w[i]) in log;
      }
    }
  }

  lemma StepOrdered(s: Handler, log: seq<Entry>, a: Action)
    requires Inv(s, log)
    ensures forall i, j :: 0 <= i < j < |log + Advance(s, a).1| ==> Ordered((log + Advance(s, a).1)[i], (log + Advance(s, a).1)[j])
  {
    StepFits(s, log, a);
    var (t, es) := Advance(s, a);
    hide Advance;
    forall i | 0 <= i < |log| && es != [] ensures Ordered(log[i], es[0]) {
      assert log[i] in log && es[0] in es;
      assert es[0].Begun? ==> es[0].item == Waiting(s)[0];
    }
  }

  lemma StepInv(s: Handler, log: seq<Entry>, a: Action)
    requires Inv(s, log)
    ensures Inv(Advance(s, a).0, log + Advance(s, a).1)
  {
    StepFits(s, log, a);
    StepWaiting(s, a);
    StepOrdered(s, log, a);
    LinedStep(Waiting(s), Waiting(Advance(s, a).0), log, Advance(s, a).1, s.serial);
    BoundsStep(s, log, a);
    hide Advance, Waiting, Ordered, Lined, Line, InTime, Fits;
    var es := Advance(s, a).1;
    forall e | e in log + es && e.Begun? ensures Queued(e.item) in log + es && InTime(e) {
      if e in es {
        BeganQueued(s, log, a, e);
      }
    }
  }

  lemma BoundsStep(s: Handler, log: seq<Entry>, a: Action)
    requires Inv(s, log)
    ensures var (t, es) := Advance(s, a);
            && (forall e <- log + es :: e.Invalidated? ==> e.generation <= t.generation)
            && (forall e <- log + es :: Item?(e) ==> e.item.serial < t.serial && e.item.generation <= t.generation)
  {
    StepFits(s, log, a);
    hide Advance, Ordered, InTime;
    if s.fetched.Some? {
      assert Queued(Waiting(s)[0]) in log;
    }
  }

  lemma BeganQueued(s: Handler, log: seq<Entry>, a: Action, e: Entry)
    requires Inv(s, log) && e in Advance(s, a).1 && e.Begun?
    ensures Queued(e.item) in log && InTime(e)
  {
    assert e.item == Waiting(s)[0];
  }

  lemma {:induction false} RunInv(actions: seq<Action>)
    ensures Inv(Run(actions).0, Run(actions).1)
  {
    if actions != [] {
      RunInv(actions[..|actions| - 1]);
      var (s, log) := Run(actions[..|actions| - 1]);
      StepInv(s, log, actions[|actions| - 1]);
    }
  }

  // ----- what the device may rely on -----

  /** A stale action never begins: it was queued, and between its queueing and
      its beginning nothing was invalidated and nothing stopped. A guarded one
      begins within the click window of being queued. */
  lemma NoStaleBegin(actions: seq<Action>, j: nat) returns (i: nat)
    requires j < |Run(actions).1| && Run(actions).1[j].Begun?
    ensures i < j && Run(actions).1[i] == Queued(Run(actions).1[j].item)
    ensures forall k :: i < k < j ==> !Run(actions).1[k].Invalidated? && !Run(actions).1[k].Halted?
    ensures InTime(Run(actions).1[j])
  {
    RunInv(actions);
    hide Run, Waiting;
    var log := Run(actions).1;
    assert log[j] in log;
    i :| 0 <= i < |log| && log[i] == Queued(log[j].item);
    assert j < i ==> Ordered(log[j], log[i]);
    forall k | i < k < j ensures !log[k].Invalidated? && !log[k].Halted? {
      assert Ordered(log[i], log[k]) && Ordered(log[k], log[j]);
    }
  }

  /** Actions begin at most once each, in the order they were queued. */
  lemma BeginInOrder(actions: seq<Action>, i: nat, j: nat, p: nat, q: nat)
    requires i < j < |Run(actions).1| && p < |Run(actions).1| && q < |Run(actions).1|
    requires Run(actions).1[i].Begun? && Run(actions).1[p] == Queued(Run(actions).1[i].item)
    requires Run(actions).1[j].Begun? && Run(actions).1[q] == Queued(Run(actions).1[j].item)
    ensures p < q
  {
    RunInv(actions);
    hide Run, Waiting;
    var log := Run(actions).1;
    assert Ordered(log[i], log[j]);
    assert q < p ==> Ordered(log[q], log[p]);
  }

  // ----- what the guard misses, and why that does no harm -----

  /** A guarded gesture is meant to be dropped when there is work ahead of it.
      By itself the guard lets one through behind other work exactly when the
      action thread holds an item it has not checked yet. */
  lemma GuardMissesFetched(actions: seq<Action>, kind: Kind)
    requires Guarded(kind) && !Run(actions).0.stopped
    ensures var s := Run(actions).0;
            var ahead := Waiting(s) != [] || s.running.Some?;
            !ahead ==> Resolved(s, kind).1 == [Queued(Item(s.serial, kind, s.generation, s.now))]
    ensures var s := Run(actions).0;
            var ahead := Waiting(s) != [] || s.running.Some?;
            ahead && Resolved(s, kind).1 != [Discarded(kind)] <==> s.fetched.Some? && s.pending == []
  {
    RunInv(actions);
  }

  /** Kinds of events that reach the queue. */
  predicate Queueable(k: Kind) {
    k == Single || k == Cue || Guarded(k)
  }

  /** Kinds of events that neither invalidate nor reach the queue. */
  predicate Silent(k: Kind) {
    k == Press || k == Release || k == HoldTier
  }

  /** Whether an invalidation came after everything offered to the queue. */
  function After(clear: bool, k: Kind): bool {
    if k == Invalidate then true else clear && Silent(k)
  }

  function Cleared(clear: bool, ks: seq<Kind>): bool
    decreases |ks|
  {
    if ks == [] then clear else Cleared(After(clear, ks[0]), ks[1..])
  }

  /** Guarded kinds come only after such an invalidation, which heralds them. */
  predicate Heralded(clear: bool, ks: seq<Kind>)
    decreases |ks|
  {
    ks == [] || ((Guarded(ks[0]) ==> clear) && Heralded(After(clear, ks[0]), ks[1..]))
  }

  lemma {:induction false} HeraldedJoin(clear: bool, a: seq<Kind>, b: seq<Kind>)
    ensures Cleared(clear, a + b) == Cleared(Cleared(clear, a), b)
    ensures Heralded(clear, a + b) <==> Heralded(clear, a) && Heralded(Cleared(clear, a), b)
    decreases |a|
  {
    if a == [] {
      assert a + b == b;
    } else {
      assert (a + b)[1..] == a[1..] + b;
      HeraldedJoin(After(clear, a[0]), a[1..], b);
    }
  }

  /** What the poll thread, and whoever else invalidates, did to the queue. */
  function Poll(actions: seq<Action>): seq<Kind> {
    if actions == [] then []
    else
      Poll(actions[..|actions| - 1]) +
      match actions[|actions| - 1]
      case DropPending => [Invalidate]
      case Resolve(kind) => [kind]
      case _ => []
  }

  /** The poll thread handles the events of a recognizer in order, as far as it
      got; others may invalidate in between. */
  predicate Follows(p: seq<Kind>, ks: seq<Kind>)
    decreases |p| + |ks|
  {
    || p == []
    || (p[0] == Invalidate && Follows(p[1..], ks))
    || (ks != [] && Silent(ks[0]) && Follows(p, ks[1..]))
    || (ks != [] && !Silent(ks[0]) && p[0] == ks[0] && Follows(p[1..], ks[1..]))
  }

  lemma {:induction false} FollowsHeralded(p: seq<Kind>, ks: seq<Kind>, clear: bool, clear': bool)
    requires Follows(p, ks) && Heralded(clear, ks) && (clear ==> clear')
    ensures Heralded(clear', p)
    decreases |p| + |ks|
  {
    if p == [] {
    } else if p[0] == Invalidate && Follows(p[1..], ks) {
      FollowsHeralded(p[1..], ks, clear, true);
    } else if ks != [] && Silent(ks[0]) && Follows(p, ks[1..]) {
      FollowsHeralded(p, ks[1..], clear, clear');
    } else {
      FollowsHeralded(p[1..], ks[1..], After(clear, ks[0]), After(clear', p[0]));
    }
  }

  /** The queue is fed as recognizers emit. */
  predicate Fed(actions: seq<Action>) {
    Heralded(true, Poll(actions)) && forall a <- actions :: a.Resolve? ==> Queueable(a.kind)
  }

  predicate Precedes(x: Item, e: Entry) {
    e.Queued? && Guarded(e.item.kind) && x.serial < e.item.serial
  }

  /** After an invalidation nothing waits that could still begin. */
  predicate Rid(s: Handler, clear: bool) {
    clear ==> s.pending == [] && (s.fetched.Some? ==> s.fetched.value.generation < s.generation)
  }

  /** Nor does anything that was waiting when a guarded gesture was queued. */
  ghost predicate Stale(s: Handler, log: seq<Entry>) {
    forall x <- Waiting(s), e <- log :: Precedes(x, e) ==> x.generation < s.generation
  }

  ghost predicate Apart(log: seq<Entry>) {
    forall i, j :: 0 <= i < j < |log| && log[j].Begun? ==> !Precedes(log[j].item, log[i])
  }

  lemma RidStep(s: Handler, log: seq<Entry>, a: Action, clear: bool)
    requires Inv(s, log) && Rid(s, clear)
    ensures Rid(Advance(s, a).0, if a.DropPending? then true else if a.Resolve? then false else clear)
    ensures forall e <- Advance(s, a).1 :: e.Queued? ==> a == Resolve(e.item.kind)
    ensures clear ==> forall x <- Waiting(s) :: x.generation < s.generation
  {
    if s.fetched.Some? {
      assert Waiting(s)[0] == s.fetched.value;
      assert Queued(s.fetched.value) in log;
    }
  }

  lemma StaleStep(s: Handler, log: seq<Entry>, a: Action, clear: bool)
    requires Inv(s, log) && Rid(s, clear) && Stale(s, log)
    requires a.Resolve? ==> Guarded(a.kind) ==> clear
    ensures Stale(Advance(s, a).0, log + Advance(s, a).1)
  {
    StepFits(s, log, a);
    StepWaiting(s, a);
    RidStep(s, log, a, clear);
    hide Advance, Waiting, Ordered, Fits;
    var (t, es) := Advance(s, a);
    forall x | x in Waiting(t) && x !in Waiting(s) ensures x.serial == s.serial {
      assert x == es[0].item && es[0] in es;
    }
    forall x, e | x in Waiting(t) && e in log + es && Precedes(x, e) ensures x.generation < t.generation {
      assert e in log || e == es[0];
    }
  }

  lemma ApartStep(s: Handler, log: seq<Entry>, a: Action)
    requires Inv(s, log) && Stale(s, log) && Apart(log)
    ensures Apart(log + Advance(s, a).1)
  {
    StepFits(s, log, a);
    StepWaiting(s, a);
    hide Advance, Waiting, Ordered, Precedes;
    var es := Advance(s, a).1;
    forall i, j | 0 <= i < j < |log + es| && (log + es)[j].Begun? ensures !Precedes((log + es)[j].item, (log + es)[i]) {
      if j == |log| {
        assert es[0] in es && log[i] in log;
        assert es[0].item == Waiting(s)[0];
      }
    }
  }

  lemma {:induction false} RunApart(actions: seq<Action>)
    requires Fed(actions)
    ensures var (s, log) := Run(actions);
            Rid(s, Cleared(true, Poll(actions))) && Stale(s, log) && Apart(log)
  {
    if actions == [] {
    } else {
      hide Rid, Stale, Apart, Inv, Advance, Heralded, Cleared;
      var front, a := actions[..|actions| - 1], actions[|actions| - 1];
      var (s, log) := Run(front);
      FedFront(actions);
      RunApart(front);
      RunInv(front);
      RidStep(s, log, a, Cleared(true, Poll(front)));
      StaleStep(s, log, a, Cleared(true, Poll(front)));
      ApartStep(s, log, a);
    }
  }

  lemma FedFront(actions: seq<Action>)
    requires actions != [] && Fed(actions)
    ensures var front, a := actions[..|actions| - 1], actions[|actions| - 1];
            var clear := Cleared(true, Poll(front));
            && Fed(front) && (a.Resolve? ==> Guarded(a.kind) ==> clear)
            && Cleared(true, Poll(actions)) == if a.DropPending? then true else if a.Resolve? then false else clear
  {
    var front, a := actions[..|actions| - 1], actions[|actions| - 1];
    assert a in actions;
    var ks := if a.DropPending? then [Invalidate] else if a.Resolve? then [a.kind] else [];
    assert Poll(actions) == Poll(front) + ks;
    HeraldedJoin(true, Poll(front), ks);
  }

  /** Fed as recognizers emit, a guarded gesture is refused exactly while an action
      runs, and what the action thread holds when it is queued is stale. */
  lemma GuardSuffices(actions: seq<Action>, kind: Kind)
    requires Guarded(kind) && !Run(actions).0.stopped && Fed(actions + [Resolve(kind)])
    ensures var s := Run(actions).0;
            && (Resolved(s, kind).1 == [Discarded(kind)] <==> s.running.Some?)
            && forall x <- Waiting(s) :: !Fresh(s, x)
  {
    assert (actions + [Resolve(kind)])[..|actions|] == actions;
    hide Inv, Rid, Stale, Apart, Fed, Resolved, Fresh, Run;
    FedFront(actions + [Resolve(kind)]);
    RunApart(actions);
    RunInv(actions);
    GuardAt(Run(actions).0, Run(actions).1, kind);
  }

  lemma GuardAt(s: Handler, log: seq<Entry>, kind: Kind)
    requires Inv(s, log) && Rid(s, true) && Guarded(kind) && !s.stopped
    ensures Resolved(s, kind).1 == [Discarded(kind)] <==> s.running.Some?
    ensures forall x <- Waiting(s) :: !Fresh(s, x)
  {
    hide Lined, Ordered;
    RidStep(s, log, Check, true);
  }

  /** So nothing queued before a guarded gesture ever begins after it was queued,
      in any run fed as recognizers emit. */
  lemma NothingAheadBegins(actions: seq<Action>, i: nat, j: nat)
    requires Fed(actions) && i < j < |Run(actions).1|
    requires Run(actions).1[i].Queued? && Guarded(Run(actions).1[i].item.kind) && Run(actions).1[j].Begun?
    ensures Run(actions).1[i].item.serial <= Run(actions).1[j].item.serial
  {
    RunApart(actions);
    assert !Precedes(Run(actions).1[j].item, Run(actions).1[i]);
  }

  // ----- what becomes of an offer -----

  /** An offer is queued, stamped with its time and generation, exactly if nothing
      stopped and fewer than two items wait, and for a guarded gesture only if none
      waits and no action runs; otherwise it is discarded. */
  lemma QueuedExactly(actions: seq<Action>, kind: Kind)
    ensures var s := Run(actions).0;
            var item := Item(s.serial, kind, s.generation, s.now);
            && (Queued(item) in Resolved(s, kind).1 <==>
                  !s.stopped && |s.pending| < 2
                  && (kind == Hold || kind == Triple || kind == Swipe ==> s.pending == [] && s.running.None?))
            && Resolved(s, kind) == (if Queued(item) in Resolved(s, kind).1
                                     then (s.(pending := s.pending + [item], serial := s.serial + 1), [Queued(item)])
                                     else (s, if s.stopped then [] else [Discarded(kind)]))
  {
    RunInv(actions);
    hide Run, Lined, Ordered;
  }

  /** The time that passed in a run. */
  function Elapsed(actions: seq<Action>): nat {
    if actions == [] then 0
    else Elapsed(actions[..|actions| - 1]) + match actions[|actions| - 1] case Pass(ms) => ms case _ => 0
  }

  /** Actions begun and not yet ended. */
  function Unended(log: seq<Entry>): int {
    if log == [] then 0
    else Unended(log[..|log| - 1]) + match log[|log| - 1] case Begun(_, _) => 1 case Ended => -1 case _ => 0
  }

  lemma {:induction false} UnendedJoin(log: seq<Entry>, more: seq<Entry>)
    ensures Unended(log + more) == Unended(log) + Unended(more)
  {
    if more == [] {
      assert log + more == log;
    } else {
      var rest := more[..|more| - 1];
      UnendedJoin(log, rest);
      assert (log + more)[..|log + more| - 1] == log + rest;
    }
  }

  function Runs(s: Handler): int {
    if s.running.Some? then 1 else 0
  }

  lemma StepTimed(s: Handler, a: Action)
    requires s.fetched.Some? ==> s.running.None?
    ensures var (t, es) := Advance(s, a);
            Unended(es) == Runs(t) - Runs(s) && t.now == s.now + match a case Pass(ms) => ms case _ => 0
  {
    hide Fresh, Guarded;
    var es := Advance(s, a).1;
    if es != [] {
      assert es[..0] == [];
    }
  }

  /** In every run the clock shows the time that passed, and one action at most has
      begun and not ended: the one that runs. */
  lemma {:induction false} RunTimed(actions: seq<Action>)
    ensures var (s, log) := Run(actions); s.now == STARTED.now + Elapsed(actions) && Unended(log) == Runs(s)
  {
    if actions != [] {
      hide Inv, Unended, Advance;
      var front, a := actions[..|actions| - 1], actions[|actions| - 1];
      RunTimed(front);
      RunInv(front);
      OneAtATime(Run(front).0, Run(front).1);
      StepTimed(Run(front).0, a);
      UnendedJoin(Run(front).1, Advance(Run(front).0, a).1);
    } else {
      assert Unended([]) == 0;
    }
  }

  lemma OneAtATime(s: Handler, log: seq<Entry>)
    requires Inv(s, log)
    ensures s.fetched.Some? ==> s.running.None?
  {
  }

  /** Some entry after `i` invalidates or stops. */
  predicate Revoked(log: seq<Entry>, i: nat) {
    exists k :: i < k < |log| && (log[k].Invalidated? || log[k].Halted?)
  }

  /** A queued item of an older generation was invalidated since. */
  ghost predicate Dated(s: Handler, log: seq<Entry>) {
    forall i :: 0 <= i < |log| && log[i].Queued? && log[i].item.generation < s.generation ==> Revoked(log, i)
  }

  lemma RevokedStays(log: seq<Entry>, es: seq<Entry>, i: nat)
    requires Revoked(log, i)
    ensures Revoked(log + es, i)
  {
    var k :| i < k < |log| && (log[k].Invalidated? || log[k].Halted?);
    assert (log + es)[k] == log[k];
  }

  lemma DatedStep(s: Handler, log: seq<Entry>, a: Action)
    requires Dated(s, log) && Inv(s, log)
    ensures Dated(Advance(s, a).0, log + Advance(s, a).1)
  {
    StepFits(s, log, a);
    var (t, es) := Advance(s, a);
    forall i | 0 <= i < |log + es| && (log + es)[i].Queued? && (log + es)[i].item.generation < t.generation
      ensures Revoked(log + es, i)
    {
      if i < |log| {
        if log[i].item.generation < s.generation {
          RevokedStays(log, es, i);
        } else {
          assert (log + es)[|log|] == es[0];
        }
      }
    }
  }

  lemma {:induction false} RunDated(actions: seq<Action>)
    ensures Dated(Run(actions).0, Run(actions).1)
  {
    if actions == [] {
      NothingDated();
    } else {
      hide Dated, Inv, Advance;
      var front := actions[..|actions| - 1];
      RunDated(front);
      RunInv(front);
      DatedStep(Run(front).0, Run(front).1, actions[|actions| - 1]);
    }
  }

  lemma NothingDated()
    ensures Dated(STARTED, [])
  {
  }

  /** The action thread begins the item it holds exactly if nothing was invalidated
      and nothing stopped since the item was queued and, for a hold, a triple or a
      swipe, at most 400 ms have passed; otherwise it discards it. */
  lemma BeginsExactly(actions: seq<Action>, i: nat)
    requires i < |Run(actions).1| && Run(actions).0.fetched.Some?
    requires Run(actions).1[i] == Queued(Run(actions).0.fetched.value)
    ensures var (s, log) := Run(actions); var item := s.fetched.value;
            var begins := !Revoked(log, i)
                          && (item.kind == Hold || item.kind == Triple || item.kind == Swipe ==> s.now - item.queuedAt <= 400);
            && Checked(s).1 == (if begins then [Begun(item, s.now)] else [Discarded(item.kind)])
            && Checked(s).0 == s.(fetched := None, running := if begins then s.fetched else s.running, busy := begins || s.busy)
  {
    RunInv(actions);
    RunDated(actions);
    hide Run, Lined, Waiting;
    var (s, log) := Run(actions);
    assert log[i] in log;
    assert forall k :: 0 <= k < i ==> Ordered(log[k], log[i]);
    assert forall k :: i < k < |log| ==> Ordered(log[i], log[k]) && log[k] in log;
    assert s.stopped ==> exists k :: 0 <= k < |log| && log[k] == Halted;
  }

  /** What became of a queued item: it waits, it began, it was invalidated, it came
      too late, or the handler stopped. */
  ghost predicate Accounted(s: Handler, log: seq<Entry>, item: Item) {
    || item in Waiting(s)
    || (exists at :: Begun(item, at) in log)
    || Void(s, item)
  }

  predicate Void(s: Handler, item: Item) {
    || item.generation < s.generation
    || s.stopped
    || (Guarded(item.kind) && s.now - item.queuedAt > 400)
  }

  /** A waiting item moves on, begins, or is void. */
  lemma MovesOn(s: Handler, a: Action, item: Item)
    requires (item in Waiting(s) && item.generation <= s.generation) || Queued(item) in Advance(s, a).1
    requires s.fetched.Some? ==> s.running.None?
    ensures var (t, es) := Advance(s, a); item in Waiting(t) || Begun(item, s.now) in es || Void(t, item)
  {
    var (t, es) := Advance(s, a);
    if a.Resolve? && es != [] && es[0].Queued? {
      assert forall x <- Waiting(s) :: x in Waiting(s) + [es[0].item];
      assert Waiting(t) == Waiting(s) + [es[0].item];
    } else if a.Fetch? && t != s {
      assert Waiting(t) == Waiting(s);
    }
  }

  lemma VoidStays(s: Handler, a: Action, item: Item)
    requires Void(s, item)
    ensures Void(Advance(s, a).0, item)
  {
  }

  /** No queued item is ever lost in any other way. */
  lemma {:induction false} NothingLost(actions: seq<Action>, item: Item)
    requires Queued(item) in Run(actions).1
    ensures Accounted(Run(actions).0, Run(actions).1, item)
  {
    hide Advance, Waiting, Void, Inv;
    if actions != [] {
      var front, a := actions[..|actions| - 1], actions[|actions| - 1];
      var (s, log) := Run(front);
      RunInv(front);
      if Queued(item) in log {
        NothingLost(front, item);
        if at :| Begun(item, at) in log {
          assert Begun(item, at) in Run(actions).1;
        } else if Void(s, item) {
          VoidStays(s, a, item);
        } else {
          WaitingKnown(s, log, item);
          MovesOn(s, a, item);
        }
      } else {
        WaitingApart(s, log);
        MovesOn(s, a, item);
      }
    }
  }

  lemma WaitingKnown(s: Handler, log: seq<Entry>, item: Item)
    requires Inv(s, log) && item in Waiting(s)
    ensures item.generation <= s.generation && (s.fetched.Some? ==> s.running.None?)
  {
    hide Waiting;
    assert Queued(item) in log;
  }

  lemma WaitingApart(s: Handler, log: seq<Entry>)
    requires Inv(s, log)
    ensures s.fetched.Some? ==> s.running.None?
  {
  }

  // ----- progress -----

  /** One turn of the action thread: what it holds is checked and run to its end,
      and the oldest item that waits is taken. */
  function Turn(s: Handler): Handler {
    Advance(Advance(Advance(s, Check).0, Finish).0, Fetch).0
  }

  /** Each turn frees the thread and takes the next item; three turns and a check
      leave nothing waiting, so every item is begun or discarded. */
  lemma TurnProceeds(actions: seq<Action>)
    ensures var s, t := Run(actions).0, Turn(Run(actions).0);
            && t.running.None? && !t.busy
            && t.fetched == (if s.pending == [] then None else Some(s.pending[0]))
            && t.pending == (if s.pending == [] then [] else s.pending[1..])
    ensures var t := Turn(Turn(Turn(Run(actions).0))); Waiting(t) == [] && t.running.None?
  {
    RunInv(actions);
    hide Run, Lined, Ordered;
    TurnTakes(Run(actions).0);
    var t := Turn(Run(actions).0);
    TurnTakes(t);
    TurnTakes(Turn(t));
    hide Turn;
  }

  lemma TurnTakes(s: Handler)
    requires (s.busy <==> s.running.Some?) && (s.fetched.Some? ==> s.running.None?)
    ensures var t := Turn(s);
            && t.running.None? && !t.busy
            && t.fetched == (if s.pending == [] then None else Some(s.pending[0]))
            && t.pending == (if s.pending == [] then [] else s.pending[1..])
  {
  }

  // ----- the handler object -----

  class MPR121Handler {
    var now: int
    var generation: nat
    var pending: seq<Item>
    var stopped: bool
    var fetched: Option<Item>
    var running: Option<Item>
    var busy: bool
    var serial: nat

    ghost function View(): Handler
      reads this
    {
      Handler(now, generation, pending, stopped, fetched, running, busy, serial)
    }

    constructor ()
      ensures View() == STARTED
    {
      now, generation, pending, stopped := 0, 0, [], false;
      fetched, running, busy, serial := None, None, false, 0;
    }

    method InvalidatePending()
      modifies this
      ensures View() == Advance(old(View()), DropPending).0
    {
      generation := generation + 1;
      while pending != []
        invariant View() == old(View()).(generation := old(generation) + 1, pending := pending)
        decreases |pending|
      {
        pending := pending[1..];
      }
    }

    method ResolveGesture(kind: Kind)
      modifies this
      ensures View() == Advance(old(View()), Resolve(kind)).0
    {
      if stopped {
        return;
      }
      if Guarded(kind) && (busy || pending != []) {
        return;
      }
      if |pending| != CAPACITY {
        pending := pending + [Item(serial, kind, generation, now)];
        serial := serial + 1;
      }
    }

    /** The action thread takes the oldest item, outside the gesture lock. */
    method Get()
      requires fetched.None? && running.None?
      modifies this
      ensures View() == Advance(old(View()), Fetch).0
    {
      if pending != [] {
        fetched, pending := Some(pending[0]), pending[1..];
      }
    }

    method Validate() returns (valid: bool)
      requires fetched.Some? && running.None?
      modifies this
      ensures View() == Advance(old(View()), Check).0
      ensures valid <==> running.Some?
    {
      var item := fetched.value;
      valid := !stopped && item.generation == generation;
      if Guarded(item.kind) && now - item.queuedAt > DOUBLE_CLICK_WINDOW {
        valid := false;
      }
      if valid {
        busy := true;
        running := fetched;
      }
      fetched := None;
    }

    method Complete()
      requires running.Some?
      modifies this
      ensures View() == Advance(old(View()), Finish).0
    {
      running := None;
      busy := false;
    }

    method RequestStop()
      modifies this
      ensures View() == Advance(old(View()), Halt).0
    {
      stopped := true;
    }
  }
}
