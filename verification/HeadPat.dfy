/** The head touch pads: edges form contacts, contacts form sessions, sessions
    are counted until a decision, and every decision is one head pat followed by
    a cooldown. Times are milliseconds; timers may fire at any moment. */
module HeadPat {
  import opened Common

  const PET_THRESHOLD := 2
  const PET_COOLDOWN := 1500
  const MIN_PADS := 2
  const MIN_GAP := 35
  const MAX_GAP := 150
  const PRESS_MIN_EMPTY := 15

  /** `axis` lists every wired pad once, in the order of the axis. */
  datatype Board = Board(axis: seq<nat>, swipe: bool)

  datatype Touch = Touch(line: nat, at: int)

  type Contact = seq<Touch>

  datatype Gesture = Swipe | DoubleTap | Pet | Tap

  datatype Pads = Pads(
    now: int,
    held: set<nat>,
    released: set<nat>,
    contact: Contact,
    contacts: seq<Contact>,
    presses: nat,
    emptied: Option<int>,
    count: nat,
    cooldown: int)

  const UNTOUCHED := Pads(0, {}, {}, [], [], 0, None, 0, 0)

  datatype Action = Wait(ms: nat) | Edge(line: nat, touched: bool) | SessionEnd | Decision

  datatype Entry = Counted(at: int) | Swallowed(at: int) | Pat(gesture: Gesture, consumed: nat, at: int)

  // ----- edges -----

  /** A touch of an empty surface is a new press, unless it was empty too briefly. */
  function Touched(s: Pads, line: nat): Pads {
    var arrives := s.held == {};
    var pressed := arrives && (s.emptied.None? || s.now - s.emptied.value >= PRESS_MIN_EMPTY);
    var repeat := s.contact != [] && s.contact[|s.contact| - 1].line == line;
    s.(presses := if pressed then s.presses + 1 else s.presses,
       emptied := if arrives then None else s.emptied,
       held := s.held + {line},
       contact := if !repeat || line in s.released then s.contact + [Touch(line, s.now)] else s.contact,
       released := s.released - {line})
  }

  function Lifted(s: Pads, line: nat): Pads {
    var held := s.held - {line};
    s.(released := s.released + {line}, held := held, emptied := if held == {} then Some(s.now) else s.emptied)
  }

  // ----- classification -----

  function Lines(c: Contact): set<nat> {
    set i | 0 <= i < |c| :: c[i].line
  }

  predicate GapBelow(c: Contact, ms: int) {
    exists i :: 0 <= i < |c| - 1 && Gap(c, i) < ms
  }

  predicate GapWithin(c: Contact, low: int, high: int) {
    exists i :: 0 <= i < |c| - 1 && low <= Gap(c, i) <= high
  }

  function Gap(c: Contact, i: nat): int
    requires i < |c| - 1
  {
    c[i + 1].at - c[i].at
  }

  predicate GapAtLeast(c: Contact, ms: int) {
    exists i :: 0 <= i < |c| - 1 && Gap(c, i) >= ms
  }

  function IndexOf(axis: seq<nat>, line: nat): nat {
    if axis == [] || axis[0] == line then 0 else 1 + IndexOf(axis[1..], line)
  }

  /** Axis positions of the touches on the axis, in order. */
  function Positions(axis: seq<nat>, c: Contact): seq<int> {
    if c == [] then []
    else
      var front := Positions(axis, c[..|c| - 1]);
      if c[|c| - 1].line in axis then front + [IndexOf(axis, c[|c| - 1].line)] else front
  }

  /** Differences of neighbours, without those that are zero. */
  function Deltas(ps: seq<int>): seq<int> {
    if |ps| < 2 then []
    else
      var front := Deltas(ps[..|ps| - 1]);
      var d := ps[|ps| - 1] - ps[|ps| - 2];
      if d != 0 then front + [d] else front
  }

  predicate TurnsAround(ds: seq<int>) {
    exists i :: 0 <= i < |ds| - 1 && (ds[i] > 0) != (ds[i + 1] > 0)
  }

  /** One contact that crossed every pad without turning around. */
  predicate Crosses(b: Board, c: Contact) {
    && MIN_PADS <= |Lines(c)| && Lines(c) == Elems(b.axis)
    && MIN_PADS <= |Positions(b.axis, c)|
    && Deltas(Positions(b.axis, c)) != [] && !TurnsAround(Deltas(Positions(b.axis, c)))
  }

  predicate Revisits(c: Contact) {
    |c| > |Lines(c)|
  }

  datatype Verdict = Verdict(isSwipe: bool, moved: bool, revisited: bool, landed: bool)

  function Read(s: Pads): seq<Contact> {
    if s.contact == [] then s.contacts else s.contacts + [s.contact]
  }

  predicate Disjoint(cs: seq<Contact>) {
    2 <= |cs| && !exists l <- Lines(cs[0]) :: Shared(cs, l)
  }

  predicate Shared(cs: seq<Contact>, l: nat) {
    cs != [] && l in Lines(cs[0]) && forall i :: 0 <= i < |cs| ==> l in Lines(cs[i])
  }

  function Classify(b: Board, s: Pads): Verdict {
    var cs := Read(s);
    Verdict(
      |cs| == 1 && s.presses <= 1 && Crosses(b, cs[0]) && GapWithin(cs[0], MIN_GAP, MAX_GAP),
      (exists c :: c in cs && GapAtLeast(c, MIN_GAP)) || Disjoint(cs),
      exists c :: c in cs && Revisits(c),
      exists c :: c in cs && GapBelow(c, MIN_GAP))
  }

  // ----- sessions and decisions -----

  function Closed(s: Pads): Pads {
    s.(contacts := Read(s), contact := [])
  }

  function Reset(s: Pads): Pads {
    s.(contacts := [], contact := [], released := {}, held := {}, presses := 0, emptied := None)
  }

  /** A stroke is recognized before the decision window ends. */
  predicate EarlyPet(b: Board, v: Verdict, count: nat) {
    if b.swipe then !v.landed && (v.revisited || (v.moved && count >= PET_THRESHOLD)) else count >= PET_THRESHOLD
  }

  function SessionEnded(b: Board, s: Pads): (Pads, seq<Entry>) {
    var c := Closed(s);
    if s.now < s.cooldown then (Reset(c.(cooldown := s.now + PET_COOLDOWN)), [Swallowed(s.now)])
    else
      var count := s.count + 1;
      if EarlyPet(b, Classify(b, s), count)
      then (Reset(c.(count := 0, cooldown := s.now + PET_COOLDOWN)), [Counted(s.now), Pat(Pet, count, s.now)])
      else (c.(count := count), [Counted(s.now)])
  }

  function Decide(b: Board, v: Verdict, presses: nat, count: nat): Gesture {
    if !b.swipe then Tap
    else if v.isSwipe then Swipe
    else if (v.revisited && v.landed) || (presses >= 2 && !v.revisited) then DoubleTap
    else if (v.revisited && !v.landed) || (count >= PET_THRESHOLD && v.moved && !v.landed) then Pet
    else if count >= PET_THRESHOLD then DoubleTap
    else Tap
  }

  function Decided(b: Board, s: Pads): (Pads, seq<Entry>) {
    if s.count < 1 then (Reset(s), [])
    else
      (Reset(s.(count := 0, cooldown := s.now + PET_COOLDOWN)),
       [Pat(Decide(b, Classify(b, s), s.presses, s.count), s.count, s.now)])
  }

  function Step(b: Board, s: Pads, a: Action): (Pads, seq<Entry>) {
    match a
    case Wait(ms) => (s.(now := s.now + ms), [])
    case Edge(line, touched) =>
      (if line !in b.axis then s else if touched then Touched(s, line) else Lifted(s, line), [])
    case SessionEnd => SessionEnded(b, s)
    case Decision => Decided(b, s)
  }

  function Run(b: Board, actions: seq<Action>): (Pads, seq<Entry>) {
    if actions == [] then (UNTOUCHED, [])
    else
      var (s, log) := Run(b, actions[..|actions| - 1]);
      var (t, es) := Step(b, s, actions[|actions| - 1]);
      (t, log + es)
  }

  // ----- every pat is paid for -----

  function Sessions(log: seq<Entry>): nat {
    if log == [] then 0 else Sessions(log[..|log| - 1]) + if log[|log| - 1].Counted? then 1 else 0
  }

  function Spent(log: seq<Entry>): nat {
    if log == [] then 0
    else Spent(log[..|log| - 1]) + if log[|log| - 1].Pat? then log[|log| - 1].consumed else 0
  }

  predicate Cools(e: Entry) {
    e.Pat? || e.Swallowed?
  }

  /** What may follow what: the cooldown separates pats, and uncounted sessions extend it. */
  predicate Ordered(before: Entry, after: Entry) {
    Cools(before) && (after.Counted? || after.Pat?) ==> after.at >= before.at + PET_COOLDOWN
  }

  ghost predicate Inv(s: Pads, log: seq<Entry>) {
    && (0 < s.count ==> s.cooldown <= s.now)
    && (forall e <- log :: e.at <= s.now && (Cools(e) ==> e.at + PET_COOLDOWN <= s.cooldown))
    && (forall e <- log :: e.Pat? ==> 1 <= e.consumed)
    && Sessions(log) == Spent(log) + s.count
    && forall i, j :: 0 <= i < j < |log| ==> Ordered(log[i], log[j])
  }

  lemma CountOne(log: seq<Entry>, e: Entry)
    ensures Sessions(log + [e]) == Sessions(log) + if e.Counted? then 1 else 0
    ensures Spent(log + [e]) == Spent(log) + if e.Pat? then e.consumed else 0
  {
    assert (log + [e])[..|log|] == log;
  }

  /** The state after one entry is logged. */
  predicate Logs(s: Pads, t: Pads, e: Entry) {
    && e.at == s.now == t.now
    && match e
       case Counted(_) => s.cooldown <= s.now && t.count == s.count + 1 && t.cooldown == s.cooldown
       case Swallowed(_) => s.now < s.cooldown && t.count == s.count && t.cooldown == s.now + PET_COOLDOWN
       case Pat(_, n, _) => 1 <= s.count == n && t.count == 0 && t.cooldown == s.now + PET_COOLDOWN
  }

  lemma Append(s: Pads, t: Pads, log: seq<Entry>, e: Entry)
    requires Inv(s, log) && Logs(s, t, e)
    ensures Inv(t, log + [e])
  {
    CountOne(log, e);
    forall i | 0 <= i < |log| ensures Ordered(log[i], e) {
      assert log[i] in log;
    }
  }

  lemma StepInv(b: Board, s: Pads, log: seq<Entry>, a: Action)
    requires Inv(s, log)
    ensures Inv(Step(b, s, a).0, log + Step(b, s, a).1)
  {
    hide Classify, EarlyPet, Decide, Read, Touched, Lifted, Inv;
    var (t, es) := Step(b, s, a);
    if es == [] {
      assert log + es == log;
      Quietly(b, s, log, a);
    } else if |es| == 1 {
      assert log + es == log + [es[0]];
      Decisions(b, s, log);
      Append(s, t, log, es[0]);
    } else {
      var counted := s.(count := s.count + 1);
      Append(s, counted, log, es[0]);
      Append(counted, t, log + [es[0]], es[1]);
      assert log + es == log + [es[0]] + [es[1]];
    }
  }

  lemma Decisions(b: Board, s: Pads, log: seq<Entry>)
    requires Inv(s, log)
    ensures s.now < s.cooldown ==> s.count == 0
  {
  }

  lemma Quietly(b: Board, s: Pads, log: seq<Entry>, a: Action)
    requires Inv(s, log) && Step(b, s, a).1 == []
    ensures Inv(Step(b, s, a).0, log)
  {
    hide Classify, EarlyPet, Decide, Read, Sessions, Spent, Ordered;
    if a.Edge? {
      EdgeKeeps(b, s, a.line, a.touched);
    }
  }

  lemma EdgeKeeps(b: Board, s: Pads, line: nat, touched: bool)
    ensures var t := Step(b, s, Edge(line, touched)).0; t.count == s.count && t.cooldown == s.cooldown && t.now == s.now
  {
  }

  lemma {:induction false} RunInv(b: Board, actions: seq<Action>)
    ensures Inv(Run(b, actions).0, Run(b, actions).1)
  {
    if actions != [] {
      RunInv(b, actions[..|actions| - 1]);
      var (s, log) := Run(b, actions[..|actions| - 1]);
      StepInv(b, s, log, actions[|actions| - 1]);
    }
  }

  /** Every head pat consumes at least one counted session, and sessions are
      conserved: each is consumed by one pat or still pending. */
  lemma SessionsConserved(b: Board, actions: seq<Action>)
    ensures forall e <- Run(b, actions).1 :: e.Pat? ==> 1 <= e.consumed
    ensures Sessions(Run(b, actions).1) == Spent(Run(b, actions).1) + Run(b, actions).0.count
  {
    RunInv(b, actions);
  }

  /** Head pats are a cooldown apart, and a session swallowed in between keeps
      the next pat a cooldown away from itself. */
  lemma PatsApart(b: Board, actions: seq<Action>, i: nat, j: nat)
    requires i < j < |Run(b, actions).1| && Cools(Run(b, actions).1[i]) && Run(b, actions).1[j].Pat?
    ensures Run(b, actions).1[j].at >= Run(b, actions).1[i].at + PET_COOLDOWN
  {
    RunInv(b, actions);
    assert Ordered(Run(b, actions).1[i], Run(b, actions).1[j]);
  }

  /** While the cooldown lasts no session is pending, so no timer can pat. */
  lemma NothingPendsInCooldown(b: Board, actions: seq<Action>)
    requires Run(b, actions).0.now < Run(b, actions).0.cooldown
    ensures Run(b, actions).0.count == 0 && Decided(b, Run(b, actions).0).1 == []
  {
    RunInv(b, actions);
  }

  // ----- what a crossing is -----

  /** Moves, and never back. */
  predicate OneWay(ps: seq<int>) {
    && (exists i :: 0 < i < |ps| && ps[i - 1] != ps[i])
    && (Rising(ps) || Falling(ps))
  }

  predicate Rising(ps: seq<int>) {
    forall i :: 0 < i < |ps| ==> ps[i - 1] <= ps[i]
  }

  predicate Falling(ps: seq<int>) {
    forall i :: 0 < i < |ps| ==> ps[i - 1] >= ps[i]
  }

  predicate Positive(ds: seq<int>) {
    forall i :: 0 <= i < |ds| ==> ds[i] > 0
  }

  predicate Negative(ds: seq<int>) {
    forall i :: 0 <= i < |ds| ==> ds[i] < 0
  }

  lemma OrderStep(ps: seq<int>)
    requires 2 <= |ps|
    ensures var front, d := ps[..|ps| - 1], ps[|ps| - 1] - ps[|ps| - 2];
            && (Rising(ps) <==> Rising(front) && d >= 0)
            && (Falling(ps) <==> Falling(front) && d <= 0)
  {
    var front := ps[..|ps| - 1];
    forall i | 0 < i < |front| ensures (ps[i - 1] <= ps[i] <==> front[i - 1] <= front[i])
                                    && (ps[i - 1] >= ps[i] <==> front[i - 1] >= front[i]) {
    }
  }

  lemma {:induction false} DeltaSigns(ps: seq<int>)
    ensures 0 !in Deltas(ps)
    ensures Positive(Deltas(ps)) <==> Rising(ps)
    ensures Negative(Deltas(ps)) <==> Falling(ps)
  {
    if |ps| >= 2 {
      var front := ps[..|ps| - 1];
      var d := ps[|ps| - 1] - ps[|ps| - 2];
      DeltaSigns(front);
      OrderStep(ps);
      SignStep(Deltas(front), d);
      hide Rising, Falling, Positive, Negative;
      assert Deltas(ps) == if d != 0 then Deltas(front) + [d] else Deltas(front);
    }
  }

  lemma SignStep(ds: seq<int>, d: int)
    ensures Positive(ds + [d]) <==> Positive(ds) && d > 0
    ensures Negative(ds + [d]) <==> Negative(ds) && d < 0
  {
    assert (ds + [d])[|ds|] == d;
    assert forall i :: 0 <= i < |ds| ==> (ds + [d])[i] == ds[i];
  }

  lemma {:induction false} NoTurnMeansOneSign(ds: seq<int>)
    requires 0 !in ds
    ensures !TurnsAround(ds) <==> Positive(ds) || Negative(ds)
  {
    if |ds| >= 2 {
      var front, last := ds[..|ds| - 1], ds[|ds| - 1];
      assert ds == front + [last];
      NoTurnMeansOneSign(front);
      TurnStep(front, last);
      SignStep(front, last);
      assert front[|front| - 1] in front;
    }
  }

  lemma TurnStep(front: seq<int>, last: int)
    requires front != []
    ensures TurnsAround(front + [last]) <==> TurnsAround(front) || (front[|front| - 1] > 0) != (last > 0)
  {
    var ds := front + [last];
    if TurnsAround(front) {
      var i :| 0 <= i < |front| - 1 && (front[i] > 0) != (front[i + 1] > 0);
      assert (ds[i] > 0) != (ds[i + 1] > 0);
    }
    if (front[|front| - 1] > 0) != (last > 0) {
      assert (ds[|front| - 1] > 0) != (ds[|front| - 1 + 1] > 0);
    }
  }

  /** The step list turns around nowhere exactly when the positions go one way. */
  lemma PassIsOneWay(ps: seq<int>)
    ensures Deltas(ps) != [] && !TurnsAround(Deltas(ps)) <==> OneWay(ps)
  {
    hide TurnsAround;
    DeltaSigns(ps);
    NoTurnMeansOneSign(Deltas(ps));
  }

  predicate Wired(axis: seq<nat>, c: Contact) {
    forall i :: 0 <= i < |c| ==> c[i].line in axis
  }

  predicate DistinctLines(axis: seq<nat>) {
    forall i, j :: 0 <= i < j < |axis| ==> axis[i] != axis[j]
  }

  lemma {:induction false} IndexOfFinds(axis: seq<nat>, line: nat)
    requires line in axis
    ensures IndexOf(axis, line) < |axis| && axis[IndexOf(axis, line)] == line
  {
    if axis[0] != line {
      IndexOfFinds(axis[1..], line);
    }
  }

  lemma {:induction false} PositionsAt(axis: seq<nat>, c: Contact)
    requires Wired(axis, c)
    ensures |Positions(axis, c)| == |c|
    ensures forall i :: 0 <= i < |c| ==> Positions(axis, c)[i] == IndexOf(axis, c[i].line)
  {
    if c != [] {
      PositionsAt(axis, c[..|c| - 1]);
    }
  }

  /** Two touches of one pad with no other pad in between. */
  predicate Repeats(c: Contact) {
    exists i :: 0 < i < |c| && c[i - 1].line == c[i].line
  }

  lemma {:induction false} StrictlyOrdered(ps: seq<int>, i: nat, j: nat)
    requires forall k :: 0 < k < |ps| ==> ps[k - 1] != ps[k]
    requires (Rising(ps) || Falling(ps)) && i < j < |ps|
    ensures ps[i] != ps[j] && (Rising(ps) ==> ps[i] < ps[j]) && (Falling(ps) ==> ps[i] > ps[j])
  {
    if i + 1 < j {
      StrictlyOrdered(ps, i, j - 1);
    }
  }

  lemma {:induction false} LinesCount(c: Contact)
    ensures |Lines(c)| <= |c|
    ensures (forall i, j :: 0 <= i < j < |c| ==> c[i].line != c[j].line) ==> |Lines(c)| == |c|
    ensures Repeats(c) ==> |Lines(c)| < |c|
  {
    if c == [] {
      assert Lines(c) == {};
    } else {
      var front, last := c[..|c| - 1], c[|c| - 1].line;
      LinesCount(front);
      assert Lines(c) == Lines(front) + {last};
      if Repeats(c) {
        var i :| 0 < i < |c| && c[i - 1].line == c[i].line;
        if i < |front| {
          assert front[i - 1].line == front[i].line;
        } else {
          assert front[i - 1].line == last;
        }
      }
    }
  }

  /** A single pass across the pads counts as revisiting one exactly when a pad
      was touched twice running. */
  lemma CrossingRevisits(b: Board, c: Contact)
    requires DistinctLines(b.axis) && Wired(b.axis, c) && Crosses(b, c)
    ensures Revisits(c) <==> Repeats(c)
  {
    hide Crosses, Lines;
    LinesCount(c);
    if !Repeats(c) {
      CrossingIsOneWay(b, c);
      PositionsAt(b.axis, c);
      var ps := Positions(b.axis, c);
      forall k | 0 < k < |ps| ensures ps[k - 1] != ps[k] {
        IndexOfFinds(b.axis, c[k - 1].line);
        IndexOfFinds(b.axis, c[k].line);
      }
      forall i, j | 0 <= i < j < |c| ensures c[i].line != c[j].line {
        StrictlyOrdered(ps, i, j);
      }
    }
  }

  lemma CrossingIsOneWay(b: Board, c: Contact)
    requires Crosses(b, c)
    ensures OneWay(Positions(b.axis, c))
  {
    PassIsOneWay(Positions(b.axis, c));
  }

  function Reversed(axis: seq<nat>): (r: seq<nat>)
    ensures |r| == |axis| && forall i :: 0 <= i < |axis| ==> r[i] == axis[|axis| - 1 - i]
  {
    seq(|axis|, i requires 0 <= i < |axis| => axis[|axis| - 1 - i])
  }

  lemma ReversedIndex(axis: seq<nat>, line: nat)
    requires DistinctLines(axis) && line in axis
    ensures line in Reversed(axis) && IndexOf(Reversed(axis), line) == |axis| - 1 - IndexOf(axis, line)
  {
    var r, n := Reversed(axis), |axis|;
    IndexOfFinds(axis, line);
    var k := n - 1 - IndexOf(axis, line);
    assert r[k] == line;
    IndexOfFinds(r, line);
    var m := IndexOf(r, line);
    assert axis[n - 1 - m] == line;
  }

  lemma MirrorOneWay(ps: seq<int>, qs: seq<int>, n: int)
    requires |qs| == |ps| && forall i :: 0 <= i < |ps| ==> qs[i] == n - ps[i]
    ensures OneWay(qs) <==> OneWay(ps)
  {
    assert Rising(qs) <==> Falling(ps) by { MirrorRising(ps, qs, n); }
    assert Falling(qs) <==> Rising(ps) by { MirrorRising(qs, ps, n); }
    if i :| 0 < i < |ps| && ps[i - 1] != ps[i] {
      assert qs[i - 1] != qs[i];
    }
    if i :| 0 < i < |qs| && qs[i - 1] != qs[i] {
      assert ps[i - 1] != ps[i];
    }
  }

  lemma MirrorRising(ps: seq<int>, qs: seq<int>, n: int)
    requires |qs| == |ps| && forall i :: 0 <= i < |ps| ==> qs[i] == n - ps[i]
    ensures Rising(qs) <==> Falling(ps)
  {
    forall i | 0 < i < |ps| ensures qs[i - 1] <= qs[i] <==> ps[i - 1] >= ps[i] {
      assert qs[i - 1] == n - ps[i - 1];
    }
  }

  /** Which end the axis is declared from makes no difference to a crossing. */
  lemma CrossingReversed(b: Board, c: Contact)
    requires DistinctLines(b.axis) && Wired(b.axis, c)
    ensures Crosses(b.(axis := Reversed(b.axis)), c) <==> Crosses(b, c)
  {
    hide TurnsAround, Deltas, Positions, OneWay, IndexOf;
    var r := Reversed(b.axis);
    forall i | 0 <= i < |c|
      ensures c[i].line in r && IndexOf(r, c[i].line) == |r| - 1 - IndexOf(b.axis, c[i].line)
    {
      ReversedIndex(b.axis, c[i].line);
    }
    PositionsAt(b.axis, c);
    PositionsAt(r, c);
    PassIsOneWay(Positions(b.axis, c));
    PassIsOneWay(Positions(r, c));
    MirrorOneWay(Positions(b.axis, c), Positions(r, c), |r| - 1);
    assert Elems(r) == Elems(b.axis) by {
      forall x ensures x in r <==> x in b.axis {
        if x in r {
          var k :| 0 <= k < |r| && r[k] == x;
          assert b.axis[|r| - 1 - k] == x;
        }
        if x in b.axis {
          var k :| 0 <= k < |r| && b.axis[k] == x;
          assert r[|r| - 1 - k] == x;
        }
      }
    }
  }

  /** An early pet that the decision window would have read as a swipe, exactly:
      all its steps are travel, and either a pad was touched twice running or an
      earlier session is still being counted. */
  lemma EarlyPetOfSwipe(b: Board, s: Pads, count: nat)
    requires b.swipe && DistinctLines(b.axis) && Classify(b, s).isSwipe && Wired(b.axis, Read(s)[0])
    ensures var c := Read(s)[0];
            EarlyPet(b, Classify(b, s), count) <==> !GapBelow(c, MIN_GAP) && (Repeats(c) || count >= PET_THRESHOLD)
  {
    hide Crosses, Revisits, Repeats;
    var c := Read(s)[0];
    CrossingRevisits(b, c);
    assert Read(s) == [c];
    var i :| 0 <= i < |c| - 1 && MIN_GAP <= Gap(c, i) <= MAX_GAP;
    assert c in Read(s) && GapAtLeast(c, MIN_GAP);
  }

  lemma RunOn(b: Board, actions: seq<Action>, a: Action)
    ensures Run(b, actions + [a]).0 == Step(b, Run(b, actions).0, a).0
    ensures Run(b, actions + [a]).1 == Run(b, actions).1 + Step(b, Run(b, actions).0, a).1
  {
    assert (actions + [a])[..|actions|] == actions;
  }

  /** A state that ends its session now pats at once, though it reads as a swipe. */
  predicate PatsEarly(b: Board, s: Pads) {
    && Classify(b, s).isSwipe
    && s.cooldown <= s.now
    && SessionEnded(b, s).1 == [Counted(s.now), Pat(Pet, s.count + 1, s.now)]
  }

  lemma TwoPadSwipe(b: Board, s: Pads, c: Contact)
    requires b == Board([96, 100], true) && Read(s) == [c] && s.presses <= 1
    requires |c| >= 2 && c[0].line == 96 && c[|c| - 1].line == 100
    requires forall i :: 0 <= i < |c| - 1 ==> c[i].line == 96 && MIN_GAP <= Gap(c, i) <= MAX_GAP
    ensures Classify(b, s).isSwipe && Wired(b.axis, c) && DistinctLines(b.axis) && !GapBelow(c, MIN_GAP)
  {
    TwoPadCrosses(b, c);
    hide Crosses;
    assert MIN_GAP <= Gap(c, 0) <= MAX_GAP;
  }

  lemma TwoPadCrosses(b: Board, c: Contact)
    requires b.axis == [96, 100]
    requires |c| >= 2 && c[0].line == 96 && c[|c| - 1].line == 100
    requires forall i :: 0 <= i < |c| - 1 ==> c[i].line == 96
    ensures Crosses(b, c) && Wired(b.axis, c)
  {
    assert b.axis[0] == 96 && b.axis[1] == 100;
    assert Lines(c) == {96, 100};
    assert Elems(b.axis) == {96, 100};
    assert IndexOf(b.axis, 96) == 0 && IndexOf(b.axis, 100) == 1;
    PositionsAt(b.axis, c);
    var ps := Positions(b.axis, c);
    assert ps[|ps| - 2] != ps[|ps| - 1];
    PassIsOneWay(ps);
  }

  const TWO_PADS := Board([96, 100], true)

  const REPEATED := [Edge(96, true), Wait(30), Edge(96, false), Wait(10), Edge(96, true), Wait(60), Edge(100, true), Wait(200)]

  const AFTER_RELEASE :=
    [Wait(10), Edge(96, false), Wait(200), SessionEnd, Wait(190), Edge(96, true), Wait(60), Edge(100, true), Wait(200)]

  lemma RepeatedRun()
    ensures var s := Run(TWO_PADS, REPEATED).0;
            s.contact == [Touch(96, 0), Touch(96, 40), Touch(100, 100)] && s.contacts == [] && s.presses == 1
            && s.count == 0 && s.cooldown == 0 && s.now == 300
  {
    assert Run(TWO_PADS, []).0 == UNTOUCHED;
    hide Run, Classify;
    var b := TWO_PADS;
    var a2 := [] + [Edge(96, true)] + [Wait(30)];
    var a4 := a2 + [Edge(96, false)] + [Wait(10)];
    var a6 := a4 + [Edge(96, true)] + [Wait(60)];
    RunOn(b, [], Edge(96, true));
    RunOn(b, [] + [Edge(96, true)], Wait(30));
    RunOn(b, a2, Edge(96, false));
    RunOn(b, a2 + [Edge(96, false)], Wait(10));
    assert Run(b, a4).0 == Pads(40, {}, {96}, [Touch(96, 0)], [], 1, Some(30), 0, 0);
    RunOn(b, a4, Edge(96, true));
    RunOn(b, a4 + [Edge(96, true)], Wait(60));
    RunOn(b, a6, Edge(100, true));
    RunOn(b, a6 + [Edge(100, true)], Wait(200));
    assert a6 + [Edge(100, true)] + [Wait(200)] == REPEATED;
  }

  lemma AfterReleaseRun()
    ensures var s := Run(TWO_PADS, AFTER_RELEASE).0;
            s.contact == [Touch(96, 400), Touch(100, 460)] && s.contacts == [] && s.presses == 1
            && s.count == 1 && s.cooldown == 0 && s.now == 660
  {
    assert Run(TWO_PADS, []).0 == UNTOUCHED;
    hide Run, Classify, EarlyPet;
    var b := TWO_PADS;
    var a3 := [] + [Wait(10)] + [Edge(96, false)] + [Wait(200)];
    var a5 := a3 + [SessionEnd] + [Wait(190)];
    var a7 := a5 + [Edge(96, true)] + [Wait(60)];
    RunOn(b, [], Wait(10));
    RunOn(b, [] + [Wait(10)], Edge(96, false));
    RunOn(b, [] + [Wait(10)] + [Edge(96, false)], Wait(200));
    RunOn(b, a3, SessionEnd);
    NothingTouched(b, Run(b, a3).0);
    RunOn(b, a3 + [SessionEnd], Wait(190));
    assert Run(b, a5).0 == Pads(400, {}, {96}, [], [], 0, Some(10), 1, 0);
    RunOn(b, a5, Edge(96, true));
    RunOn(b, a5 + [Edge(96, true)], Wait(60));
    RunOn(b, a7, Edge(100, true));
    RunOn(b, a7 + [Edge(100, true)], Wait(200));
    assert a7 + [Edge(100, true)] + [Wait(200)] == AFTER_RELEASE;
  }

  /** The first way: one pad twice running, then the other, all at travel pace. */
  lemma RepeatPatsEarly()
    ensures PatsEarly(TWO_PADS, Run(TWO_PADS, REPEATED).0)
  {
    RepeatedRun();
    hide Run, Classify, EarlyPet, GapBelow;
    var s := Run(TWO_PADS, REPEATED).0;
    TwoPadSwipe(TWO_PADS, s, s.contact);
    assert s.contact[1 - 1].line == s.contact[1].line;
    EarlyPetOfSwipe(TWO_PADS, s, 1);
  }

  /** The second way: a session that saw only a release is still counted when a
      plain crossing follows it. */
  lemma CrossingAfterReleasePatsEarly()
    ensures PatsEarly(TWO_PADS, Run(TWO_PADS, AFTER_RELEASE).0)
  {
    AfterReleaseRun();
    hide Run, Classify, EarlyPet, GapBelow;
    var s := Run(TWO_PADS, AFTER_RELEASE).0;
    TwoPadSwipe(TWO_PADS, s, s.contact);
    EarlyPetOfSwipe(TWO_PADS, s, 2);
  }

  lemma NothingTouched(b: Board, s: Pads)
    requires b.swipe && Read(s) == []
    ensures !EarlyPet(b, Classify(b, s), 1)
  {
  }

  // ----- what edges, sessions and decisions do, exactly -----

  /** A touch is a new press exactly when it lands on a surface nothing held for at
      least 15 ms, or ever; and it joins the contact unless it repeats the latest
      pad without that pad having been lifted since. */
  lemma TouchExactly(b: Board, s: Pads, line: nat)
    requires line in b.axis
    ensures var t := Step(b, s, Edge(line, true)).0;
            var empty := s.held == {};
            var repeats := s.contact != [] && s.contact[|s.contact| - 1].line == line && line !in s.released;
            && t.presses == s.presses + (if empty && (s.emptied == None || s.now >= s.emptied.value + 15) then 1 else 0)
            && t.contact == s.contact + (if repeats then [] else [Touch(line, s.now)])
            && t.held == s.held + {line} && t.released == s.released - {line}
            && t.emptied == (if empty then None else s.emptied)
            && t == s.(held := t.held, released := t.released, contact := t.contact, presses := t.presses, emptied := t.emptied)
  {
  }

  /** A lift marks its pad as lifted, and the moment the last held pad goes. */
  lemma LiftExactly(b: Board, s: Pads, line: nat)
    requires line in b.axis
    ensures var t := Step(b, s, Edge(line, false)).0;
            t == s.(held := s.held - {line}, released := s.released + {line},
                    emptied := if s.held <= {line} then Some(s.now) else s.emptied)
  {
    assert s.held - {line} == {} <==> s.held <= {line};
  }

  /** Pads that are not wired, and time, change nothing else. */
  lemma OtherwiseNothing(b: Board, s: Pads, line: nat, touched: bool, ms: nat)
    ensures line !in b.axis ==> Step(b, s, Edge(line, touched)) == (s, [])
    ensures Step(b, s, Wait(ms)) == (s.(now := s.now + ms), [])
  {
  }

  /** Two neighbouring touches of a contact this far apart in time. */
  predicate Apart(c: Contact, i: nat, low: int, high: int) {
    i + 1 < |c| && low <= c[i + 1].at - c[i].at <= high
  }

  predicate Touches(c: Contact, l: nat) {
    exists i :: 0 <= i < |c| && c[i].line == l
  }

  predicate Covers(axis: seq<nat>, c: Contact) {
    forall k :: 0 <= k < |axis| ==> Touches(c, axis[k])
  }

  lemma TouchesLines(c: Contact, l: nat)
    ensures l in Lines(c) <==> Touches(c, l)
  {
  }

  /** Travels one way over every pad of the axis. */
  predicate Passes(axis: seq<nat>, c: Contact) {
    && Wired(axis, c) && Covers(axis, c)
    && OneWay(seq(|c|, i requires 0 <= i < |c| => IndexOf(axis, c[i].line)))
  }

  lemma LinesElems(axis: seq<nat>, c: Contact)
    ensures Lines(c) == Elems(axis) <==> Wired(axis, c) && Covers(axis, c)
  {
    forall l ensures l in Lines(c) <==> Touches(c, l) {
      TouchesLines(c, l);
    }
    if Lines(c) == Elems(axis) {
      forall i | 0 <= i < |c| ensures c[i].line in axis {
        assert c[i].line in Lines(c);
      }
      forall k | 0 <= k < |axis| ensures Touches(c, axis[k]) {
        assert axis[k] in Elems(axis);
      }
    }
  }

  lemma AtLeastTwo<T>(s: set<T>, x: T, y: T)
    requires x in s && y in s && x != y
    ensures 2 <= |s|
  {
    assert {x, y} <= s;
    assert |s| == |s - {x, y}| + |{x, y}|;
  }

  lemma PadsCovered(b: Board, c: Contact)
    requires DistinctLines(b.axis) && Lines(c) == Elems(b.axis)
    ensures MIN_PADS <= |Lines(c)| <==> 2 <= |b.axis|
    ensures |Lines(c)| <= |c|
  {
    LinesCount(c);
    if 2 <= |b.axis| {
      assert b.axis[0] in Lines(c) && b.axis[1] in Lines(c);
      AtLeastTwo(Lines(c), b.axis[0], b.axis[1]);
    } else if b.axis == [] {
      assert Elems(b.axis) == {};
    } else {
      assert Elems(b.axis) == {b.axis[0]};
    }
  }

  /** A contact crosses exactly if it passes over the whole of an axis of two or
      more pads. */
  lemma CrossesExactly(b: Board, c: Contact)
    requires DistinctLines(b.axis)
    ensures Crosses(b, c) <==> 2 <= |b.axis| && Passes(b.axis, c)
  {
    hide Lines, OneWay, TurnsAround, Deltas, Positions, Covers;
    LinesElems(b.axis, c);
    if Lines(c) == Elems(b.axis) {
      PadsCovered(b, c);
      PositionsAt(b.axis, c);
      PassIsOneWay(Positions(b.axis, c));
      assert Positions(b.axis, c) == seq(|c|, i requires 0 <= i < |c| => IndexOf(b.axis, c[i].line));
    }
  }

  /** Two pads touched so fast that a hand landed on both. */
  predicate Lands(c: Contact) {
    exists i :: 0 <= i < |c| - 1 && c[i + 1].at - c[i].at < 35
  }

  predicate Travels(c: Contact) {
    exists i :: 0 <= i < |c| - 1 && c[i + 1].at - c[i].at >= 35
  }

  /** One pad touched twice. */
  predicate Returns(c: Contact) {
    exists i, j :: 0 <= i < j < |c| && c[i].line == c[j].line
  }

  /** A pad that every contact touched. */
  predicate Everywhere(cs: seq<Contact>, l: nat) {
    forall k :: 0 <= k < |cs| ==> Touches(cs[k], l)
  }

  /** What the four verdicts mean. */
  lemma VerdictExactly(b: Board, s: Pads)
    requires DistinctLines(b.axis)
    ensures var v, cs := Classify(b, s), Read(s);
            && (v.isSwipe <==> |cs| == 1 && s.presses <= 1 && 2 <= |b.axis| && Passes(b.axis, cs[0])
                               && exists i :: 0 <= i < |cs[0]| && Apart(cs[0], i, 35, 150))
            && (v.landed <==> exists c :: c in cs && Lands(c))
            && (v.revisited <==> exists c :: c in cs && Returns(c))
            && (v.moved <==> (exists c :: c in cs && Travels(c))
                             || (2 <= |cs| && !exists l :: Everywhere(cs, l)))
  {
    SwipeMeans(b, s);
    RestMeans(b, s);
  }

  lemma SwipeMeans(b: Board, s: Pads)
    requires DistinctLines(b.axis)
    ensures var v, cs := Classify(b, s), Read(s);
            v.isSwipe <==> |cs| == 1 && s.presses <= 1 && 2 <= |b.axis| && Passes(b.axis, cs[0])
                           && exists i :: 0 <= i < |cs[0]| && Apart(cs[0], i, 35, 150)
  {
    hide Crosses, Passes;
    var cs := Read(s);
    if |cs| == 1 {
      CrossesExactly(b, cs[0]);
      WithinApart(cs[0]);
    }
  }

  lemma WithinApart(c: Contact)
    ensures GapWithin(c, MIN_GAP, MAX_GAP) <==> exists i :: 0 <= i < |c| && Apart(c, i, 35, 150)
  {
    if i :| 0 <= i < |c| - 1 && MIN_GAP <= Gap(c, i) <= MAX_GAP {
      assert Apart(c, i, 35, 150);
    }
    if i :| 0 <= i < |c| && Apart(c, i, 35, 150) {
      assert Gap(c, i) == c[i + 1].at - c[i].at;
    }
  }

  lemma RestMeans(b: Board, s: Pads)
    ensures var v, cs := Classify(b, s), Read(s);
            && (v.landed <==> exists c :: c in cs && Lands(c))
            && (v.revisited <==> exists c :: c in cs && Returns(c))
            && (v.moved <==> (exists c :: c in cs && Travels(c))
                             || (2 <= |cs| && !exists l :: Everywhere(cs, l)))
  {
    hide Crosses;
    var cs := Read(s);
    forall c | c in cs
      ensures (GapBelow(c, MIN_GAP) <==> Lands(c)) && (GapAtLeast(c, MIN_GAP) <==> Travels(c)) && (Revisits(c) <==> Returns(c))
    {
      GapsMean(c);
      RevisitsMeans(c);
    }
    DisjointMeans(cs);
  }

  lemma GapsMean(c: Contact)
    ensures GapBelow(c, MIN_GAP) <==> Lands(c)
    ensures GapAtLeast(c, MIN_GAP) <==> Travels(c)
  {
    forall i | 0 <= i < |c| - 1 ensures Gap(c, i) == c[i + 1].at - c[i].at {
    }
    if i :| 0 <= i < |c| - 1 && Gap(c, i) < MIN_GAP {
      assert c[i + 1].at - c[i].at < 35;
    }
    if i :| 0 <= i < |c| - 1 && c[i + 1].at - c[i].at < 35 {
      assert Gap(c, i) < MIN_GAP;
    }
    if i :| 0 <= i < |c| - 1 && Gap(c, i) >= MIN_GAP {
      assert c[i + 1].at - c[i].at >= 35;
    }
    if i :| 0 <= i < |c| - 1 && c[i + 1].at - c[i].at >= 35 {
      assert Gap(c, i) >= MIN_GAP;
    }
  }

  lemma ReturnsStep(front: Contact, last: Touch)
    ensures Returns(front + [last]) <==> Returns(front) || Touches(front, last.line)
  {
    var c := front + [last];
    if i, j :| 0 <= i < j < |front| && front[i].line == front[j].line {
      assert c[i].line == c[j].line;
    }
    if i :| 0 <= i < |front| && front[i].line == last.line {
      assert c[i].line == c[|front|].line;
    }
    if i, j :| 0 <= i < j < |c| && c[i].line == c[j].line {
      if j < |front| {
        assert front[i].line == front[j].line;
      } else {
        assert front[i].line == last.line;
      }
    }
  }

  /** More touches than pads means a pad touched twice. */
  lemma {:induction false} RevisitsMeans(c: Contact)
    ensures |Lines(c)| <= |c|
    ensures Revisits(c) <==> Returns(c)
  {
    if c != [] {
      var front, last := c[..|c| - 1], c[|c| - 1];
      assert c == front + [last];
      RevisitsMeans(front);
      ReturnsStep(front, last);
      TouchesLines(front, last.line);
      assert Lines(c) == Lines(front) + {last.line};
      hide Lines, Returns, Touches;
    }
  }

  lemma DisjointMeans(cs: seq<Contact>)
    ensures Disjoint(cs) <==> 2 <= |cs| && !exists l :: Everywhere(cs, l)
  {
    forall l ensures Shared(cs, l) <==> cs != [] && Everywhere(cs, l) {
      forall k | 0 <= k < |cs| ensures l in Lines(cs[k]) <==> Touches(cs[k], l) {
        TouchesLines(cs[k], l);
      }
    }
    if 2 <= |cs| {
      assert forall l :: Shared(cs, l) ==> l in Lines(cs[0]);
    }
  }

  /** A session that ends within the cooldown is swallowed and extends it; any other
      is counted, and pats at once exactly if its stroke is recognized early: on a
      board without swipes from two sessions on, else if nothing landed at once and
      a pad was revisited, or the hand moved in two sessions or more. */
  lemma SessionExactly(b: Board, s: Pads)
    ensures var (t, es) := Step(b, s, SessionEnd); var v := Classify(b, s); var n := s.count + 1;
            var early := if b.swipe then !v.landed && (v.revisited || (v.moved && n >= 2)) else n >= 2;
            && es == (if s.now < s.cooldown then [Swallowed(s.now)]
                      else if early then [Counted(s.now), Pat(Pet, n, s.now)] else [Counted(s.now)])
            && (s.now >= s.cooldown && !early ==>
                  t == s.(count := n, contact := [], contacts := if s.contact == [] then s.contacts else s.contacts + [s.contact]))
            && (s.now < s.cooldown || early ==>
                  t == Pads(s.now, {}, {}, [], [], 0, None, if s.now < s.cooldown then s.count else 0, s.now + 1500))
  {
    hide Classify;
  }

  /** Every session counted so far gets its head pat at the decision, and then the
      cooldown begins; nothing counted, nothing patted. */
  lemma DecisionExactly(b: Board, s: Pads)
    ensures var (t, es) := Step(b, s, Decision);
            && es == (if 1 <= s.count then [Pat(Decide(b, Classify(b, s), s.presses, s.count), s.count, s.now)] else [])
            && t == Pads(s.now, {}, {}, [], [], 0, None, 0, if 1 <= s.count then s.now + 1500 else s.cooldown)
  {
    hide Classify, Decide;
  }

  /** Which gesture a decision answers with. */
  lemma GestureExactly(b: Board, v: Verdict, presses: nat, count: nat)
    ensures var g := Decide(b, v, presses, count);
            var twice := (v.revisited && v.landed) || (presses >= 2 && !v.revisited);
            var stroked := !v.landed && (v.revisited || (v.moved && count >= 2));
            && (g == Swipe <==> b.swipe && v.isSwipe)
            && (g == Pet <==> b.swipe && !v.isSwipe && !twice && stroked)
            && (g == DoubleTap <==> b.swipe && !v.isSwipe && (twice || (!stroked && count >= 2)))
            && (g == Tap <==> !b.swipe || (!v.isSwipe && !twice && !stroked && count < 2))
  {
  }

  // ----- the handler object -----

  class TTP223Handler {
    const board: Board
    var now: int
    var held: set<nat>
    var released: set<nat>
    var contact: Contact
    var contacts: seq<Contact>
    var presses: nat
    var emptied: Option<int>
    var count: nat
    var cooldown: int

    ghost function View(): Pads
      reads this
    {
      Pads(now, held, released, contact, contacts, presses, emptied, count, cooldown)
    }

    constructor (board: Board)
      ensures this.board == board && View() == UNTOUCHED
    {
      this.board := board;
      now, held, released, contact, contacts := 0, {}, {}, [], [];
      presses, emptied, count, cooldown := 0, None, 0, 0;
    }

    method OnEdge(line: nat, touched: bool)
      requires line in board.axis
      modifies this
      ensures View() == Step(board, old(View()), Edge(line, touched)).0
    {
      if touched {
        if held == {} {
          if emptied.None? || now - emptied.value >= PRESS_MIN_EMPTY {
            presses := presses + 1;
          }
          emptied := None;
        }
        held := held + {line};
        var repeat := contact != [] && contact[|contact| - 1].line == line;
        if !repeat || line in released {
          contact := contact + [Touch(line, now)];
        }
        released := released - {line};
      } else {
        released := released + {line};
        held := held - {line};
        if held == {} {
          emptied := Some(now);
        }
      }
    }

    method CloseContact()
      modifies this`contact, this`contacts
      ensures View() == Closed(old(View()))
    {
      if contact != [] {
        contacts := contacts + [contact];
      }
      contact := [];
    }

    method ResetCycle()
      modifies this
      ensures View() == Reset(old(View()))
    {
      contacts, contact, released, held, presses, emptied := [], [], {}, {}, 0, None;
    }

    /** Reads the contacts of the cycle, one after another. */
    method ClassifyCycle() returns (v: Verdict)
      ensures v == Classify(board, View())
    {
      hide Crosses, GapBelow, GapWithin, GapAtLeast, Revisits, Disjoint;
      var cs := if contact == [] then contacts else contacts + [contact];
      var isSwipe, moved, revisited, landed := false, false, false, false;
      for k := 0 to |cs|
        invariant isSwipe == exists i :: 0 <= i < k && Crosses(board, cs[i]) && GapWithin(cs[i], MIN_GAP, MAX_GAP)
        invariant moved == exists i :: 0 <= i < k && GapAtLeast(cs[i], MIN_GAP)
        invariant revisited == exists i :: 0 <= i < k && Revisits(cs[i])
        invariant landed == exists i :: 0 <= i < k && GapBelow(cs[i], MIN_GAP)
      {
        isSwipe := isSwipe || (Crosses(board, cs[k]) && GapWithin(cs[k], MIN_GAP, MAX_GAP));
        moved := moved || GapAtLeast(cs[k], MIN_GAP);
        revisited := revisited || Revisits(cs[k]);
        landed := landed || GapBelow(cs[k], MIN_GAP);
      }
      v := Verdict(|cs| == 1 && presses <= 1 && isSwipe, moved || Disjoint(cs), revisited, landed);
    }

    /** A session of touches is over: swallow it, count it, or pat at once. */
    method OnSessionEnd() returns (pat: Option<nat>)
      modifies this
      ensures View() == Step(board, old(View()), SessionEnd).0
      ensures pat.Some? <==> exists e :: e in Step(board, old(View()), SessionEnd).1 && e.Pat?
    {
      hide Classify, EarlyPet;
      var v := ClassifyCycle();
      CloseContact();
      pat := None;
      if now < cooldown {
        cooldown := now + PET_COOLDOWN;
        ResetCycle();
        return;
      }
      count := count + 1;
      if EarlyPet(board, v, count) {
        pat := Some(count);
        assert Pat(Pet, count, now) in Step(board, old(View()), SessionEnd).1;
        count := 0;
        cooldown := now + PET_COOLDOWN;
        ResetCycle();
      }
    }

    /** The decision window is over: whatever was counted becomes one pat. */
    method OnDecision() returns (pat: Option<Gesture>)
      modifies this
      ensures View() == Step(board, old(View()), Decision).0
      ensures Step(board, old(View()), Decision).1
           == match pat case None => [] case Some(g) => [Pat(g, old(count), old(now))]
    {
      hide Classify, Decide;
      var pending := count;
      count := 0;
      var v := ClassifyCycle();
      CountMatters(board, View(), pending);
      CloseContact();
      if pending < 1 {
        ResetCycle();
        return None;
      }
      pat := Some(Decide(board, v, presses, pending));
      ResetCycle();
      cooldown := now + PET_COOLDOWN;
    }
  }

  /** Classification looks at the contacts, not at the count. */
  lemma CountMatters(b: Board, s: Pads, count: nat)
    ensures Classify(b, s) == Classify(b, s.(count := count))
  {
  }
}
