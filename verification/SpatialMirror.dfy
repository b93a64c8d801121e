/** Mirror symmetry: reversing the declared swipe axis negates the direction of
    every swipe and changes nothing else, over whole runs. */
module SpatialMirror {
  import opened Common
  import Button = TouchButton
  import opened ButtonEvents = TouchButton
  import opened SpatialTouch

  function Reversed(axis: seq<nat>): (r: seq<nat>)
    ensures |r| == |axis| && forall k :: 0 <= k < |axis| ==> r[k] == axis[|axis| - 1 - k]
  {
    seq(|axis|, k requires 0 <= k < |axis| => axis[|axis| - 1 - k])
  }

  function MirrorConfig(cfg: Pads): Pads {
    var m := cfg.(axis := Reversed(cfg.axis));
    assert forall p <- m.axis :: p in cfg.axis;
    m
  }

  /** The position an axis of n pads is read at from its other end. */
  function Flip(n: nat, j: nat): int {
    n - 1 - j
  }

  function MirrorSet(n: nat, ps: set<nat>): set<nat> {
    set j: nat | j < n && Flip(n, j) in ps
  }

  function MirrorPoint(n: nat, p: Option<real>): Option<real> {
    match p case None => None case Some(x) => Some((n - 1) as real - x)
  }

  function MirrorContact(n: nat, c: Contact): Contact {
    c.(seen := MirrorSet(n, c.seen), previous := MirrorSet(n, c.previous),
       origin := MirrorPoint(n, c.origin), lastCenter := MirrorPoint(n, c.lastCenter), direction := -c.direction)
  }

  function MirrorState(n: nat, s: Spatial): Spatial {
    s.(contact := MirrorContact(n, s.contact))
  }

  function MirrorEvent(e: Event): Event {
    if e.kind == Swipe then e.(direction := -e.direction) else e
  }

  function MirrorEvents(es: seq<Event>): seq<Event> {
    seq(|es|, i requires 0 <= i < |es| => MirrorEvent(es[i]))
  }

  predicate Swipeless(es: seq<Event>) {
    forall e <- es :: e.kind != Swipe
  }

  /** A button recognizer that never reports swipes of its own. */
  ghost predicate NoSwipes(step: ButtonStep) {
    forall s, touched, at :: Swipeless(step(s, touched, at).1)
  }

  lemma Quiet(step: ButtonStep, s: Button.State, touched: bool, at: int)
    requires NoSwipes(step)
    ensures Swipeless(step(s, touched, at).1)
  {
  }

  lemma ButtonsNeverSwipe(bcfg: ButtonConfig)
    ensures NoSwipes(StepOf(bcfg))
  {
    forall s: Button.State, touched: bool, at: int ensures Swipeless(StepOf(bcfg)(s, touched, at).1) {
      ButtonNeverSwipes(bcfg, s, touched, at);
    }
  }

  lemma ButtonNeverSwipes(bcfg: ButtonConfig, s: Button.State, touched: bool, at: int)
    ensures Swipeless(Button.Step(bcfg, s, touched, at).1)
  {
  }

  // ----- geometry -----

  predicate Within(n: nat, ps: set<nat>) {
    forall k <- ps :: k < n
  }

  /** Positions seen so far lie on the axis. */
  predicate OnAxis(n: nat, s: Spatial) {
    Within(n, s.contact.seen) && Within(n, s.contact.previous)
  }

  lemma MirrorPositions(axis: seq<nat>, pads: set<nat>)
    ensures Positions(Reversed(axis), pads) == MirrorSet(|axis|, Positions(axis, pads))
    ensures Off(Reversed(axis), pads) == Off(axis, pads)
    ensures Within(|axis|, Positions(axis, pads))
  {
    var n := |axis|;
    forall k | k in Positions(Reversed(axis), pads) ensures k in MirrorSet(n, Positions(axis, pads)) {
      assert Flip(n, k) in Positions(axis, pads);
    }
    forall p ensures p in axis <==> p in Reversed(axis) {
      if p in axis {
        var k :| 0 <= k < n && axis[k] == p;
        assert Reversed(axis)[n - 1 - k] == p;
      }
    }
  }

  lemma MirrorSets(n: nat, a: set<nat>, b: set<nat>)
    requires Within(n, a) && Within(n, b)
    ensures MirrorSet(n, a) <= MirrorSet(n, b) <==> a <= b
    ensures MirrorSet(n, a) - MirrorSet(n, b) == MirrorSet(n, a - b)
    ensures MirrorSet(n, a) + MirrorSet(n, b) == MirrorSet(n, a + b)
    ensures MirrorSet(n, a) == {} <==> a == {}
    ensures MirrorSet(n, a) - MirrorSet(n, b) == {} <==> a - b == {}
  {
    MirrorEmpty(n, a);
    MirrorEmpty(n, a - b);
    if MirrorSet(n, a) <= MirrorSet(n, b) {
      forall k | k in a ensures k in b {
        assert Flip(n, Flip(n, k)) == k && Flip(n, k) in MirrorSet(n, a);
      }
    }
  }

  lemma MirrorEmpty(n: nat, a: set<nat>)
    requires Within(n, a)
    ensures MirrorSet(n, a) == {} <==> a == {}
  {
    if a != {} {
      var k :| k in a;
      assert Flip(n, Flip(n, k)) == k && Flip(n, k) in MirrorSet(n, a);
    }
  }

  lemma {:induction false} SumInsert(ps: set<nat>, k: nat, n: nat)
    requires k !in ps
    ensures SumBelow(ps + {k}, n) == SumBelow(ps, n) + if k < n then k else 0
  {
    if n > 0 {
      SumInsert(ps, k, n - 1);
    }
  }

  lemma {:induction false} SumEmpty(n: nat)
    ensures SumBelow({}, n) == 0
  {
    if n > 0 { SumEmpty(n - 1); }
  }

  function Times(m: nat, w: int): int {
    if m == 0 then 0 else Times(m - 1, w) + w
  }

  lemma {:induction false} TimesIsProduct(m: nat, w: int)
    ensures Times(m, w) == m * w
  {
    if m > 0 {
      TimesIsProduct(m - 1, w);
      assert m * w == (m - 1) * w + w;
    }
  }

  lemma {:induction false} MirrorSum(n: nat, ps: set<nat>)
    requires Within(n, ps)
    ensures |MirrorSet(n, ps)| == |ps|
    ensures SumBelow(MirrorSet(n, ps), n) + SumBelow(ps, n) == Times(|ps|, n - 1)
    decreases ps
  {
    if ps == {} {
      SumEmpty(n);
      assert MirrorSet(n, ps) == {};
    } else {
      var k :| k in ps;
      MirrorSum(n, ps - {k});
      MirrorSumStep(n, ps - {k}, k);
      assert (ps - {k}) + {k} == ps;
    }
  }

  lemma MirrorSumStep(n: nat, rest: set<nat>, k: nat)
    requires k < n && k !in rest
    requires |MirrorSet(n, rest)| == |rest|
    requires SumBelow(MirrorSet(n, rest), n) + SumBelow(rest, n) == Times(|rest|, n - 1)
    ensures |MirrorSet(n, rest + {k})| == |rest + {k}|
    ensures SumBelow(MirrorSet(n, rest + {k}), n) + SumBelow(rest + {k}, n) == Times(|rest + {k}|, n - 1)
  {
    hide SumBelow, MirrorSet;
    MirrorInsert(n, rest, k);
    SumInsert(rest, k, n);
    SumInsert(MirrorSet(n, rest), Flip(n, k), n);
  }

  lemma MirrorInsert(n: nat, rest: set<nat>, k: nat)
    requires k < n && k !in rest
    ensures MirrorSet(n, rest + {k}) == MirrorSet(n, rest) + {Flip(n, k)}
    ensures Flip(n, k) !in MirrorSet(n, rest)
  {
  }

  lemma MirrorCenter(n: nat, ps: set<nat>)
    requires ps != {} && Within(n, ps)
    ensures MirrorSet(n, ps) != {}
    ensures Center(n, MirrorSet(n, ps)) == (n - 1) as real - Center(n, ps)
  {
    MirrorSum(n, ps);
    MirrorEmpty(n, ps);
    TimesIsProduct(|ps|, n - 1);
    Divide(SumBelow(MirrorSet(n, ps), n), SumBelow(ps, n), |ps|, n - 1);
  }

  lemma Divide(a: nat, b: nat, m: nat, w: int)
    requires m > 0 && a + b == m * w
    ensures a as real / m as real == w as real - b as real / m as real
  {
    assert a as real + b as real == m as real * w as real;
    DivideReal(a as real, b as real, m as real, w as real);
  }

  lemma DivideReal(a: real, b: real, m: real, w: real)
    requires m > 0.0 && a + b == m * w
    ensures a / m == w - b / m
  {
    assert b == m * (b / m);
    assert a == m * (w - b / m);
  }

  lemma NoSwipeUnchanged(es: seq<Event>)
    requires Swipeless(es)
    ensures MirrorEvents(es) == es
  {
  }

  // ----- one sample -----

  lemma MirrorCleared(n: nat, s: Spatial)
    ensures ClearCycle(MirrorState(n, s)) == MirrorState(n, ClearCycle(s))
  {
    assert MirrorSet(n, {}) == {};
  }

  lemma MirrorFinish(cfg: Pads, step: ButtonStep, s: Spatial, active: bool, now: int)
    requires s.cycle && s.releaseAt.Some? && s.contact.started.Some? && s.contact.lastMove.Some? && NoSwipes(step)
    ensures Finish(MirrorConfig(cfg), step, MirrorState(|cfg.axis|, s), active, now).0
         == MirrorState(|cfg.axis|, Finish(cfg, step, s, active, now).0)
    ensures Finish(MirrorConfig(cfg), step, MirrorState(|cfg.axis|, s), active, now).1
         == MirrorEvents(Finish(cfg, step, s, active, now).1)
    ensures OnAxis(|cfg.axis|, Finish(cfg, step, s, active, now).0)
  {
    if !s.contact.moving {
      var (b1, e1) := step(s.button, false, s.releaseAt.value);
      var (b2, e2) := if active then (b1, []) else step(b1, false, now);
      Quiet(step, s.button, false, s.releaseAt.value);
      Quiet(step, b1, false, now);
      NoSwipeUnchanged(e1 + e2);
      MirrorCleared(|cfg.axis|, s.(button := b2));
    } else {
      MirrorCleared(|cfg.axis|, s.(button := step(Button.INITIAL, false, now).0));
    }
  }

  lemma MirrorResolve(cfg: Pads, step: ButtonStep, s: Spatial, active: set<nat>, now: int)
    requires s.cycle ==> s.contact.started.Some? && s.contact.lastMove.Some?
    requires OnAxis(|cfg.axis|, s) && NoSwipes(step)
    ensures ResolveOld(MirrorConfig(cfg), step, MirrorState(|cfg.axis|, s), active, now).0
         == MirrorState(|cfg.axis|, ResolveOld(cfg, step, s, active, now).0)
    ensures ResolveOld(MirrorConfig(cfg), step, MirrorState(|cfg.axis|, s), active, now).1
         == MirrorEvents(ResolveOld(cfg, step, s, active, now).1)
    ensures OnAxis(|cfg.axis|, ResolveOld(cfg, step, s, active, now).0)
  {
    hide Finish, Positions, Off, Reversed, MirrorSet, Elems, ValidConfig;
    MirrorPositions(cfg.axis, s.stable);
    MirrorSets(|cfg.axis|, Positions(cfg.axis, s.stable), s.contact.seen);
    if s.cycle && s.releaseAt.Some? {
      MirrorFinish(cfg, step, s, active != {}, now);
    }
  }

  lemma MirrorMoved(n: nat, c: Contact, ps: set<nat>, center: real, now: int)
    requires c.origin.Some? && c.lastCenter.Some? && c.lastMove.Some?
    requires Within(n, ps) && Within(n, c.seen) && Within(n, c.previous)
    ensures Moved(MirrorContact(n, c), MirrorSet(n, ps), (n - 1) as real - center, now)
         == MirrorContact(n, Moved(c, ps, center, now))
    ensures Departing(MirrorContact(n, c), MirrorSet(n, ps), (n - 1) as real - center, now) == Departing(c, ps, center, now)
    ensures Within(n, Moved(c, ps, center, now).seen) && Within(n, Moved(c, ps, center, now).previous)
  {
    MirrorSets(n, ps, c.seen);
    MirrorSets(n, c.seen, ps);
    MirrorSets(n, ps, c.previous);
  }

  lemma MirrorTravel(cfg: Pads, s: Spatial, now: int)
    requires Positions(cfg.axis, s.stable) != {} && OnAxis(|cfg.axis|, s)
    requires s.contact.origin.Some? && s.contact.lastCenter.Some? && s.contact.lastMove.Some?
    ensures Positions(Reversed(cfg.axis), s.stable) != {}
    ensures Travel(MirrorConfig(cfg), MirrorState(|cfg.axis|, s), now).0 == MirrorState(|cfg.axis|, Travel(cfg, s, now).0)
    ensures Travel(MirrorConfig(cfg), MirrorState(|cfg.axis|, s), now).1 == MirrorEvents(Travel(cfg, s, now).1)
    ensures OnAxis(|cfg.axis|, Travel(cfg, s, now).0)
  {
    hide Moved, Departing, Center, Positions, Off, Reversed, MirrorSet;
    var n, ps := |cfg.axis|, Positions(cfg.axis, s.stable);
    MirrorPositions(cfg.axis, s.stable);
    MirrorCenter(n, ps);
    MirrorMoved(n, s.contact, ps, Center(n, ps), now);
  }

  lemma MirrorMixed(cfg: Pads, s: Spatial)
    ensures Mixed(MirrorConfig(cfg), MirrorState(|cfg.axis|, s)) == Mixed(cfg, s)
    ensures Positions(MirrorConfig(cfg).axis, s.stable) == {} <==> Positions(cfg.axis, s.stable) == {}
  {
    MirrorPositions(cfg.axis, s.stable);
    MirrorEmpty(|cfg.axis|, Positions(cfg.axis, s.stable));
  }

  lemma MirrorFollow(cfg: Pads, s: Spatial, now: int)
    requires s.contact.lastMove.Some? && (s.contact.origin.Some? <==> s.contact.lastCenter.Some?)
    requires OnAxis(|cfg.axis|, s)
    ensures Follow(MirrorConfig(cfg), MirrorState(|cfg.axis|, s), now).0 == MirrorState(|cfg.axis|, Follow(cfg, s, now).0)
    ensures Follow(MirrorConfig(cfg), MirrorState(|cfg.axis|, s), now).1 == MirrorEvents(Follow(cfg, s, now).1)
    ensures OnAxis(|cfg.axis|, Follow(cfg, s, now).0)
  {
    hide Travel, Mixed, Positions, MirrorConfig, MirrorSet;
    MirrorMixed(cfg, s);
    if !Mixed(cfg, s) && Positions(cfg.axis, s.stable) != {} && s.contact.origin.Some? {
      MirrorTravel(cfg, s, now);
    }
  }

  lemma MirrorPress(cfg: Pads, step: ButtonStep, s: Spatial, active: set<nat>, now: int)
    requires active == {} ==> LastOff(cfg.electrodes, s.raw).Some?
    requires NoSwipes(step) && OnAxis(|cfg.axis|, s)
    ensures PressButton(MirrorConfig(cfg), step, MirrorState(|cfg.axis|, s), active, now)
         == (MirrorState(|cfg.axis|, PressButton(cfg, step, s, active, now).0),
             MirrorEvents(PressButton(cfg, step, s, active, now).1))
    ensures OnAxis(|cfg.axis|, PressButton(cfg, step, s, active, now).0)
  {
    NoSwipeUnchanged(PressButton(cfg, step, s, active, now).1);
    assert MirrorContact(|cfg.axis|, NO_CONTACT) == NO_CONTACT;
  }

  lemma MirrorBegin(cfg: Pads, s: Spatial, now: int)
    ensures BeginCycle(MirrorConfig(cfg), MirrorState(|cfg.axis|, s), now) == MirrorState(|cfg.axis|, BeginCycle(cfg, s, now))
    ensures OnAxis(|cfg.axis|, BeginCycle(cfg, s, now))
  {
    hide Center, Positions, Off, Reversed, MirrorSet;
    var n, ps := |cfg.axis|, Positions(cfg.axis, s.stable);
    MirrorPositions(cfg.axis, s.stable);
    MirrorEmpty(n, ps);
    if ps != {} {
      MirrorCenter(n, ps);
    }
  }

  lemma MirrorJoin(a: seq<Event>, b: seq<Event>)
    ensures MirrorEvents(a + b) == MirrorEvents(a) + MirrorEvents(b)
  {
  }

  lemma MirrorTrack(cfg: Pads, step: ButtonStep, s: Spatial, active: set<nat>, now: int)
    requires Trackable(cfg, s, active) && NoSwipes(step) && OnAxis(|cfg.axis|, s)
    ensures Trackable(MirrorConfig(cfg), MirrorState(|cfg.axis|, s), active)
    ensures Track(MirrorConfig(cfg), step, MirrorState(|cfg.axis|, s), active, now)
         == (MirrorState(|cfg.axis|, Track(cfg, step, s, active, now).0), MirrorEvents(Track(cfg, step, s, active, now).1))
    ensures OnAxis(|cfg.axis|, Track(cfg, step, s, active, now).0)
  {
    var es := Track(cfg, step, s, active, now).1;
    if s.stable != {} && s.cycle {
      var (s1, e1) := Follow(cfg, s, now);
      FollowKeeps(cfg, s, now);
      MirrorFollow(cfg, s, now);
      MirrorPress(cfg, step, s1, active, now);
      MirrorJoin(e1, PressButton(cfg, step, s1, active, now).1);
    } else if s.stable != {} && active != {} && now - s.contactSince >= cfg.debounce {
      MirrorBegin(cfg, s, now);
      MirrorPress(cfg, step, BeginCycle(cfg, s, now), active, now);
    } else {
      NoSwipeUnchanged(es);
    }
  }

  lemma FootprintFields(cfg: Pads, s: Spatial, active: set<nat>, now: int)
    requires s.raw.Keys == Elems(cfg.electrodes)
    ensures var t := Footprint(cfg, s, active, now);
            t.cycle == s.cycle && t.contact == s.contact && t.id == s.id && t.releaseAt == s.releaseAt
  {
  }

  lemma MirrorFootprint(cfg: Pads, s: Spatial, active: set<nat>, now: int)
    requires s.raw.Keys == Elems(cfg.electrodes)
    ensures Footprint(MirrorConfig(cfg), RawEdge(MirrorState(|cfg.axis|, s), active, now).0, active, now)
         == MirrorState(|cfg.axis|, Footprint(cfg, RawEdge(s, active, now).0, active, now))
  {
    hide MirrorContact, Reversed;
    var n, s' := |cfg.axis|, RawEdge(s, active, now).0;
    assert RawEdge(MirrorState(n, s), active, now).0 == MirrorState(n, s');
    MirrorReadings(cfg, s', active, now);
  }

  lemma MirrorReadings(cfg: Pads, s: Spatial, active: set<nat>, now: int)
    requires s.raw.Keys == Elems(cfg.electrodes)
    ensures Footprint(MirrorConfig(cfg), MirrorState(|cfg.axis|, s), active, now)
         == MirrorState(|cfg.axis|, Footprint(cfg, s, active, now))
  {
    hide MirrorContact, Reversed;
    var a := Footprint(MirrorConfig(cfg), MirrorState(|cfg.axis|, s), active, now);
    var b := Footprint(cfg, s, active, now);
    assert a.raw == b.raw;
    assert a.stable == b.stable;
  }

  lemma MirrorArmed(cfg: Pads, step: ButtonStep, s: Spatial, mask: set<nat>, now: int)
    requires Valid(cfg, s) && NoSwipes(step) && OnAxis(|cfg.axis|, s) && s.seeded && s.armed
    ensures Valid(MirrorConfig(cfg), MirrorState(|cfg.axis|, s))
    ensures SpatialStep(MirrorConfig(cfg), step, MirrorState(|cfg.axis|, s), mask, now)
         == (MirrorState(|cfg.axis|, SpatialStep(cfg, step, s, mask, now).0),
             MirrorEvents(SpatialStep(cfg, step, s, mask, now).1))
    ensures OnAxis(|cfg.axis|, SpatialStep(cfg, step, s, mask, now).0)
  {
    hide ResolveOld, Track, Footprint, MirrorSet;
    var active := Active(cfg, mask);
    var (c, e0) := RawEdge(s, active, now);
    NoSwipeUnchanged(e0);
    PreparedTrackable(cfg, step, s, active, now);
    MirrorFootprint(cfg, s, active, now);
    FootprintFields(cfg, c, active, now);
    MirrorResolve(cfg, step, Footprint(cfg, c, active, now), active, now);
    var (s2, e1) := Prepared(cfg, step, s, active, now);
    MirrorTrack(cfg, step, s2, active, now);
    MirrorJoin(e0, e1);
    MirrorJoin(e0 + e1, Track(cfg, step, s2, active, now).1);
  }

  lemma MirrorIdle(cfg: Pads, step: ButtonStep, s: Spatial, mask: set<nat>, now: int)
    requires Valid(cfg, s) && OnAxis(|cfg.axis|, s) && !(s.seeded && s.armed)
    ensures Valid(MirrorConfig(cfg), MirrorState(|cfg.axis|, s))
    ensures SpatialStep(MirrorConfig(cfg), step, MirrorState(|cfg.axis|, s), mask, now).0
         == MirrorState(|cfg.axis|, SpatialStep(cfg, step, s, mask, now).0)
    ensures SpatialStep(MirrorConfig(cfg), step, MirrorState(|cfg.axis|, s), mask, now).1
         == MirrorEvents(SpatialStep(cfg, step, s, mask, now).1)
    ensures OnAxis(|cfg.axis|, SpatialStep(cfg, step, s, mask, now).0)
  {
    hide MirrorSet, Reversed, ValidConfig;
    NoSwipeUnchanged(SpatialStep(cfg, step, s, mask, now).1);
  }

  lemma MirrorStep(cfg: Pads, step: ButtonStep, s: Spatial, mask: set<nat>, now: int)
    requires Valid(cfg, s) && NoSwipes(step) && OnAxis(|cfg.axis|, s)
    ensures Valid(MirrorConfig(cfg), MirrorState(|cfg.axis|, s))
    ensures SpatialStep(MirrorConfig(cfg), step, MirrorState(|cfg.axis|, s), mask, now)
         == (MirrorState(|cfg.axis|, SpatialStep(cfg, step, s, mask, now).0),
             MirrorEvents(SpatialStep(cfg, step, s, mask, now).1))
    ensures OnAxis(|cfg.axis|, SpatialStep(cfg, step, s, mask, now).0)
  {
    hide SpatialStep;
    if s.seeded && s.armed {
      MirrorArmed(cfg, step, s, mask, now);
    } else {
      MirrorIdle(cfg, step, s, mask, now);
    }
  }

  // ----- whole runs -----

  datatype Sweep = Sweep(mask: set<nat>, at: int)

  /** State and emitted events after a sequence of samples. */
  function SpatialRun(cfg: Pads, step: ButtonStep, h: seq<Sweep>): (r: (Spatial, seq<Event>))
    ensures Valid(cfg, r.0)
  {
    if h == [] then (START, [])
    else
      var (s, log) := SpatialRun(cfg, step, h[..|h| - 1]);
      var x := h[|h| - 1];
      SpatialStepValid(cfg, step, s, x.mask, x.at);
      var (t, es) := SpatialStep(cfg, step, s, x.mask, x.at);
      (t, log + es)
  }

  lemma StartsClosed(cfg: Pads, step: ButtonStep)
    ensures !SpatialRun(cfg, step, []).0.cycle
  {
  }

  /** With the axis reversed the same samples give the same events, with only
      swipe directions negated. */
  lemma {:induction false} MirrorRun(cfg: Pads, step: ButtonStep, h: seq<Sweep>)
    requires NoSwipes(step)
    ensures SpatialRun(MirrorConfig(cfg), step, h).1 == MirrorEvents(SpatialRun(cfg, step, h).1)
    ensures SpatialRun(MirrorConfig(cfg), step, h).0 == MirrorState(|cfg.axis|, SpatialRun(cfg, step, h).0)
    ensures OnAxis(|cfg.axis|, SpatialRun(cfg, step, h).0)
  {
    if h == [] {
      assert MirrorContact(|cfg.axis|, NO_CONTACT) == NO_CONTACT;
    } else {
      var x := h[|h| - 1];
      MirrorRun(cfg, step, h[..|h| - 1]);
      var (s, log) := SpatialRun(cfg, step, h[..|h| - 1]);
      MirrorStep(cfg, step, s, x.mask, x.at);
      MirrorJoin(log, SpatialStep(cfg, step, s, x.mask, x.at).1);
    }
  }

  /** The same, for the button recognizers the device has. */
  lemma AxisMirror(cfg: Pads, bcfg: ButtonConfig, h: seq<Sweep>)
    ensures SpatialRun(MirrorConfig(cfg), StepOf(bcfg), h).1 == MirrorEvents(SpatialRun(cfg, StepOf(bcfg), h).1)
  {
    hide SpatialRun;
    ButtonsNeverSwipe(bcfg);
    MirrorRun(cfg, StepOf(bcfg), h);
  }
}
