/** Why a swipe was reported: the samples of its contact cycle that brought a
    new pad, and what the footprint did at them. */
module SpatialSwipes {
  import opened Common
  import opened ButtonEvents = TouchButton
  import opened SpatialTouch
  import opened SpatialMirror

  // ----- what one sample does to the contact -----

  /** The contact of a cycle that starts now on this footprint. */
  function FirstContact(cfg: Pads, stable: set<nat>, now: int): Contact {
    BeginCycle(cfg, START.(stable := stable), now).contact
  }

  /** A footprint on the axis moved the contact. */
  predicate MovedTo(cfg: Pads, c: Contact, d: Contact, stable: set<nat>, now: int) {
    var ps := Positions(cfg.axis, stable);
    && ps != {} && c.origin.Some? && c.lastCenter.Some? && c.lastMove.Some?
    && d == Moved(c, ps, Center(|cfg.axis|, ps), now)
  }

  /** A footprint that cannot move the contact. */
  predicate Aside(cfg: Pads, c: Contact, stable: set<nat>) {
    Positions(cfg.axis, stable) == {} || c.origin.None?
  }

  /** The contact after a sample, while the cycle goes on. */
  predicate Goes(cfg: Pads, s: Spatial, t: Spatial, now: int) {
    || (t.id == s.id && s.cycle
        && ((t.contact == s.contact && Aside(cfg, s.contact, t.stable))
            || t.contact == s.contact.(moving := true, invalid := true)
            || MovedTo(cfg, s.contact, t.contact, t.stable, now)))
    || (t.id == s.id + 1 && t.contact == FirstContact(cfg, t.stable, now))
  }

  predicate Tidy(s: Spatial) {
    !s.cycle ==> s.contact == NO_CONTACT
  }

  lemma FollowGoes(cfg: Pads, s: Spatial, now: int)
    requires s.contact.lastMove.Some? && (s.contact.origin.Some? <==> s.contact.lastCenter.Some?)
    ensures var c, d := s.contact, Follow(cfg, s, now).0.contact;
            (d == c && Aside(cfg, c, s.stable)) || d == c.(moving := true, invalid := true) || MovedTo(cfg, c, d, s.stable, now)
    ensures Swipeless(Follow(cfg, s, now).1)
  {
    hide Moved, Departing, Mixed, Center, Positions;
  }

  lemma PressGoes(cfg: Pads, step: ButtonStep, s: Spatial, active: set<nat>, now: int)
    requires active == {} ==> LastOff(cfg.electrodes, s.raw).Some?
    requires NoSwipes(step)
    ensures var t := PressButton(cfg, step, s, active, now).0;
            && t.id == s.id && t.stable == s.stable
            && (t.cycle ==> s.cycle && t.contact == s.contact)
            && (s.cycle && !t.cycle ==> t.contact == NO_CONTACT)
    ensures Swipeless(PressButton(cfg, step, s, active, now).1)
  {
    hide LastOff;
    Quiet(step, s.button, true, EdgeTime(cfg, s, active, now));
  }

  lemma TrackGoes(cfg: Pads, step: ButtonStep, s: Spatial, active: set<nat>, now: int)
    requires Trackable(cfg, s, active) && NoSwipes(step) && Tidy(s)
    ensures var t := Track(cfg, step, s, active, now).0;
            t.stable == s.stable && Tidy(t) && (t.cycle ==> Goes(cfg, s, t, now)) && s.id <= t.id
    ensures Swipeless(Track(cfg, step, s, active, now).1)
  {
    hide Follow, PressButton, MovedTo, Positions, Center, LastOff, EdgeTime;
    if s.stable != {} && s.cycle {
      FollowKeeps(cfg, s, now);
      FollowGoes(cfg, s, now);
      PressGoes(cfg, step, Follow(cfg, s, now).0, active, now);
    } else if s.stable != {} && active != {} && now - s.contactSince >= cfg.debounce {
      PressGoes(cfg, step, BeginCycle(cfg, s, now), active, now);
    } else {
      Quiet(step, s.button, false, now);
      NothingAside(cfg, s.contact);
    }
  }

  lemma NothingAside(cfg: Pads, c: Contact)
    ensures Aside(cfg, c, {})
  {
  }

  /** A swipe is reported only for the contact that is being resolved. */
  predicate Reported(cfg: Pads, s: Spatial, e: Event) {
    && s.cycle && s.contact.moving && s.contact.started.Some? && s.contact.lastMove.Some?
    && SwipeValid(cfg, s) && e == Event(Swipe, s.id, 0, 0, s.contact.direction)
  }

  lemma ResolveGoes(cfg: Pads, step: ButtonStep, s: Spatial, active: set<nat>, now: int)
    requires s.cycle ==> s.contact.started.Some? && s.contact.lastMove.Some?
    requires NoSwipes(step) && Tidy(s)
    ensures var t := ResolveOld(cfg, step, s, active, now).0;
            t.stable == s.stable && Tidy(t) && t.id == s.id && (t.cycle ==> s.cycle && t.contact == s.contact)
    ensures forall e <- ResolveOld(cfg, step, s, active, now).1 :: e.kind == Swipe ==> Reported(cfg, s, e)
  {
    hide Positions;
    if s.cycle && s.releaseAt.Some? {
      Quiet(step, s.button, false, s.releaseAt.value);
      Quiet(step, step(s.button, false, s.releaseAt.value).0, false, now);
    }
  }

  /** Goes is stated against the start of the cycle, which debouncing keeps. */
  lemma GoesOn(cfg: Pads, s: Spatial, r: Spatial, t: Spatial, now: int)
    requires Goes(cfg, r, t, now) && r.id == s.id && (r.cycle ==> s.cycle && r.contact == s.contact)
    ensures Goes(cfg, s, t, now)
  {
    hide Moved, Center, Positions;
  }

  lemma IdleGoes(cfg: Pads, step: ButtonStep, s: Spatial, mask: set<nat>, now: int)
    requires Valid(cfg, s) && Tidy(s) && !(s.seeded && s.armed)
    ensures var t := SpatialStep(cfg, step, s, mask, now).0;
            Tidy(t) && (t.cycle ==> Goes(cfg, s, t, now)) && s.id <= t.id
    ensures Swipeless(SpatialStep(cfg, step, s, mask, now).1)
  {
  }

  lemma ArmedGoes(cfg: Pads, step: ButtonStep, s: Spatial, mask: set<nat>, now: int)
    requires Valid(cfg, s) && NoSwipes(step) && Tidy(s) && s.seeded && s.armed
    ensures var t := SpatialStep(cfg, step, s, mask, now).0;
            Tidy(t) && (t.cycle ==> Goes(cfg, s, t, now)) && s.id <= t.id
    ensures forall e <- SpatialStep(cfg, step, s, mask, now).1 :: e.kind == Swipe ==> Reported(cfg, s, e)
  {
    hide ResolveOld, Track, Trackable, Elems, Footprint, Goes;
    var active := Active(cfg, mask);
    var c := RawEdge(s, active, now).0;
    PreparedTrackable(cfg, step, s, active, now);
    FootprintFields(cfg, c, active, now);
    ResolveGoes(cfg, step, Footprint(cfg, c, active, now), active, now);
    var r := Prepared(cfg, step, s, active, now).0;
    TrackGoes(cfg, step, r, active, now);
    if Track(cfg, step, r, active, now).0.cycle {
      GoesOn(cfg, s, r, Track(cfg, step, r, active, now).0, now);
    }
  }

  lemma StepGoes(cfg: Pads, step: ButtonStep, s: Spatial, mask: set<nat>, now: int)
    requires Valid(cfg, s) && NoSwipes(step) && Tidy(s)
    ensures var t := SpatialStep(cfg, step, s, mask, now).0;
            Tidy(t) && (t.cycle ==> Goes(cfg, s, t, now)) && s.id <= t.id
    ensures forall e <- SpatialStep(cfg, step, s, mask, now).1 :: e.kind == Swipe ==> Reported(cfg, s, e)
  {
    hide SpatialStep, Goes, Tidy, Reported;
    if s.seeded && s.armed {
      ArmedGoes(cfg, step, s, mask, now);
    } else {
      IdleGoes(cfg, step, s, mask, now);
    }
  }

  // ----- the samples that built the contact -----

  /** The footprint on the axis after sample `a` of a run. */
  function FootAt(cfg: Pads, step: ButtonStep, h: seq<Sweep>, a: nat): set<nat>
    requires a < |h|
  {
    Positions(cfg.axis, SpatialRun(cfg, step, h[..a + 1]).0.stable)
  }

  /** The sample that began the current cycle, and those that brought a new pad since. */
  function Trail(cfg: Pads, step: ButtonStep, h: seq<Sweep>): seq<nat> {
    if h == [] then []
    else
      var front := h[..|h| - 1];
      var s, t := SpatialRun(cfg, step, front).0, SpatialRun(cfg, step, h).0;
      if !t.cycle then []
      else if t.id != s.id then [|front|]
      else if t.contact.seen != s.contact.seen then Trail(cfg, step, front) + [|front|]
      else Trail(cfg, step, front)
  }

  predicate Indices(tr: seq<nat>, n: nat) {
    && (forall i :: 0 <= i < |tr| ==> tr[i] < n)
    && forall i, j :: 0 <= i < j < |tr| ==> tr[i] < tr[j]
  }

  predicate Extends(tr: seq<nat>, a: nat, n: nat) {
    a < n && Indices(tr, n) && Indices(tr + [a], n)
  }

  /** The pads of the footprints at the first `n` samples of a trail. */
  function Gathered(cfg: Pads, step: ButtonStep, h: seq<Sweep>, tr: seq<nat>, n: nat): set<nat>
    requires Indices(tr, |h|) && n <= |tr|
  {
    if n == 0 then {} else Gathered(cfg, step, h, tr, n - 1) + FootAt(cfg, step, h, tr[n - 1])
  }

  /** Signed distance of the footprint's centre at `a` from that at the origin. */
  function Reach(cfg: Pads, step: ButtonStep, h: seq<Sweep>, origin: nat, a: nat): real
    requires origin < |h| && a < |h|
    requires FootAt(cfg, step, h, origin) != {} && FootAt(cfg, step, h, a) != {}
  {
    Center(|cfg.axis|, FootAt(cfg, step, h, a)) - Center(|cfg.axis|, FootAt(cfg, step, h, origin))
  }

  predicate OnAxisAt(cfg: Pads, step: ButtonStep, h: seq<Sweep>, a: nat)
    requires a < |h|
  {
    FootAt(cfg, step, h, a) != {}
  }

  /** Some sample of the trail lies `far` along the direction. */
  ghost predicate Reaches(cfg: Pads, step: ButtonStep, h: seq<Sweep>, tr: seq<nat>, direction: int, far: real)
    requires Indices(tr, |h|)
  {
    exists i :: 0 <= i < |tr| && ReachesAt(cfg, step, h, tr, direction, far, i)
  }

  predicate ReachesAt(cfg: Pads, step: ButtonStep, h: seq<Sweep>, tr: seq<nat>, direction: int, far: real, i: nat)
    requires Indices(tr, |h|) && i < |tr|
  {
    && OnAxisAt(cfg, step, h, tr[0]) && OnAxisAt(cfg, step, h, tr[i])
    && Along(Reach(cfg, step, h, tr[0], tr[i]), direction) >= far
  }

  /** Successive samples of the trail are close in time. */
  predicate Brisk(h: seq<Sweep>, tr: seq<nat>)
    requires Indices(tr, |h|)
  {
    forall i :: 0 < i < |tr| ==> h[tr[i]].at - h[tr[i - 1]].at <= SWIPE_MAX_GAP
  }

  /** Every sample of the trail after the first brought a pad not touched before. */
  predicate EachGains(cfg: Pads, step: ButtonStep, h: seq<Sweep>, tr: seq<nat>)
    requires Indices(tr, |h|)
  {
    forall i :: 0 < i < |tr| ==> FootAt(cfg, step, h, tr[i]) - Gathered(cfg, step, h, tr, i) != {}
  }

  /** The contact is what its trail says. */
  ghost predicate Recorded(cfg: Pads, step: ButtonStep, h: seq<Sweep>, tr: seq<nat>, c: Contact) {
    && tr != [] && Indices(tr, |h|)
    && c.started == Some(h[tr[0]].at) && c.lastMove == Some(h[tr[|tr| - 1]].at)
    && c.seen == Gathered(cfg, step, h, tr, |tr|)
    && (c.origin.Some? ==> OnAxisAt(cfg, step, h, tr[0]) && c.origin.value == Center(|cfg.axis|, FootAt(cfg, step, h, tr[0])))
    && (!c.invalid ==> Brisk(h, tr))
    && EachGains(cfg, step, h, tr)
    && -1 <= c.direction <= 1
    && (!c.moving ==> c.peak == 0.0 && c.direction == 0)
    && (0.0 < c.peak ==> Reaches(cfg, step, h, tr, c.direction, c.peak))
  }

  /** What a reported swipe was made of. */
  ghost predicate Justified(cfg: Pads, step: ButtonStep, h: seq<Sweep>, tr: seq<nat>, direction: int) {
    && tr != [] && Indices(tr, |h|)
    && (direction == 1 || direction == -1)
    && Reaches(cfg, step, h, tr, direction, Span(cfg) as real)
    && h[tr[|tr| - 1]].at - h[tr[0]].at >= SWIPE_MIN_TRAVEL
    && Brisk(h, tr)
    && EachGains(cfg, step, h, tr)
  }

  // ----- trails over a longer run -----

  lemma FootStays(cfg: Pads, step: ButtonStep, h: seq<Sweep>, x: Sweep, a: nat)
    requires a < |h|
    ensures FootAt(cfg, step, h + [x], a) == FootAt(cfg, step, h, a)
  {
    assert (h + [x])[..a + 1] == h[..a + 1];
  }

  lemma {:induction false} GatheredStays(cfg: Pads, step: ButtonStep, h: seq<Sweep>, x: Sweep, tr: seq<nat>, n: nat)
    requires Indices(tr, |h|) && n <= |tr|
    ensures Gathered(cfg, step, h + [x], tr, n) == Gathered(cfg, step, h, tr, n)
  {
    hide FootAt;
    if n > 0 {
      GatheredStays(cfg, step, h, x, tr, n - 1);
      FootStays(cfg, step, h, x, tr[n - 1]);
    }
  }

  lemma ReachesStays(cfg: Pads, step: ButtonStep, h: seq<Sweep>, x: Sweep, tr: seq<nat>, direction: int, far: real)
    requires Indices(tr, |h|) && Reaches(cfg, step, h, tr, direction, far)
    ensures Reaches(cfg, step, h + [x], tr, direction, far)
  {
    hide FootAt, Center;
    var i :| 0 <= i < |tr| && ReachesAt(cfg, step, h, tr, direction, far, i);
    FootStays(cfg, step, h, x, tr[0]);
    FootStays(cfg, step, h, x, tr[i]);
    assert ReachesAt(cfg, step, h + [x], tr, direction, far, i);
  }

  lemma EachGainsStays(cfg: Pads, step: ButtonStep, h: seq<Sweep>, x: Sweep, tr: seq<nat>)
    requires Indices(tr, |h|) && EachGains(cfg, step, h, tr)
    ensures EachGains(cfg, step, h + [x], tr)
  {
    forall i | 0 < i < |tr| ensures FootAt(cfg, step, h + [x], tr[i]) - Gathered(cfg, step, h + [x], tr, i) != {} {
      FootStays(cfg, step, h, x, tr[i]);
      GatheredStays(cfg, step, h, x, tr, i);
    }
  }

  lemma RecordedStays(cfg: Pads, step: ButtonStep, h: seq<Sweep>, x: Sweep, tr: seq<nat>, c: Contact)
    requires Recorded(cfg, step, h, tr, c)
    ensures Recorded(cfg, step, h + [x], tr, c)
  {
    hide FootAt, Gathered, Reaches, EachGains, Along, Center;
    FootStays(cfg, step, h, x, tr[0]);
    GatheredStays(cfg, step, h, x, tr, |tr|);
    EachGainsStays(cfg, step, h, x, tr);
    if 0.0 < c.peak {
      ReachesStays(cfg, step, h, x, tr, c.direction, c.peak);
    }
  }

  // ----- the trail after one more sample -----

  lemma FootNow(cfg: Pads, step: ButtonStep, h: seq<Sweep>, x: Sweep)
    ensures FootAt(cfg, step, h + [x], |h|) == Positions(cfg.axis, SpatialRun(cfg, step, h + [x]).0.stable)
  {
    assert (h + [x])[..|h| + 1] == h + [x];
  }

  lemma BeganRecorded(cfg: Pads, step: ButtonStep, h: seq<Sweep>, x: Sweep)
    requires SpatialRun(cfg, step, h + [x]).0.contact == FirstContact(cfg, SpatialRun(cfg, step, h + [x]).0.stable, x.at)
    ensures Recorded(cfg, step, h + [x], [|h|], SpatialRun(cfg, step, h + [x]).0.contact)
  {
    hide FootAt, Center, Positions, SpatialRun, Along;
    FootNow(cfg, step, h, x);
    GatheredOne(cfg, step, h + [x], |h|);
  }

  lemma GatheredOne(cfg: Pads, step: ButtonStep, h: seq<Sweep>, a: nat)
    requires a < |h|
    ensures Gathered(cfg, step, h, [a], 1) == FootAt(cfg, step, h, a)
  {
  }

  /** A trail grown by the newest sample. */
  lemma {:induction false} GatheredGrows(cfg: Pads, step: ButtonStep, h: seq<Sweep>, tr: seq<nat>, a: nat, n: nat)
    requires Extends(tr, a, |h|) && n <= |tr|
    ensures Gathered(cfg, step, h, tr + [a], n) == Gathered(cfg, step, h, tr, n)
  {
    hide FootAt;
    if n > 0 {
      GatheredGrows(cfg, step, h, tr, a, n - 1);
    }
  }

  lemma ReachesGrows(cfg: Pads, step: ButtonStep, h: seq<Sweep>, tr: seq<nat>, a: nat, direction: int, far: real)
    requires Extends(tr, a, |h|) && Reaches(cfg, step, h, tr, direction, far)
    ensures Reaches(cfg, step, h, tr + [a], direction, far)
  {
    hide FootAt, Center;
    var i :| 0 <= i < |tr| && ReachesAt(cfg, step, h, tr, direction, far, i);
    assert ReachesAt(cfg, step, h, tr + [a], direction, far, i);
  }

  lemma EachGainsGrows(cfg: Pads, step: ButtonStep, h: seq<Sweep>, tr: seq<nat>, a: nat)
    requires Extends(tr, a, |h|) && EachGains(cfg, step, h, tr)
    requires FootAt(cfg, step, h, a) - Gathered(cfg, step, h, tr, |tr|) != {}
    ensures EachGains(cfg, step, h, tr + [a])
  {
    hide FootAt, Gathered;
    forall i | 0 < i < |tr + [a]| ensures FootAt(cfg, step, h, (tr + [a])[i]) - Gathered(cfg, step, h, tr + [a], i) != {} {
      GatheredGrows(cfg, step, h, tr, a, i);
    }
  }

  lemma StayedRecorded(cfg: Pads, step: ButtonStep, h: seq<Sweep>, tr: seq<nat>, c: Contact, ps: set<nat>, now: int)
    requires Recorded(cfg, step, h, tr, c) && ps != {} && ps - c.seen == {}
    requires c.origin.Some? && c.lastCenter.Some?
    ensures Recorded(cfg, step, h, tr, Moved(c, ps, Center(|cfg.axis|, ps), now))
    ensures Moved(c, ps, Center(|cfg.axis|, ps), now).seen == c.seen
  {
    hide FootAt, Gathered, Reaches, EachGains, Center, Brisk;
  }

  lemma GainedRecorded(cfg: Pads, step: ButtonStep, h: seq<Sweep>, tr: seq<nat>, c: Contact, a: nat)
    requires Recorded(cfg, step, h, tr, c) && Extends(tr, a, |h|)
    requires FootAt(cfg, step, h, a) - c.seen != {}
    requires c.origin.Some? && c.lastCenter.Some?
    ensures var ps := FootAt(cfg, step, h, a); var d := Moved(c, ps, Center(|cfg.axis|, ps), h[a].at);
            Recorded(cfg, step, h, tr + [a], d) && d.seen != c.seen
  {
    hide FootAt, Gathered, EachGains, Center, Reaches, Along;
    var ps := FootAt(cfg, step, h, a);
    var center := Center(|cfg.axis|, ps);
    var d := Moved(c, ps, center, h[a].at);
    EachGainsGrows(cfg, step, h, tr, a);
    GatheredGrows(cfg, step, h, tr, a, |tr|);
    GatheredLast(cfg, step, h, tr, a);
    GainedPeak(c, ps, center, h[a].at);
    if 0.0 < d.peak {
      if d.peak == c.peak && c.moving {
        ReachesGrows(cfg, step, h, tr, a, c.direction, c.peak);
      } else {
        ReachedLast(cfg, step, h, tr, a, d.direction, d.peak, center - c.origin.value);
      }
    }
  }

  lemma GatheredLast(cfg: Pads, step: ButtonStep, h: seq<Sweep>, tr: seq<nat>, a: nat)
    requires Extends(tr, a, |h|)
    ensures Gathered(cfg, step, h, tr + [a], |tr| + 1)
         == Gathered(cfg, step, h, tr + [a], |tr|) + FootAt(cfg, step, h, a)
  {
  }

  lemma ReachedLast(cfg: Pads, step: ButtonStep, h: seq<Sweep>, tr: seq<nat>, a: nat, direction: int, far: real, reach: real)
    requires Extends(tr, a, |h|) && tr != []
    requires FootAt(cfg, step, h, tr[0]) != {} && FootAt(cfg, step, h, a) != {}
    requires reach == Reach(cfg, step, h, tr[0], a) && Along(reach, direction) >= far
    ensures Reaches(cfg, step, h, tr + [a], direction, far)
  {
    hide FootAt, Center, Along;
    assert ReachesAt(cfg, step, h, tr + [a], direction, far, |tr|);
  }

  /** The peak after an arrival: unchanged, or the progress just made. */
  lemma GainedPeak(c: Contact, ps: set<nat>, center: real, now: int)
    requires c.origin.Some? && c.lastCenter.Some? && c.lastMove.Some? && ps - c.seen != {}
    requires !c.moving ==> c.peak == 0.0 && c.direction == 0
    ensures var d := Moved(c, ps, center, now);
            && (d.moving && 0.0 < d.peak ==>
                  (d.peak == c.peak && c.moving && d.direction == c.direction)
                  || d.peak == Along(center - c.origin.value, d.direction))
            && (!d.moving ==> d.peak == 0.0 && d.direction == 0)
            && (d.direction == c.direction || d.direction == 1 || d.direction == -1)
            && (!d.invalid ==> !c.invalid && now - c.lastMove.value <= SWIPE_MAX_GAP)
            && d.seen == c.seen + ps && d.lastMove == Some(now)
  {
  }

  lemma GoneRecorded(cfg: Pads, step: ButtonStep, h: seq<Sweep>, x: Sweep, tr: seq<nat>, c: Contact, d: Contact)
    requires Recorded(cfg, step, h, tr, c)
    requires MovedTo(cfg, c, d, SpatialRun(cfg, step, h + [x]).0.stable, x.at)
    ensures Recorded(cfg, step, h + [x], if d.seen != c.seen then tr + [|h|] else tr, d)
  {
    hide SpatialRun, Recorded, Positions, Center, Moved, FootAt;
    RecordedStays(cfg, step, h, x, tr, c);
    RecordedIndices(cfg, step, h, tr, c);
    FootNow(cfg, step, h, x);
    var ps := FootAt(cfg, step, h + [x], |h|);
    if ps - c.seen == {} {
      StayedRecorded(cfg, step, h + [x], tr, c, ps, x.at);
    } else {
      GainedRecorded(cfg, step, h + [x], tr, c, |h|);
    }
  }

  lemma RecordedIndices(cfg: Pads, step: ButtonStep, h: seq<Sweep>, tr: seq<nat>, c: Contact)
    requires Recorded(cfg, step, h, tr, c)
    ensures Indices(tr, |h|) && Extends(tr, |h|, |h| + 1)
  {
  }

  lemma SpoiltRecorded(cfg: Pads, step: ButtonStep, h: seq<Sweep>, tr: seq<nat>, c: Contact)
    requires Recorded(cfg, step, h, tr, c)
    ensures Recorded(cfg, step, h, tr, c.(moving := true, invalid := true))
  {
  }

  /** In every run the contact of the current cycle is what its trail says. */
  lemma {:induction false} RunRecorded(cfg: Pads, step: ButtonStep, h: seq<Sweep>)
    requires NoSwipes(step)
    ensures var s := SpatialRun(cfg, step, h).0;
            Tidy(s) && (s.cycle ==> Recorded(cfg, step, h, Trail(cfg, step, h), s.contact))
  {
    if h != [] {
      var front, x := h[..|h| - 1], h[|h| - 1];
      assert h == front + [x];
      RunRecorded(cfg, step, front);
      StepRecorded(cfg, step, front, x);
    }
  }

  lemma TrailStep(cfg: Pads, step: ButtonStep, h: seq<Sweep>, x: Sweep)
    ensures var s, t := SpatialRun(cfg, step, h).0, SpatialRun(cfg, step, h + [x]).0;
            Trail(cfg, step, h + [x]) ==
              if !t.cycle then [] else if t.id != s.id then [|h|]
              else if t.contact.seen != s.contact.seen then Trail(cfg, step, h) + [|h|] else Trail(cfg, step, h)
    ensures SpatialRun(cfg, step, h + [x]).0 == SpatialStep(cfg, step, SpatialRun(cfg, step, h).0, x.mask, x.at).0
  {
    assert (h + [x])[..|h|] == h;
  }

  lemma StepRecorded(cfg: Pads, step: ButtonStep, h: seq<Sweep>, x: Sweep)
    requires NoSwipes(step)
    requires var s := SpatialRun(cfg, step, h).0;
             Tidy(s) && (s.cycle ==> Recorded(cfg, step, h, Trail(cfg, step, h), s.contact))
    ensures var t := SpatialRun(cfg, step, h + [x]).0;
            Tidy(t) && (t.cycle ==> Recorded(cfg, step, h + [x], Trail(cfg, step, h + [x]), t.contact))
  {
    var s, t, tr := SpatialRun(cfg, step, h).0, SpatialRun(cfg, step, h + [x]).0, Trail(cfg, step, h);
    TrailStep(cfg, step, h, x);
    StepGoes(cfg, step, s, x.mask, x.at);
    hide SpatialRun, SpatialStep, Recorded, MovedTo, FirstContact, Trail;
    if t.cycle {
      if t.id != s.id {
        BeganRecorded(cfg, step, h, x);
      } else if MovedTo(cfg, s.contact, t.contact, t.stable, x.at) {
        GoneRecorded(cfg, step, h, x, tr, s.contact, t.contact);
      } else {
        RecordedStays(cfg, step, h, x, tr, s.contact);
        SpoiltRecorded(cfg, step, h + [x], tr, s.contact);
      }
    }
  }

  // ----- every swipe -----

  lemma FarEnough(cfg: Pads, step: ButtonStep, h: seq<Sweep>, tr: seq<nat>, c: Contact)
    requires Recorded(cfg, step, h, tr, c) && !c.invalid && c.peak >= Span(cfg) as real
    requires c.lastMove.Some? && c.started.Some? && c.lastMove.value - c.started.value >= SWIPE_MIN_TRAVEL
    ensures Justified(cfg, step, h, tr, c.direction)
  {
    hide FootAt, EachGains, Gathered, Center;
    var i :| 0 <= i < |tr| && ReachesAt(cfg, step, h, tr, c.direction, c.peak, i);
    assert ReachesAt(cfg, step, h, tr, c.direction, Span(cfg) as real, i);
  }

  /** Every swipe a sample reports is justified by the samples before it. */
  lemma SwipeJustified(cfg: Pads, step: ButtonStep, h: seq<Sweep>, x: Sweep, e: Event)
    requires NoSwipes(step) && e.kind == Swipe
    requires e in SpatialStep(cfg, step, SpatialRun(cfg, step, h).0, x.mask, x.at).1
    ensures Justified(cfg, step, h, Trail(cfg, step, h), e.direction)
    ensures e == Event(Swipe, SpatialRun(cfg, step, h).0.id, 0, 0, e.direction)
  {
    var s := SpatialRun(cfg, step, h).0;
    RunRecorded(cfg, step, h);
    StepGoes(cfg, step, s, x.mask, x.at);
    hide SpatialRun, SpatialStep, Recorded, Justified, Trail;
    FarEnough(cfg, step, h, Trail(cfg, step, h), s.contact);
  }

  /** Every swipe in the log of a run was reported at some sample, and justified
      by the samples before that one. */
  lemma {:induction false} EverySwipeJustified(cfg: Pads, step: ButtonStep, h: seq<Sweep>, e: Event) returns (n: nat)
    requires NoSwipes(step) && e.kind == Swipe && e in SpatialRun(cfg, step, h).1
    ensures n < |h| && Justified(cfg, step, h[..n], Trail(cfg, step, h[..n]), e.direction)
    ensures e in SpatialStep(cfg, step, SpatialRun(cfg, step, h[..n]).0, h[n].mask, h[n].at).1
  {
    hide SpatialStep, Justified, Trail;
    var front, x := h[..|h| - 1], h[|h| - 1];
    if e in SpatialRun(cfg, step, front).1 {
      n := EverySwipeJustified(cfg, step, front, e);
      assert front[..n] == h[..n];
    } else {
      n := |front|;
      SwipeJustified(cfg, step, front, x, e);
    }
  }
}
