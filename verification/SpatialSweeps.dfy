/** When a swipe is reported: exactly when the contact that is being resolved was
    a clean sweep, told from the footprints of its samples. */
module SpatialSweeps {
  import opened Common
  import opened ButtonEvents = TouchButton
  import opened SpatialTouch
  import opened SpatialMirror
  import opened SpatialSwipes
  import opened SpatialTravel

  // ----- what one sample makes of the contact -----

  /** The contact after a sample of the same cycle. */
  function NextContact(cfg: Pads, c: Contact, stable: set<nat>, now: int): Contact
    requires c.lastMove.Some? && (c.origin.Some? <==> c.lastCenter.Some?)
  {
    var ps := Positions(cfg.axis, stable);
    if (ps != {} && c.origin.None?) || (c.origin.Some? && Off(cfg.axis, stable) - c.outside != {})
    then c.(moving := true, invalid := true)
    else if ps != {} && c.origin.Some? then Moved(c, ps, Center(|cfg.axis|, ps), now)
    else c
  }

  lemma FollowNext(cfg: Pads, s: Spatial, now: int)
    requires s.contact.lastMove.Some? && (s.contact.origin.Some? <==> s.contact.lastCenter.Some?)
    ensures Follow(cfg, s, now).0.contact == NextContact(cfg, s.contact, s.stable, now)
  {
    hide Moved, Departing, Center, Positions, Off;
  }

  /** A footprint off every pad leaves the contact as it is. */
  lemma NothingNext(cfg: Pads, c: Contact, now: int)
    requires c.lastMove.Some? && (c.origin.Some? <==> c.lastCenter.Some?)
    ensures NextContact(cfg, c, {}, now) == c
  {
    assert Off(cfg.axis, {}) == {} && Positions(cfg.axis, {}) == {};
  }

  lemma PressNext(cfg: Pads, step: ButtonStep, s: Spatial, active: set<nat>, now: int)
    requires active == {} ==> LastOff(cfg.electrodes, s.raw).Some?
    ensures var t := PressButton(cfg, step, s, active, now).0;
            && t.id == s.id && t.stable == s.stable && (t.cycle ==> s.cycle && t.contact == s.contact)
            && (s.contact.moving ==> t == s)
  {
    hide LastOff, EdgeTime;
  }

  lemma TrackNext(cfg: Pads, step: ButtonStep, s: Spatial, active: set<nat>, now: int)
    requires Trackable(cfg, s, active)
    ensures var t := Track(cfg, step, s, active, now).0;
            && t.stable == s.stable
            && (s.cycle && t.cycle ==> t.id == s.id && t.contact == NextContact(cfg, s.contact, t.stable, now))
            && (!s.cycle && t.cycle ==> t.id == s.id + 1 && t.contact == BeginCycle(cfg, s, now).contact)
            && (s.cycle && s.contact.moving ==> t.cycle && t.id == s.id)
  {
    hide Follow, PressButton, NextContact, LastOff, EdgeTime, BeginCycle;
    if s.stable != {} && s.cycle {
      FollowKeeps(cfg, s, now);
      FollowNext(cfg, s, now);
      FollowMoving(cfg, s, now);
      PressNext(cfg, step, Follow(cfg, s, now).0, active, now);
    } else if s.cycle {
      NothingNext(cfg, s.contact, now);
    } else {
      BeginFields(cfg, s, now);
      if s.stable != {} && active != {} {
        PressNext(cfg, step, BeginCycle(cfg, s, now), active, now);
      }
    }
  }

  lemma BeginFields(cfg: Pads, s: Spatial, now: int)
    ensures var t := BeginCycle(cfg, s, now);
            t.cycle && t.id == s.id + 1 && t.stable == s.stable && t.raw == s.raw && !(s.cycle && s.contact.moving && !t.cycle)
  {
  }

  lemma FollowMoving(cfg: Pads, s: Spatial, now: int)
    requires s.contact.lastMove.Some? && (s.contact.origin.Some? <==> s.contact.lastCenter.Some?)
    ensures s.contact.moving ==> Follow(cfg, s, now).0.contact.moving
  {
    hide Positions, Center, Mixed, Along;
  }

  /** A contact that moves is resolved by the grace running out, and by nothing else. */
  lemma ResolveNext(cfg: Pads, step: ButtonStep, s: Spatial, active: set<nat>, now: int)
    requires s.cycle && s.contact.started.Some? && s.contact.lastMove.Some?
    ensures var (t, es) := ResolveOld(cfg, step, s, active, now);
            && t.stable == s.stable && t.id == s.id && (t.cycle ==> t.contact == s.contact)
            && (s.contact.moving ==>
                  && (!t.cycle <==> s.releaseAt.Some? && now - s.releaseAt.value >= 120)
                  && es == if !t.cycle && SwipeValid(cfg, s) then [Event(Swipe, s.id, 0, 0, s.contact.direction)] else [])
  {
    hide Positions, SwipeValid;
  }

  /** The contact of the cycle that goes on over sample `x`, or begins at it. */
  lemma StepNext(cfg: Pads, step: ButtonStep, s: Spatial, x: Sweep)
    requires Valid(cfg, s) && Tidy(s)
    ensures var t := SpatialStep(cfg, step, s, x.mask, x.at).0;
            t.cycle ==>
              if t.id == s.id then s.cycle && t.contact == NextContact(cfg, s.contact, t.stable, x.at)
              else t.contact == FirstContact(cfg, t.stable, x.at)
  {
    if s.seeded && s.armed {
      hide ResolveOld, Track, Trackable, Elems, Footprint, NextContact, BeginCycle;
      var active := Active(cfg, x.mask);
      var c := RawEdge(s, active, x.at).0;
      var f := Footprint(cfg, c, active, x.at);
      var m := Prepared(cfg, step, s, active, x.at).0;
      PreparedTrackable(cfg, step, s, active, x.at);
      FootprintFields(cfg, c, active, x.at);
      ResolveOldFacts(cfg, step, f, active, x.at);
      if f.cycle {
        ResolveNext(cfg, step, f, active, x.at);
      } else {
        NothingResolved(cfg, step, f, active, x.at);
      }
      TidyResolve(cfg, step, f, active, x.at);
      TrackNext(cfg, step, m, active, x.at);
      FirstIsBegin(cfg, m, x.at);
    } else {
      hide Footprint;
      if s.seeded {
        FootprintFields(cfg, RawEdge(s, Active(cfg, x.mask), x.at).0, Active(cfg, x.mask), x.at);
      }
    }
  }

  lemma NothingResolved(cfg: Pads, step: ButtonStep, s: Spatial, active: set<nat>, now: int)
    requires !s.cycle
    ensures ResolveOld(cfg, step, s, active, now) == (s, [])
  {
  }

  lemma TidyResolve(cfg: Pads, step: ButtonStep, s: Spatial, active: set<nat>, now: int)
    requires s.cycle ==> s.contact.started.Some? && s.contact.lastMove.Some?
    requires Tidy(s)
    ensures Tidy(ResolveOld(cfg, step, s, active, now).0)
  {
    hide Positions, SwipeValid;
  }

  lemma FirstIsBegin(cfg: Pads, s: Spatial, now: int)
    requires !s.cycle ==> s.contact == NO_CONTACT
    ensures !s.cycle ==> BeginCycle(cfg, s, now).contact == FirstContact(cfg, s.stable, now)
  {
  }

  /** How a contact that moves ends: by the grace, with a swipe if it is valid. */
  lemma MovingEnds(cfg: Pads, step: ButtonStep, s: Spatial, x: Sweep)
    requires Valid(cfg, s) && s.cycle && s.contact.moving && NoSwipes(step)
    ensures var (t, es) := SpatialStep(cfg, step, s, x.mask, x.at);
            var ends := s.releaseAt.Some? && x.at - s.releaseAt.value >= 120;
            && (!t.cycle || t.id != s.id <==> ends)
            && forall e: Event | e.kind == Swipe ::
                 e in es <==> ends && SwipeValid(cfg, s) && e == Event(Swipe, s.id, 0, 0, s.contact.direction)
  {
    hide ResolveOld, Track, Trackable, Elems, Footprint, SwipeValid, NoSwipes;
    var active := Active(cfg, x.mask);
    var (c, e0) := RawEdge(s, active, x.at);
    var f := Footprint(cfg, c, active, x.at);
    var (m, e1) := Prepared(cfg, step, s, active, x.at);
    PreparedTrackable(cfg, step, s, active, x.at);
    FootprintFields(cfg, c, active, x.at);
    ResolveNext(cfg, step, f, active, x.at);
    SameValid(cfg, f, s);
    TrackNext(cfg, step, m, active, x.at);
    TrackSilent(cfg, step, m, active, x.at);
  }

  lemma SameValid(cfg: Pads, s: Spatial, t: Spatial)
    requires s.contact == t.contact && s.contact.started.Some? && s.contact.lastMove.Some?
    ensures SwipeValid(cfg, s) == SwipeValid(cfg, t)
  {
  }

  lemma TrackSilent(cfg: Pads, step: ButtonStep, s: Spatial, active: set<nat>, now: int)
    requires Trackable(cfg, s, active) && NoSwipes(step)
    ensures Swipeless(Track(cfg, step, s, active, now).1)
  {
    hide Follow, PressButton, LastOff, EdgeTime, NoSwipes;
    if s.stable != {} && s.cycle {
      FollowKeeps(cfg, s, now);
      FollowGoes(cfg, s, now);
      PressGoes(cfg, step, Follow(cfg, s, now).0, active, now);
    } else if s.stable != {} && active != {} && now - s.contactSince >= cfg.debounce {
      PressGoes(cfg, step, BeginCycle(cfg, s, now), active, now);
    } else {
      Quiet(step, s.button, false, now);
    }
  }

  // ----- a clean sweep -----

  /** The pads off the axis after sample `a` of a run. */
  function OffAt(cfg: Pads, step: ButtonStep, h: seq<Sweep>, a: nat): set<nat>
    requires a < |h|
  {
    Off(cfg.axis, SpatialRun(cfg, step, h[..a + 1]).0.stable)
  }

  /** The latest footprint on the axis. */
  function LatestFoot(cfg: Pads, step: ButtonStep, h: seq<Sweep>): set<nat> {
    if h == [] then {}
    else if OnAxisAt(cfg, step, h, |h| - 1) then FootAt(cfg, step, h, |h| - 1)
    else LatestFoot(cfg, step, h[..|h| - 1])
  }

  /** Some centre of a trail lies a position away from the first. */
  predicate Away(rs: seq<real>) {
    exists i :: 0 <= i < |rs| && !Small(rs[i])
  }

  /** A footprint that carries a sweep on. A new pad comes within 150 ms of the one
      before, from at most three positions away unless it carries on a travel
      already begun, and leaves the contact near its origin or on the right side of
      it; once the contact has been a position away, no arriving pad brings it back
      by more than one. `r` is the centre's distance from the first, `j` from the
      latest. */
  predicate Carries(foot: set<nat>, seen: set<nat>, latest: set<nat>, gap: int, r: real, j: real, rs: seq<real>,
                    direction: int)
  {
    && (foot - seen != {} ==>
          && gap <= 150
          && (Abs(j) <= 3.0 || (Away(rs) && Along(j, direction) > 0.0))
          && (Small(r) || Along(r, direction) >= 1.0))
    && (foot - latest != {} && Away(rs) ==>
          forall i :: 0 <= i < |rs| ==> Along(r, direction) >= Along(rs[i], direction) - 1.0)
  }

  /** Sample `x` continues a sweep: no pad off the axis joins, and a footprint on
      the axis carries it on. */
  ghost predicate Continues(cfg: Pads, step: ButtonStep, h: seq<Sweep>, x: Sweep, direction: int) {
    var tr := Trail(cfg, step, h);
    && tr != [] && Indices(tr, |h|)
    && OffAt(cfg, step, h + [x], |h|) <= OffAt(cfg, step, h, tr[0])
    && (OnAxisAt(cfg, step, h + [x], |h|) ==>
          var foot := FootAt(cfg, step, h + [x], |h|);
          Carries(foot, Gathered(cfg, step, h, tr, |tr|), LatestFoot(cfg, step, h), x.at - h[tr[|tr| - 1]].at,
                  Center(|cfg.axis|, foot) - Here(cfg, step, h, tr[0]), Center(|cfg.axis|, foot) - Latest(cfg, step, h),
                  Distances(cfg, step, h, tr), direction))
  }

  /** The open cycle began on the axis, and every sample since continues a sweep. */
  ghost predicate Clean(cfg: Pads, step: ButtonStep, h: seq<Sweep>, direction: int) {
    && h != []
    && SpatialRun(cfg, step, h).0.cycle
    && var front := h[..|h| - 1];
       if SpatialRun(cfg, step, h).0.id != SpatialRun(cfg, step, front).0.id then OnAxisAt(cfg, step, h, |front|)
       else Clean(cfg, step, front, direction) && Continues(cfg, step, front, h[|front|], direction)
  }

  /** A valid contact moves once it was a position away, and its peak is the
      farthest it came. */
  ghost predicate Measured(c: Contact, rs: seq<real>) {
    && rs != [] && (c.moving <==> Away(rs))
    && (if c.moving then
          && (c.direction == 1 || c.direction == -1) && 1.0 <= c.peak
          && (exists i :: 0 <= i < |rs| && Along(rs[i], c.direction) == c.peak)
          && (forall i :: 0 <= i < |rs| ==> Along(rs[i], c.direction) <= c.peak)
        else c.peak == 0.0)
  }

  /** What a valid contact remembers of its run. */
  ghost predicate Mirrors(cfg: Pads, step: ButtonStep, h: seq<Sweep>, tr: seq<nat>, c: Contact) {
    && Recorded(cfg, step, h, tr, c) && Told(cfg, step, h, tr, c)
    && c.lastMove.Some? && (c.origin.Some? <==> c.lastCenter.Some?)
    && (c.origin.None? <==> !OnAxisAt(cfg, step, h, tr[0]))
    && c.outside == OffAt(cfg, step, h, tr[0])
    && (c.origin.Some? && !c.invalid ==>
          c.previous == LatestFoot(cfg, step, h) && Measured(c, Distances(cfg, step, h, tr)))
  }

  /** Nothing has gone wrong, and the contact moves in this direction or not yet. */
  predicate Sweeping(c: Contact, direction: int) {
    !c.invalid && c.origin.Some? && (c.moving ==> c.direction == direction)
  }

  /** What keeps a contact sweeping, in terms of what it remembers. */
  predicate Keeps(c: Contact, ps: set<nat>, center: real, now: int, direction: int)
    requires c.origin.Some? && c.lastCenter.Some? && c.lastMove.Some?
  {
    var r, j := center - c.origin.value, center - c.lastCenter.value;
    && (ps - c.seen != {} ==>
          && now - c.lastMove.value <= 150
          && (Abs(j) <= 3.0 || (c.moving && Along(j, direction) > 0.0))
          && (Small(r) || Along(r, direction) >= 1.0))
    && (ps - c.previous != {} && c.moving ==> Along(r, direction) >= c.peak - 1.0)
  }

  lemma MovedSweeps(c: Contact, ps: set<nat>, center: real, now: int, direction: int)
    requires c.origin.Some? && c.lastCenter.Some? && c.lastMove.Some? && c.previous <= c.seen
    requires direction == 1 || direction == -1
    requires if c.moving then 1.0 <= c.peak && (c.direction == 1 || c.direction == -1) else c.peak == 0.0 && c.direction == 0
    ensures !c.invalid ==>
              (Sweeping(Moved(c, ps, center, now), direction)
               <==> Sweeping(c, direction) && Keeps(c, ps, center, now, direction))
    ensures c.invalid ==> Moved(c, ps, center, now).invalid
  {
    assert ps - c.seen != {} ==> ps - c.previous != {};
  }

  lemma MovedMeasured(c: Contact, ps: set<nat>, center: real, now: int, rs: seq<real>)
    requires c.origin.Some? && c.lastCenter.Some? && c.lastMove.Some? && c.previous <= c.seen
    requires Measured(c, rs) && (!c.moving ==> c.direction == 0) && !Moved(c, ps, center, now).invalid
    ensures var r := center - c.origin.value;
            Measured(Moved(c, ps, center, now), if ps - c.seen != {} then rs + [r] else rs)
  {
    var d, r := Moved(c, ps, center, now), center - c.origin.value;
    if ps - c.seen != {} {
      AwayGrows(rs, r);
      MovedPeak(c, ps, center, now);
      hide Moved, Away, Along;
      var rs' := rs + [r];
      assert rs'[|rs|] == r && forall i :: 0 <= i < |rs| ==> rs'[i] == rs[i];
      if c.moving {
        var i :| 0 <= i < |rs| && Along(rs[i], c.direction) == c.peak;
        assert rs'[i] == rs[i];
      } else if d.moving {
        SmallBelow(rs, d.direction, d.peak);
      }
    } else {
      MovedStill(c, ps, center, now);
    }
  }

  lemma AwayGrows(rs: seq<real>, r: real)
    ensures Away(rs + [r]) <==> Away(rs) || !Small(r)
  {
    if Away(rs) {
      var i :| 0 <= i < |rs| && !Small(rs[i]);
      assert !Small((rs + [r])[i]);
    }
    assert (rs + [r])[|rs|] == r;
  }

  lemma SmallBelow(rs: seq<real>, direction: int, far: real)
    requires !Away(rs) && 1.0 <= far && (direction == 1 || direction == -1)
    ensures forall i :: 0 <= i < |rs| ==> Along(rs[i], direction) <= far
  {
    forall i | 0 <= i < |rs| ensures Along(rs[i], direction) <= far {
      assert Small(rs[i]);
    }
  }

  lemma MovedPeak(c: Contact, ps: set<nat>, center: real, now: int)
    requires c.origin.Some? && c.lastCenter.Some? && c.lastMove.Some? && ps - c.seen != {}
    requires if c.moving then c.direction == 1 || c.direction == -1 else c.peak == 0.0 && c.direction == 0
    ensures var d, r := Moved(c, ps, center, now), center - c.origin.value;
            if c.moving then
              d.moving && d.direction == c.direction
              && d.peak == if Along(r, c.direction) > c.peak then Along(r, c.direction) else c.peak
            else if Small(r) then !d.moving && d.peak == 0.0
            else d.moving && d.direction == (if r > 0.0 then 1 else -1) && d.peak == Along(r, d.direction) >= 1.0
  {
  }

  lemma MovedStill(c: Contact, ps: set<nat>, center: real, now: int)
    requires c.origin.Some? && c.lastCenter.Some? && c.lastMove.Some? && ps - c.seen == {}
    ensures var d := Moved(c, ps, center, now); d.moving == c.moving && d.direction == c.direction && d.peak == c.peak
  {
  }

  // ----- over whole runs -----

  lemma LatestFootStep(cfg: Pads, step: ButtonStep, h: seq<Sweep>, x: Sweep)
    ensures var foot := FootAt(cfg, step, h + [x], |h|);
            LatestFoot(cfg, step, h + [x]) == if foot != {} then foot else LatestFoot(cfg, step, h)
  {
    hide FootAt;
    assert (h + [x])[..|h|] == h;
  }

  lemma OffStays(cfg: Pads, step: ButtonStep, h: seq<Sweep>, x: Sweep, a: nat)
    requires a < |h|
    ensures OffAt(cfg, step, h + [x], a) == OffAt(cfg, step, h, a)
  {
    assert (h + [x])[..a + 1] == h[..a + 1];
  }

  lemma OffNow(cfg: Pads, step: ButtonStep, h: seq<Sweep>, x: Sweep)
    ensures OffAt(cfg, step, h + [x], |h|) == Off(cfg.axis, SpatialRun(cfg, step, h + [x]).0.stable)
  {
    assert (h + [x])[..|h| + 1] == h + [x];
  }

  lemma CleanStep(cfg: Pads, step: ButtonStep, h: seq<Sweep>, x: Sweep, direction: int)
    ensures var s, t := SpatialRun(cfg, step, h).0, SpatialRun(cfg, step, h + [x]).0;
            Clean(cfg, step, h + [x], direction) <==>
              t.cycle && if t.id != s.id then OnAxisAt(cfg, step, h + [x], |h|)
                         else Clean(cfg, step, h, direction) && Continues(cfg, step, h, x, direction)
  {
    hide Continues, SpatialRun, FootAt;
    assert (h + [x])[..|h|] == h;
  }

  lemma BeganMirrors(cfg: Pads, step: ButtonStep, h: seq<Sweep>, x: Sweep)
    requires SpatialRun(cfg, step, h + [x]).0.contact == FirstContact(cfg, SpatialRun(cfg, step, h + [x]).0.stable, x.at)
    ensures var c := SpatialRun(cfg, step, h + [x]).0.contact;
            Mirrors(cfg, step, h + [x], [|h|], c)
            && forall direction: int :: Sweeping(c, direction) <==> OnAxisAt(cfg, step, h + [x], |h|)
  {
    BeganRecorded(cfg, step, h, x);
    BeganTold(cfg, step, h, x);
    hide Recorded, Told, FootAt, Center, Positions, SpatialRun, OffAt, LatestFoot;
    FootNow(cfg, step, h, x);
    OffNow(cfg, step, h, x);
    LatestFootStep(cfg, step, h, x);
    var rs := Distances(cfg, step, h + [x], [|h|]);
    assert rs == [0.0] && !Away(rs);
  }

  lemma KeepsCarries(c: Contact, foot: set<nat>, center: real, now: int, rs: seq<real>, direction: int)
    requires c.origin.Some? && c.lastCenter.Some? && c.lastMove.Some?
    requires Measured(c, rs) && (c.moving ==> c.direction == direction)
    ensures Keeps(c, foot, center, now, direction) <==>
              Carries(foot, c.seen, c.previous, now - c.lastMove.value, center - c.origin.value,
                      center - c.lastCenter.value, rs, direction)
  {
    hide Along, Away;
    if c.moving {
      PeakDecides(c, rs, center - c.origin.value);
    }
  }

  /** A valid contact keeps sweeping exactly if the sample continues the sweep. */
  lemma KeepsContinues(cfg: Pads, step: ButtonStep, h: seq<Sweep>, x: Sweep, tr: seq<nat>, c: Contact, direction: int,
                       foot: set<nat>, center: real)
    requires tr == Trail(cfg, step, h) && Mirrors(cfg, step, h, tr, c) && Sweeping(c, direction)
    requires OnAxisAt(cfg, step, h + [x], |h|) && OffAt(cfg, step, h + [x], |h|) <= c.outside
    requires foot == FootAt(cfg, step, h + [x], |h|) && center == Center(|cfg.axis|, foot)
    requires c.lastCenter.Some? && c.lastMove.Some?
    ensures Continues(cfg, step, h, x, direction) <==> Keeps(c, foot, center, x.at, direction)
  {
    hide Mirrors, Trail, FootAt, Gathered, Latest, LatestFoot, OffAt, Center, Distances, Here, Carries, Keeps, Measured;
    Remembered(cfg, step, h, tr, c);
    KeepsCarries(c, foot, center, x.at, Distances(cfg, step, h, tr), direction);
  }

  lemma PeakDecides(c: Contact, rs: seq<real>, r: real)
    requires Measured(c, rs) && c.moving
    ensures Along(r, c.direction) >= c.peak - 1.0 <==>
              forall i :: 0 <= i < |rs| ==> Along(r, c.direction) >= Along(rs[i], c.direction) - 1.0
  {
    hide Along;
    var i :| 0 <= i < |rs| && Along(rs[i], c.direction) == c.peak;
  }

  lemma Remembered(cfg: Pads, step: ButtonStep, h: seq<Sweep>, tr: seq<nat>, c: Contact)
    requires Mirrors(cfg, step, h, tr, c) && !c.invalid && c.origin.Some?
    ensures tr != [] && Indices(tr, |h|) && c.lastCenter.Some?
    ensures c.origin.value == Here(cfg, step, h, tr[0]) && c.lastCenter.value == Latest(cfg, step, h)
    ensures c.seen == Gathered(cfg, step, h, tr, |tr|) && c.lastMove == Some(h[tr[|tr| - 1]].at)
    ensures c.started == Some(h[tr[0]].at)
    ensures c.previous == LatestFoot(cfg, step, h) && c.previous <= c.seen
    ensures Measured(c, Distances(cfg, step, h, tr)) && (!c.moving ==> c.direction == 0)
    ensures c.outside == OffAt(cfg, step, h, tr[0])
  {
    hide FootAt, Gathered, Latest, LatestFoot, OffAt, Center, Distances, Here, Measured, Shaped, EachGains, Reaches;
  }

  lemma MovedOuter(c: Contact, ps: set<nat>, center: real, now: int)
    requires c.origin.Some? && c.lastCenter.Some? && c.lastMove.Some?
    ensures var d := Moved(c, ps, center, now);
            d.outside == c.outside && d.previous == ps && d.origin == c.origin && d.lastMove.Some? && d.lastCenter.Some?
            && (c.invalid ==> d.invalid) && (d.seen != c.seen <==> ps - c.seen != {})
  {
    if ps - c.seen != {} {
      var p :| p in ps - c.seen;
      assert p in c.seen + ps && p !in c.seen;
    }
  }

  /** What the first sample of a cycle fixes is the same one sample later. */
  lemma OriginStays(cfg: Pads, step: ButtonStep, h: seq<Sweep>, x: Sweep, tr: seq<nat>, c: Contact)
    requires Mirrors(cfg, step, h, tr, c)
    ensures tr != [] && Indices(tr, |h|)
    ensures c.origin.None? <==> !OnAxisAt(cfg, step, h + [x], tr[0])
    ensures c.outside == OffAt(cfg, step, h + [x], tr[0]) == OffAt(cfg, step, h, tr[0])
    ensures c.lastMove.Some? && (c.origin.Some? <==> c.lastCenter.Some?)
    ensures Distances(cfg, step, h + [x], tr) == Distances(cfg, step, h, tr)
  {
    hide FootAt, OffAt, Told, Measured, LatestFoot, Gathered, Reaches, EachGains, Distances;
    OffStays(cfg, step, h, x, tr[0]);
    FootStays(cfg, step, h, x, tr[0]);
    ProfileStays(cfg, step, h, x, tr);
  }

  lemma MovedMirrors(cfg: Pads, step: ButtonStep, h: seq<Sweep>, x: Sweep, tr: seq<nat>, c: Contact, direction: int,
                     foot: set<nat>, center: real, d: Contact, tr': seq<nat>)
    requires direction == 1 || direction == -1
    requires tr == Trail(cfg, step, h) && Mirrors(cfg, step, h, tr, c)
    requires c.origin.Some? && c.lastCenter.Some? && c.lastMove.Some?
    requires OnAxisAt(cfg, step, h + [x], |h|) && OffAt(cfg, step, h + [x], |h|) <= c.outside
    requires foot == FootAt(cfg, step, h + [x], |h|) && foot != {} && center == Center(|cfg.axis|, foot)
    requires d == Moved(c, foot, center, x.at) && tr' == if d.seen != c.seen then tr + [|h|] else tr
    requires Recorded(cfg, step, h + [x], tr', d) && Told(cfg, step, h + [x], tr', d)
    ensures Mirrors(cfg, step, h + [x], tr', d)
    ensures Sweeping(d, direction) <==> Sweeping(c, direction) && Continues(cfg, step, h, x, direction)
  {
    hide Recorded, Told, Moved, FootAt, OffAt, LatestFoot, Center, Trail, Continues, Distances, Keeps, Measured, Here,
      Latest, Gathered;
    OriginStays(cfg, step, h, x, tr, c);
    MovedOuter(c, foot, center, x.at);
    LatestFootStep(cfg, step, h, x);
    if !c.invalid {
      var rs := Distances(cfg, step, h, tr);
      Remembered(cfg, step, h, tr, c);
      SweepFields(c, rs);
      MovedSweeps(c, foot, center, x.at, direction);
      if Sweeping(c, direction) {
        KeepsContinues(cfg, step, h, x, tr, c, direction, foot, center);
      }
      if !d.invalid {
        MovedMeasured(c, foot, center, x.at, rs);
        GrownDistances(cfg, step, h, x, tr);
      }
    }
  }

  lemma SweepFields(c: Contact, rs: seq<real>)
    requires Measured(c, rs)
    ensures if c.moving then 1.0 <= c.peak && (c.direction == 1 || c.direction == -1) else c.peak == 0.0
  {
  }

  lemma GrownDistances(cfg: Pads, step: ButtonStep, h: seq<Sweep>, x: Sweep, tr: seq<nat>)
    requires tr != [] && Indices(tr, |h|) && OnAxisAt(cfg, step, h + [x], |h|)
    ensures Indices(tr + [|h|], |h| + 1)
    ensures Distances(cfg, step, h + [x], tr + [|h|])
         == Distances(cfg, step, h, tr) + [Center(|cfg.axis|, FootAt(cfg, step, h + [x], |h|)) - Here(cfg, step, h, tr[0])]
  {
    hide FootAt, Center, Distances, Jumps, Latest;
    ProfileStays(cfg, step, h, x, tr);
    ProfileGrows(cfg, step, h + [x], tr, |h|);
    HereStays(cfg, step, h, x, tr[0]);
  }

  /** A sample that finds nothing on the axis, or a contact off it. */
  lemma StillMirrors(cfg: Pads, step: ButtonStep, h: seq<Sweep>, x: Sweep, tr: seq<nat>, c: Contact, direction: int)
    requires tr == Trail(cfg, step, h) && Mirrors(cfg, step, h, tr, c)
    requires Recorded(cfg, step, h + [x], tr, c) && Told(cfg, step, h + [x], tr, c)
    requires c.origin.Some? ==> !OnAxisAt(cfg, step, h + [x], |h|) && OffAt(cfg, step, h + [x], |h|) <= c.outside
    ensures Mirrors(cfg, step, h + [x], tr, c)
    ensures Sweeping(c, direction) <==> Sweeping(c, direction) && Continues(cfg, step, h, x, direction)
  {
    OriginStays(cfg, step, h, x, tr, c);
    LatestFootStep(cfg, step, h, x);
    hide Recorded, Told, FootAt, OffAt, LatestFoot, Center, Trail, Distances, Measured, Here, Latest, Gathered;
  }

  lemma SpoiltMirrors(cfg: Pads, step: ButtonStep, h: seq<Sweep>, x: Sweep, tr: seq<nat>, c: Contact, direction: int)
    requires tr == Trail(cfg, step, h) && Mirrors(cfg, step, h, tr, c)
    requires Recorded(cfg, step, h + [x], tr, c.(moving := true, invalid := true))
    requires Told(cfg, step, h + [x], tr, c.(moving := true, invalid := true))
    requires c.origin.Some? ==> !(OffAt(cfg, step, h + [x], |h|) <= c.outside)
    ensures Mirrors(cfg, step, h + [x], tr, c.(moving := true, invalid := true))
    ensures !(Sweeping(c, direction) && Continues(cfg, step, h, x, direction))
  {
    OriginStays(cfg, step, h, x, tr, c);
    hide Recorded, Told, FootAt, OffAt, LatestFoot, Center, Trail, Distances, Measured, Here, Latest, Gathered;
  }

  lemma NextMirrors(cfg: Pads, step: ButtonStep, h: seq<Sweep>, x: Sweep, tr: seq<nat>, c: Contact, direction: int,
                    stable: set<nat>, d: Contact, tr': seq<nat>)
    requires direction == 1 || direction == -1
    requires tr == Trail(cfg, step, h) && Mirrors(cfg, step, h, tr, c)
    requires c.lastMove.Some? && (c.origin.Some? <==> c.lastCenter.Some?)
    requires stable == SpatialRun(cfg, step, h + [x]).0.stable
    requires d == NextContact(cfg, c, stable, x.at) && tr' == if d.seen != c.seen then tr + [|h|] else tr
    requires Recorded(cfg, step, h + [x], tr', d) && Told(cfg, step, h + [x], tr', d)
    ensures Mirrors(cfg, step, h + [x], tr', d)
    ensures Sweeping(d, direction) <==> Sweeping(c, direction) && Continues(cfg, step, h, x, direction)
  {
    hide SpatialRun, Recorded, Told, Moved, FootAt, OffAt, Positions, Off, Center, Trail, Continues, Mirrors, Sweeping;
    var ps := Positions(cfg.axis, stable);
    FootNow(cfg, step, h, x);
    OffNow(cfg, step, h, x);
    OriginStays(cfg, step, h, x, tr, c);
    Within(Off(cfg.axis, stable), c.outside);
    if (ps != {} && c.origin.None?) || (c.origin.Some? && Off(cfg.axis, stable) - c.outside != {}) {
      SpoiltMirrors(cfg, step, h, x, tr, c, direction);
      SpoiltSweeps(c, direction);
    } else if ps != {} && c.origin.Some? {
      MovedMirrors(cfg, step, h, x, tr, c, direction, ps, Center(|cfg.axis|, ps), d, tr');
    } else {
      StillMirrors(cfg, step, h, x, tr, c, direction);
    }
  }

  lemma Within<T>(a: set<T>, b: set<T>)
    ensures a - b == {} <==> a <= b
  {
    forall x | x in a && a - b == {} ensures x in b {
      assert x !in a - b;
    }
  }

  lemma SpoiltSweeps(c: Contact, direction: int)
    ensures !Sweeping(c.(moving := true, invalid := true), direction)
  {
  }

  /** In every run the open contact sweeps in a direction exactly if its cycle is
      a clean sweep in that direction. */
  lemma {:induction false} RunSweeps(cfg: Pads, step: ButtonStep, h: seq<Sweep>, direction: int)
    requires NoSwipes(step) && (direction == 1 || direction == -1)
    ensures var s := SpatialRun(cfg, step, h).0;
            s.cycle ==> Mirrors(cfg, step, h, Trail(cfg, step, h), s.contact)
                        && (Sweeping(s.contact, direction) <==> Clean(cfg, step, h, direction))
  {
    hide SpatialRun, SpatialStep, Mirrors, Clean, Trail, Sweeping, NoSwipes, Valid;
    if h == [] {
      StartsClosed(cfg, step);
    } else {
      var front, x := h[..|h| - 1], h[|h| - 1];
      assert h == front + [x];
      RunSweeps(cfg, step, front, direction);
      StepSweeps(cfg, step, front, x, direction);
    }
  }

  lemma MirrorsHas(cfg: Pads, step: ButtonStep, h: seq<Sweep>, tr: seq<nat>, c: Contact)
    requires Mirrors(cfg, step, h, tr, c)
    ensures c.lastMove.Some? && (c.origin.Some? <==> c.lastCenter.Some?)
  {
  }

  lemma StepSweeps(cfg: Pads, step: ButtonStep, h: seq<Sweep>, x: Sweep, direction: int)
    requires NoSwipes(step) && (direction == 1 || direction == -1)
    requires var s := SpatialRun(cfg, step, h).0;
             s.cycle ==> Mirrors(cfg, step, h, Trail(cfg, step, h), s.contact)
                         && (Sweeping(s.contact, direction) <==> Clean(cfg, step, h, direction))
    ensures var t := SpatialRun(cfg, step, h + [x]).0;
            t.cycle ==> Mirrors(cfg, step, h + [x], Trail(cfg, step, h + [x]), t.contact)
                        && (Sweeping(t.contact, direction) <==> Clean(cfg, step, h + [x], direction))
  {
    var s, t := SpatialRun(cfg, step, h).0, SpatialRun(cfg, step, h + [x]).0;
    RunRecorded(cfg, step, h);
    RunRecorded(cfg, step, h + [x]);
    RunTold(cfg, step, h + [x]);
    TrailStep(cfg, step, h, x);
    CleanStep(cfg, step, h, x, direction);
    StepNext(cfg, step, s, x);
    hide SpatialRun, SpatialStep, Recorded, Told, Mirrors, NextContact, FirstContact, Trail, Clean, Continues, Sweeping,
      OnAxisAt;
    if t.cycle {
      if t.id != s.id {
        BeganMirrors(cfg, step, h, x);
      } else {
        MirrorsHas(cfg, step, h, Trail(cfg, step, h), s.contact);
        NextMirrors(cfg, step, h, x, Trail(cfg, step, h), s.contact, direction, t.stable, t.contact,
                    Trail(cfg, step, h + [x]));
      }
    }
  }

  // ----- when a swipe is reported -----

  /** Some centre came three positions along, or the length of the axis. */
  predicate FarAlong(n: nat, rs: seq<real>, direction: int) {
    exists i :: 0 <= i < |rs| && (Along(rs[i], direction) >= 3.0 || Along(rs[i], direction) >= (n - 1) as real)
  }

  /** The open cycle is a clean sweep in this direction that came far enough and
      whose last new pad came 30 ms or more after its start. */
  ghost predicate Swept(cfg: Pads, step: ButtonStep, h: seq<Sweep>, direction: int) {
    && Clean(cfg, step, h, direction)
    && var tr := Trail(cfg, step, h);
       && tr != [] && Indices(tr, |h|)
       && FarAlong(|cfg.axis|, Distances(cfg, step, h, tr), direction)
       && h[tr[|tr| - 1]].at - h[tr[0]].at >= 30
  }

  lemma PeakFar(n: nat, c: Contact, rs: seq<real>, direction: int)
    requires 2 <= n && Measured(c, rs) && (c.moving ==> c.direction == direction)
    ensures FarAlong(n, rs, direction) && (direction == 1 || direction == -1)
            ==> c.moving && (c.peak >= 3.0 || c.peak >= (n - 1) as real)
    ensures c.moving && (c.peak >= 3.0 || c.peak >= (n - 1) as real) ==> FarAlong(n, rs, direction)
  {
    if FarAlong(n, rs, direction) && (direction == 1 || direction == -1) {
      var i :| 0 <= i < |rs| && (Along(rs[i], direction) >= 3.0 || Along(rs[i], direction) >= (n - 1) as real);
      assert !Small(rs[i]);
    }
    if c.moving {
      var i :| 0 <= i < |rs| && Along(rs[i], c.direction) == c.peak;
    }
  }

  predicate FarAndLong(n: nat, c: Contact)
    requires c.started.Some? && c.lastMove.Some?
  {
    (c.peak >= 3.0 || c.peak >= (n - 1) as real) && c.lastMove.value - c.started.value >= 30
  }

  lemma SwipeFields(cfg: Pads, s: Spatial)
    requires s.contact.started.Some? && s.contact.lastMove.Some?
    ensures SwipeValid(cfg, s) <==> !s.contact.invalid && FarAndLong(|cfg.axis|, s.contact)
  {
  }

  lemma RememberedEnds(cfg: Pads, step: ButtonStep, h: seq<Sweep>, tr: seq<nat>, c: Contact)
    requires Mirrors(cfg, step, h, tr, c) && !c.invalid && c.origin.Some?
    ensures tr != [] && Indices(tr, |h|) && 0 <= tr[0] < |h| && 0 <= tr[|tr| - 1] < |h|
    ensures c.started == Some(h[tr[0]].at) && c.lastMove == Some(h[tr[|tr| - 1]].at)
    ensures Measured(c, Distances(cfg, step, h, tr))
  {
    hide Mirrors, Measured, Distances;
    Remembered(cfg, step, h, tr, c);
  }

  lemma ContactIsSwept(cfg: Pads, step: ButtonStep, h: seq<Sweep>, tr: seq<nat>, c: Contact, direction: int)
    requires direction == 1 || direction == -1
    requires tr == Trail(cfg, step, h) && Mirrors(cfg, step, h, tr, c)
    requires Sweeping(c, direction) <==> Clean(cfg, step, h, direction)
    requires c.started.Some? && c.lastMove.Some?
    ensures c.moving && c.direction == direction && !c.invalid && FarAndLong(|cfg.axis|, c)
       <==> Swept(cfg, step, h, direction)
  {
    hide Mirrors, Clean, Trail, FarAlong, Measured, Distances, Indices;
    MirrorsBegun(cfg, step, h, tr, c);
    if Sweeping(c, direction) {
      RememberedEnds(cfg, step, h, tr, c);
      PeakFar(|cfg.axis|, c, Distances(cfg, step, h, tr), direction);
    } else if c.moving && c.direction == direction && !c.invalid {
      MirrorsOff(cfg, step, h, tr, c);
    }
  }

  /** The contact counts as a valid swipe exactly if its cycle swept. */
  lemma ValidIsSwept(cfg: Pads, step: ButtonStep, h: seq<Sweep>, direction: int)
    requires NoSwipes(step) && (direction == 1 || direction == -1) && SpatialRun(cfg, step, h).0.cycle
    ensures var s := SpatialRun(cfg, step, h).0;
            && s.contact.started.Some? && s.contact.lastMove.Some?
            && (s.contact.moving && s.contact.direction == direction && SwipeValid(cfg, s) <==> Swept(cfg, step, h, direction))
  {
    hide SpatialRun, Mirrors, Clean, Trail, Swept, SwipeValid, Sweeping, FarAndLong, NoSwipes;
    RunSweeps(cfg, step, h, direction);
    var s, tr := SpatialRun(cfg, step, h).0, Trail(cfg, step, h);
    MirrorsBegun(cfg, step, h, tr, s.contact);
    ContactIsSwept(cfg, step, h, tr, s.contact, direction);
    SwipeFields(cfg, s);
  }

  lemma MirrorsBegun(cfg: Pads, step: ButtonStep, h: seq<Sweep>, tr: seq<nat>, c: Contact)
    requires Mirrors(cfg, step, h, tr, c)
    ensures c.started.Some? && c.lastMove.Some? && tr != [] && Indices(tr, |h|)
  {
  }

  /** A contact that began off the axis has no peak. */
  lemma MirrorsOff(cfg: Pads, step: ButtonStep, h: seq<Sweep>, tr: seq<nat>, c: Contact)
    requires Mirrors(cfg, step, h, tr, c) && c.origin.None?
    ensures c.peak == 0.0
  {
  }

  /** A sample reports a swipe exactly if a clean sweep is open whose pads have been
      off for 120 ms, whatever button recognizer the device has. */
  lemma SwipeExactly(cfg: Pads, bcfg: ButtonConfig, h: seq<Sweep>, x: Sweep, direction: int)
    requires direction == 1 || direction == -1
    ensures var s := SpatialRun(cfg, StepOf(bcfg), h).0;
            && (Event(Swipe, s.id, 0, 0, direction) in SpatialStep(cfg, StepOf(bcfg), s, x.mask, x.at).1 <==>
                  s.releaseAt.Some? && x.at - s.releaseAt.value >= 120 && Swept(cfg, StepOf(bcfg), h, direction))
  {
    var step := StepOf(bcfg);
    var s := SpatialRun(cfg, step, h).0;
    ButtonsNeverSwipe(bcfg);
    RunRecorded(cfg, step, h);
    StepGoes(cfg, step, s, x.mask, x.at);
    hide SpatialStep, SwipeValid, NoSwipes, StepOf, Recorded, Goes, Trail, FarAlong, Continues, Tidy;
    if s.cycle {
      hide SpatialRun, Swept;
      ValidIsSwept(cfg, step, h, direction);
      if s.contact.moving {
        MovingEnds(cfg, step, s, x);
      }
    }
  }

  /** And the sample that ends a cycle that swept is one that reports the swipe. */
  lemma SweptEndsInSwipe(cfg: Pads, bcfg: ButtonConfig, h: seq<Sweep>, x: Sweep, direction: int)
    requires (direction == 1 || direction == -1) && Swept(cfg, StepOf(bcfg), h, direction)
    requires !SpatialRun(cfg, StepOf(bcfg), h + [x]).0.cycle
             || SpatialRun(cfg, StepOf(bcfg), h + [x]).0.id != SpatialRun(cfg, StepOf(bcfg), h).0.id
    ensures var s := SpatialRun(cfg, StepOf(bcfg), h).0;
            Event(Swipe, s.id, 0, 0, direction) in SpatialStep(cfg, StepOf(bcfg), s, x.mask, x.at).1
  {
    var step := StepOf(bcfg);
    var s := SpatialRun(cfg, step, h).0;
    ButtonsNeverSwipe(bcfg);
    SweptIsOpen(cfg, step, h, direction);
    assert (h + [x])[..|h|] == h;
    assert SpatialRun(cfg, step, h + [x]).0 == SpatialStep(cfg, step, s, x.mask, x.at).0;
    hide SpatialStep, SpatialRun, SwipeValid, NoSwipes, StepOf, Swept;
    ValidIsSwept(cfg, step, h, direction);
    MovingEnds(cfg, step, s, x);
  }

  lemma SweptIsOpen(cfg: Pads, step: ButtonStep, h: seq<Sweep>, direction: int)
    requires Swept(cfg, step, h, direction)
    ensures SpatialRun(cfg, step, h).0.cycle
  {
    hide SpatialRun, Continues;
  }
}
