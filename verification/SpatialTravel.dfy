/** The shape of a swipe: one pass along the axis, without far-off arrivals. */
module SpatialTravel {
  import opened Common
  import opened ButtonEvents = TouchButton
  import opened SpatialTouch
  import opened SpatialMirror
  import opened SpatialSwipes

  // ----- footprint centres of a run -----

  /** The footprint's centre after sample `a`; zero when it is off the axis. */
  function Here(cfg: Pads, step: ButtonStep, h: seq<Sweep>, a: nat): real
    requires a < |h|
  {
    if FootAt(cfg, step, h, a) == {} then 0.0 else Center(|cfg.axis|, FootAt(cfg, step, h, a))
  }

  /** The centre of the latest footprint on the axis. */
  function Latest(cfg: Pads, step: ButtonStep, h: seq<Sweep>): real {
    if h == [] then 0.0
    else if OnAxisAt(cfg, step, h, |h| - 1) then Here(cfg, step, h, |h| - 1)
    else Latest(cfg, step, h[..|h| - 1])
  }

  /** Distances of a trail's centres from the first one. */
  function Distances(cfg: Pads, step: ButtonStep, h: seq<Sweep>, tr: seq<nat>): (rs: seq<real>)
    requires Indices(tr, |h|)
    ensures |rs| == |tr|
  {
    seq(|tr|, i requires 0 <= i < |tr| => Here(cfg, step, h, tr[i]) - Here(cfg, step, h, tr[0]))
  }

  /** How far each centre of a trail lies from the centre just before it. */
  function Jumps(cfg: Pads, step: ButtonStep, h: seq<Sweep>, tr: seq<nat>): (js: seq<real>)
    requires Indices(tr, |h|)
    ensures |js| == |tr|
  {
    seq(|tr|, i requires 0 <= i < |tr| => Here(cfg, step, h, tr[i]) - Latest(cfg, step, h[..tr[i]]))
  }

  // ----- the shape of a travel -----

  predicate Small(r: real) {
    Abs(r) < 1.0
  }

  /** Once one position away, no arrival falls back by more than one position. */
  predicate OnePass(rs: seq<real>, direction: int) {
    forall i, j :: 0 <= j < i < |rs| ==>
      (Small(rs[i]) && Small(rs[j])) || Along(rs[i], direction) >= Along(rs[j], direction) - 1.0
  }

  /** An arrival more than three positions off continues the travel. */
  predicate Steady(js: seq<real>, direction: int) {
    forall i :: 0 < i < |js| ==> Abs(js[i]) <= 3.0 || Along(js[i], direction) > 0.0
  }

  predicate Capped(c: Contact, rs: seq<real>) {
    forall i :: 0 <= i < |rs| ==> Small(rs[i]) || (c.moving && Along(rs[i], c.direction) <= c.peak)
  }

  predicate Shaped(c: Contact, rs: seq<real>, js: seq<real>) {
    && rs != [] && |js| == |rs|
    && (!c.invalid ==>
          && OnePass(rs, c.direction) && Steady(js, c.direction) && Capped(c, rs)
          && (if c.moving then 1.0 <= c.peak && (c.direction == 1 || c.direction == -1) else c.peak == 0.0 && c.direction == 0))
  }

  lemma StayShaped(c: Contact, ps: set<nat>, center: real, now: int, rs: seq<real>, js: seq<real>)
    requires c.origin.Some? && c.lastCenter.Some? && c.lastMove.Some?
    requires Shaped(c, rs, js) && ps - c.seen == {}
    ensures Shaped(Moved(c, ps, center, now), rs, js)
  {
    hide OnePass, Steady, Along;
  }

  /** What an arrival that leaves the contact valid does to it. */
  lemma GainFacts(c: Contact, ps: set<nat>, center: real, now: int)
    requires c.origin.Some? && c.lastCenter.Some? && c.lastMove.Some?
    requires ps - c.seen != {} && c.previous <= c.seen && !Moved(c, ps, center, now).invalid
    requires if c.moving then 1.0 <= c.peak && (c.direction == 1 || c.direction == -1) else c.peak == 0.0 && c.direction == 0
    ensures var d := Moved(c, ps, center, now); var r, j := center - c.origin.value, center - c.lastCenter.value;
            && !c.invalid
            && (Abs(j) <= 3.0 || Along(j, c.direction) > 0.0)
            && (c.moving ==> d.moving && d.direction == c.direction && c.peak <= d.peak)
            && (c.moving ==> Along(r, d.direction) >= c.peak - 1.0)
            && (if d.moving then 1.0 <= d.peak && (d.direction == 1 || d.direction == -1) && Along(r, d.direction) <= d.peak
                else d.peak == 0.0 && d.direction == 0 && Small(r))
            && (d.moving && !c.moving ==> Along(r, d.direction) >= 1.0)
  {
    assert ps - c.previous != {};
  }

  lemma GainShaped(c: Contact, ps: set<nat>, center: real, now: int, rs: seq<real>, js: seq<real>)
    requires c.origin.Some? && c.lastCenter.Some? && c.lastMove.Some?
    requires Shaped(c, rs, js) && ps - c.seen != {} && c.previous <= c.seen
    ensures Shaped(Moved(c, ps, center, now), rs + [center - c.origin.value], js + [center - c.lastCenter.value])
  {
    var d := Moved(c, ps, center, now);
    if !d.invalid {
      StillValid(c, ps, center, now);
      GainFacts(c, ps, center, now);
      Extend(c, d, rs, js, center - c.origin.value, center - c.lastCenter.value);
    }
  }

  lemma StillValid(c: Contact, ps: set<nat>, center: real, now: int)
    requires c.origin.Some? && c.lastCenter.Some? && c.lastMove.Some? && !Moved(c, ps, center, now).invalid
    ensures !c.invalid
  {
  }

  lemma Extend(c: Contact, d: Contact, rs: seq<real>, js: seq<real>, r: real, j: real)
    requires !c.invalid && !d.invalid && Shaped(c, rs, js)
    requires Abs(j) <= 3.0 || Along(j, c.direction) > 0.0
    requires c.moving ==> d.moving && d.direction == c.direction && c.peak <= d.peak && Along(r, d.direction) >= c.peak - 1.0
    requires if d.moving then 1.0 <= d.peak && (d.direction == 1 || d.direction == -1) && Along(r, d.direction) <= d.peak
             else d.peak == 0.0 && d.direction == 0 && Small(r)
    requires d.moving && !c.moving ==> Along(r, d.direction) >= 1.0
    ensures Shaped(d, rs + [r], js + [j])
  {
    forall i | 0 <= i < |rs|
      ensures (Small(rs[i]) && Small(r)) || Along(r, d.direction) >= Along(rs[i], d.direction) - 1.0
      ensures Small(rs[i]) || (d.moving && Along(rs[i], d.direction) <= d.peak)
    {
    }
  }

  // ----- over whole runs -----

  lemma HereStays(cfg: Pads, step: ButtonStep, h: seq<Sweep>, x: Sweep, a: nat)
    requires a < |h|
    ensures Here(cfg, step, h + [x], a) == Here(cfg, step, h, a)
  {
    FootStays(cfg, step, h, x, a);
  }

  lemma LatestStep(cfg: Pads, step: ButtonStep, h: seq<Sweep>, x: Sweep)
    ensures var foot := FootAt(cfg, step, h + [x], |h|);
            Latest(cfg, step, h + [x]) == if foot != {} then Center(|cfg.axis|, foot) else Latest(cfg, step, h)
  {
    hide FootAt;
    assert (h + [x])[..|h|] == h;
  }

  lemma ProfileStays(cfg: Pads, step: ButtonStep, h: seq<Sweep>, x: Sweep, tr: seq<nat>)
    requires Indices(tr, |h|)
    ensures Distances(cfg, step, h + [x], tr) == Distances(cfg, step, h, tr)
    ensures Jumps(cfg, step, h + [x], tr) == Jumps(cfg, step, h, tr)
  {
    hide Here, Latest;
    forall i | 0 <= i < |tr|
      ensures Here(cfg, step, h + [x], tr[i]) == Here(cfg, step, h, tr[i])
      ensures (h + [x])[..tr[i]] == h[..tr[i]]
    {
      HereStays(cfg, step, h, x, tr[i]);
    }
  }

  lemma ProfileGrows(cfg: Pads, step: ButtonStep, h: seq<Sweep>, tr: seq<nat>, a: nat)
    requires tr != [] && Extends(tr, a, |h|)
    ensures Distances(cfg, step, h, tr + [a]) == Distances(cfg, step, h, tr) + [Here(cfg, step, h, a) - Here(cfg, step, h, tr[0])]
    ensures Jumps(cfg, step, h, tr + [a]) == Jumps(cfg, step, h, tr) + [Here(cfg, step, h, a) - Latest(cfg, step, h[..a])]
  {
    hide Here, Latest;
  }

  /** What a contact on the axis tells of its trail. */
  ghost predicate Told(cfg: Pads, step: ButtonStep, h: seq<Sweep>, tr: seq<nat>, c: Contact) {
    && tr != [] && Indices(tr, |h|)
    && c.previous <= c.seen
    && (c.origin.None? ==> c.peak == 0.0)
    && (c.origin.Some? ==>
          && (forall i :: 0 <= i < |tr| ==> OnAxisAt(cfg, step, h, tr[i]))
          && c.origin.value == Here(cfg, step, h, tr[0])
          && c.lastCenter.Some? && (!c.invalid ==> c.lastCenter.value == Latest(cfg, step, h))
          && Shaped(c, Distances(cfg, step, h, tr), Jumps(cfg, step, h, tr)))
  }

  lemma BeganTold(cfg: Pads, step: ButtonStep, h: seq<Sweep>, x: Sweep)
    requires SpatialRun(cfg, step, h + [x]).0.contact == FirstContact(cfg, SpatialRun(cfg, step, h + [x]).0.stable, x.at)
    ensures Told(cfg, step, h + [x], [|h|], SpatialRun(cfg, step, h + [x]).0.contact)
  {
    hide FootAt, Center, Positions, SpatialRun, Latest, Along;
    FootNow(cfg, step, h, x);
    LatestStep(cfg, step, h, x);
    var c := SpatialRun(cfg, step, h + [x]).0.contact;
    var rs := Distances(cfg, step, h + [x], [|h|]);
    assert rs == [0.0];
  }

  lemma AsideTold(cfg: Pads, step: ButtonStep, h: seq<Sweep>, x: Sweep, tr: seq<nat>, c: Contact)
    requires Told(cfg, step, h, tr, c)
    requires Aside(cfg, c, SpatialRun(cfg, step, h + [x]).0.stable)
    ensures Told(cfg, step, h + [x], tr, c)
  {
    hide FootAt, Center, Positions, SpatialRun, Latest, Shaped, Distances, Jumps, Here;
    FootNow(cfg, step, h, x);
    LatestStep(cfg, step, h, x);
    ProfileStays(cfg, step, h, x, tr);
    forall i | 0 <= i < |tr| ensures FootAt(cfg, step, h + [x], tr[i]) == FootAt(cfg, step, h, tr[i]) {
      FootStays(cfg, step, h, x, tr[i]);
    }
    HereStays(cfg, step, h, x, tr[0]);
  }

  lemma SpoiltTold(cfg: Pads, step: ButtonStep, h: seq<Sweep>, x: Sweep, tr: seq<nat>, c: Contact)
    requires Told(cfg, step, h, tr, c)
    ensures Told(cfg, step, h + [x], tr, c.(moving := true, invalid := true))
  {
    hide FootAt, Center, Latest, Distances, Jumps, Here, OnePass, Steady, Capped;
    ProfileStays(cfg, step, h, x, tr);
    forall i | 0 <= i < |tr| ensures FootAt(cfg, step, h + [x], tr[i]) == FootAt(cfg, step, h, tr[i]) {
      FootStays(cfg, step, h, x, tr[i]);
    }
    HereStays(cfg, step, h, x, tr[0]);
  }

  lemma MovedFields(c: Contact, ps: set<nat>, center: real, now: int)
    requires c.origin.Some? && c.lastCenter.Some? && c.lastMove.Some? && c.previous <= c.seen
    ensures var d := Moved(c, ps, center, now);
            d.origin == c.origin && d.lastCenter == Some(center) && d.previous <= d.seen
            && (d.seen != c.seen <==> ps - c.seen != {}) && (!d.invalid ==> !c.invalid)
  {
    if ps - c.seen != {} {
      var p :| p in ps - c.seen;
      assert p in c.seen + ps && p !in c.seen;
    } else {
      forall p | p in ps ensures p in c.seen {
        assert p !in ps - c.seen;
      }
    }
  }

  lemma MovedTold(cfg: Pads, step: ButtonStep, h: seq<Sweep>, x: Sweep, tr: seq<nat>, c: Contact, d: Contact)
    requires Told(cfg, step, h, tr, c)
    requires MovedTo(cfg, c, d, SpatialRun(cfg, step, h + [x]).0.stable, x.at)
    ensures Told(cfg, step, h + [x], if d.seen != c.seen then tr + [|h|] else tr, d)
  {
    hide SpatialRun, Positions, Center, Moved, FootAt, Latest, Distances, Jumps, Shaped;
    var ps, center := FootAt(cfg, step, h + [x], |h|), Here(cfg, step, h + [x], |h|);
    var rs, js := Distances(cfg, step, h, tr), Jumps(cfg, step, h, tr);
    FootNow(cfg, step, h, x);
    LatestStep(cfg, step, h, x);
    ProfileStays(cfg, step, h, x, tr);
    MovedFields(c, ps, center, x.at);
    forall i | 0 <= i < |tr| ensures FootAt(cfg, step, h + [x], tr[i]) == FootAt(cfg, step, h, tr[i]) {
      FootStays(cfg, step, h, x, tr[i]);
    }
    HereStays(cfg, step, h, x, tr[0]);
    if ps - c.seen == {} {
      StayShaped(c, ps, center, x.at, rs, js);
    } else {
      GainShaped(c, ps, center, x.at, rs, js);
      ProfileGrows(cfg, step, h + [x], tr, |h|);
      assert (h + [x])[..|h|] == h;
      if d.invalid {
        InvalidShaped(d, Distances(cfg, step, h + [x], tr + [|h|]), Jumps(cfg, step, h + [x], tr + [|h|]));
      }
    }
  }

  lemma InvalidShaped(c: Contact, rs: seq<real>, js: seq<real>)
    requires c.invalid && rs != [] && |rs| == |js|
    ensures Shaped(c, rs, js)
  {
  }

  lemma StepTold(cfg: Pads, step: ButtonStep, h: seq<Sweep>, x: Sweep)
    requires NoSwipes(step)
    requires var s := SpatialRun(cfg, step, h).0;
             Tidy(s) && (s.cycle ==> Told(cfg, step, h, Trail(cfg, step, h), s.contact))
    ensures var t := SpatialRun(cfg, step, h + [x]).0;
            Tidy(t) && (t.cycle ==> Told(cfg, step, h + [x], Trail(cfg, step, h + [x]), t.contact))
  {
    var s, t, tr := SpatialRun(cfg, step, h).0, SpatialRun(cfg, step, h + [x]).0, Trail(cfg, step, h);
    TrailStep(cfg, step, h, x);
    StepGoes(cfg, step, s, x.mask, x.at);
    hide SpatialRun, SpatialStep, Told, MovedTo, FirstContact, Trail, Aside;
    if t.cycle {
      if t.id != s.id {
        BeganTold(cfg, step, h, x);
      } else if MovedTo(cfg, s.contact, t.contact, t.stable, x.at) {
        MovedTold(cfg, step, h, x, tr, s.contact, t.contact);
      } else if t.contact == s.contact && Aside(cfg, s.contact, t.stable) {
        AsideTold(cfg, step, h, x, tr, s.contact);
      } else {
        SpoiltTold(cfg, step, h, x, tr, s.contact);
      }
    }
  }

  lemma {:induction false} RunTold(cfg: Pads, step: ButtonStep, h: seq<Sweep>)
    requires NoSwipes(step)
    ensures var s := SpatialRun(cfg, step, h).0;
            Tidy(s) && (s.cycle ==> Told(cfg, step, h, Trail(cfg, step, h), s.contact))
  {
    if h != [] {
      var front, x := h[..|h| - 1], h[|h| - 1];
      assert h == front + [x];
      RunTold(cfg, step, front);
      StepTold(cfg, step, front, x);
    }
  }

  /** A trail is one pass: every sample of it lies on the axis, arrivals more
      than three positions off continue it, and none falls back by more than one. */
  ghost predicate OneSweep(cfg: Pads, step: ButtonStep, h: seq<Sweep>, tr: seq<nat>, direction: int) {
    && Indices(tr, |h|) && (forall i :: 0 <= i < |tr| ==> OnAxisAt(cfg, step, h, tr[i]))
    && OnePass(Distances(cfg, step, h, tr), direction)
    && Steady(Jumps(cfg, step, h, tr), direction)
  }

  /** Every swipe a sample reports was a single pass in the reported direction. */
  lemma SwipeIsOneSweep(cfg: Pads, step: ButtonStep, h: seq<Sweep>, x: Sweep, e: Event)
    requires NoSwipes(step) && e.kind == Swipe
    requires e in SpatialStep(cfg, step, SpatialRun(cfg, step, h).0, x.mask, x.at).1
    ensures OneSweep(cfg, step, h, Trail(cfg, step, h), e.direction)
  {
    var s := SpatialRun(cfg, step, h).0;
    RunTold(cfg, step, h);
    StepGoes(cfg, step, s, x.mask, x.at);
    hide SpatialRun, SpatialStep, Trail, FootAt, Latest, Here;
  }

  ghost predicate SweptAt(cfg: Pads, step: ButtonStep, h: seq<Sweep>, n: nat, direction: int)
    requires n <= |h|
  {
    && Justified(cfg, step, h[..n], Trail(cfg, step, h[..n]), direction)
    && OneSweep(cfg, step, h[..n], Trail(cfg, step, h[..n]), direction)
  }

  /** Every swipe in a log was justified by, and was one pass over, the samples
      before it, whatever button recognizer the device has. */
  lemma SwipesAreSweeps(cfg: Pads, bcfg: ButtonConfig, h: seq<Sweep>)
    ensures forall e <- SpatialRun(cfg, StepOf(bcfg), h).1 :: e.kind == Swipe ==>
              exists n :: 0 <= n < |h| && SweptAt(cfg, StepOf(bcfg), h, n, e.direction)
  {
    hide SpatialRun, SpatialStep, Justified, OneSweep, Trail;
    var step := StepOf(bcfg);
    ButtonsNeverSwipe(bcfg);
    forall e | e in SpatialRun(cfg, step, h).1 && e.kind == Swipe
      ensures exists n :: 0 <= n < |h| && SweptAt(cfg, step, h, n, e.direction)
    {
      var n := EverySwipeJustified(cfg, step, h, e);
      SwipeIsOneSweep(cfg, step, h[..n], h[n], e);
      assert SweptAt(cfg, step, h, n, e.direction);
    }
  }
}
