/** How contact cycles end, over whole runs of the spatial recognizer. */
module SpatialOutcomes {
  import opened Common
  import opened Debounce
  import Button = TouchButton
  import opened ButtonEvents = TouchButton
  import opened SpatialTouch
  import opened SpatialMirror

  // ----- the footprint refines the sample history -----

  /** The history of one electrode. */
  function Ticks(h: seq<Sweep>, pad: nat): seq<Tick> {
    seq(|h|, k requires 0 <= k < |h| => Tick(pad in h[k].mask, h[k].at))
  }

  /** A sample changes the footprint by debouncing only. */
  lemma StepFoot(cfg: Pads, step: ButtonStep, s: Spatial, mask: set<nat>, now: int)
    requires Valid(cfg, s) && s.seeded
    ensures var t, f := SpatialStep(cfg, step, s, mask, now).0, Footprint(cfg, s, Active(cfg, mask), now);
            t.raw == f.raw && t.stable == f.stable && t.seeded
  {
    var active := Active(cfg, mask);
    var c := RawEdge(s, active, now).0;
    if s.armed {
      hide Elems, Positions, Center, Follow, PressButton, Finish;
      PreparedTrackable(cfg, step, s, active, now);
      FootprintFacts(cfg, c, active, now);
      ResolveOldFacts(cfg, step, Footprint(cfg, c, active, now), active, now);
      TrackFoot(cfg, step, Prepared(cfg, step, s, active, now).0, active, now);
    }
  }

  lemma TrackFoot(cfg: Pads, step: ButtonStep, s: Spatial, active: set<nat>, now: int)
    requires Trackable(cfg, s, active)
    ensures var t := Track(cfg, step, s, active, now).0; t.raw == s.raw && t.stable == s.stable && t.seeded == s.seeded
  {
    hide Positions, Center, Follow, LastOff, EdgeTime;
    if s.cycle && s.stable != {} {
      FollowKeeps(cfg, s, now);
    }
  }

  /** What the footprint remembers of one electrode. */
  ghost predicate PadTracked(cfg: Pads, s: Spatial, h: seq<Sweep>, pad: nat) {
    && s.seeded && pad in s.raw
    && Remembers(FootprintDelay(cfg), Ticks(h, pad), pad in s.stable, s.raw[pad].value, s.raw[pad].since)
  }

  lemma PadFirst(cfg: Pads, step: ButtonStep, x: Sweep, pad: nat)
    requires pad in cfg.electrodes
    ensures PadTracked(cfg, SpatialStep(cfg, step, START, x.mask, x.at).0, [x], pad)
  {
    hide Remembers;
    var tick := Tick(pad in x.mask, x.at);
    assert Ticks([x], pad) == [tick];
    RememberFirst(FootprintDelay(cfg), tick);
  }

  lemma PadStep(cfg: Pads, step: ButtonStep, s: Spatial, h: seq<Sweep>, x: Sweep, pad: nat)
    requires Valid(cfg, s) && pad in cfg.electrodes && PadTracked(cfg, s, h, pad)
    ensures PadTracked(cfg, SpatialStep(cfg, step, s, x.mask, x.at).0, h + [x], pad)
  {
    hide Remembers, SpatialStep, Footprint;
    var tick := Tick(pad in x.mask, x.at);
    assert Ticks(h + [x], pad) == Ticks(h, pad) + [tick];
    StepFoot(cfg, step, s, x.mask, x.at);
    PadFoot(cfg, s, Active(cfg, x.mask), x.at, pad);
    RememberStep(FootprintDelay(cfg), Ticks(h, pad), pad in s.stable, s.raw[pad].value, s.raw[pad].since, tick);
  }

  /** The footprint is, electrode by electrode, the debounced value of everything
      sampled so far. */
  lemma {:induction false} FootprintRefinesHistory(cfg: Pads, step: ButtonStep, h: seq<Sweep>, pad: nat)
    requires h != [] && pad in cfg.electrodes
    ensures PadTracked(cfg, SpatialRun(cfg, step, h).0, h, pad)
    ensures Debounced(if cfg.debounce < 5 then cfg.debounce else 5, Ticks(h, pad), pad in SpatialRun(cfg, step, h).0.stable)
  {
    hide PadTracked, SpatialStep, Debounced;
    var front, x := h[..|h| - 1], h[|h| - 1];
    assert h == front + [x];
    if front == [] {
      assert h == [x] && SpatialRun(cfg, step, front).0 == START;
      PadFirst(cfg, step, x, pad);
    } else {
      FootprintRefinesHistory(cfg, step, front, pad);
      PadStep(cfg, step, SpatialRun(cfg, step, front).0, front, x, pad);
    }
    TrackedIsDebounced(cfg, SpatialRun(cfg, step, h).0, h, pad);
  }

  lemma TrackedIsDebounced(cfg: Pads, s: Spatial, h: seq<Sweep>, pad: nat)
    requires PadTracked(cfg, s, h, pad)
    ensures Debounced(FootprintDelay(cfg), Ticks(h, pad), pad in s.stable)
  {
  }

  lemma PadFoot(cfg: Pads, s: Spatial, active: set<nat>, now: int, pad: nat)
    requires s.raw.Keys == Elems(cfg.electrodes) && pad in cfg.electrodes
    ensures var f := Footprint(cfg, s, active, now);
            var since := if (pad in active) == s.raw[pad].value then s.raw[pad].since else now;
            && pad in f.raw && f.raw[pad].value == (pad in active) && f.raw[pad].since == since
            && (pad in f.stable <==> if now - since >= FootprintDelay(cfg) then pad in active else pad in s.stable)
  {
    assert pad in Elems(cfg.electrodes);
  }

  // ----- a button without debounce of its own -----

  /** A tap after the first of a burst, which is announced by its release alone. */
  predicate LaterTap(bcfg: ButtonConfig, e: Event) {
    bcfg.multiClick && e.kind == Release && 0 < e.count && e.held < bcfg.thresholds[0]
  }

  /** Events that end a contact cycle. */
  predicate Outcome(bcfg: ButtonConfig, e: Event) {
    e.kind == Hold || e.kind == Single || e.kind == Swipe || LaterTap(bcfg, e)
  }

  function Tally(bcfg: ButtonConfig, es: seq<Event>): nat {
    if es == [] then 0 else Tally(bcfg, es[..|es| - 1]) + if Outcome(bcfg, es[|es| - 1]) then 1 else 0
  }

  lemma {:induction false} TallyJoin(bcfg: ButtonConfig, a: seq<Event>, b: seq<Event>)
    ensures Tally(bcfg, a + b) == Tally(bcfg, a) + Tally(bcfg, b)
  {
    if b == [] {
      assert a + b == a;
    } else {
      assert (a + b)[..|a + b| - 1] == a + b[..|b| - 1];
      TallyJoin(bcfg, a, b[..|b| - 1]);
    }
  }

  lemma {:induction false} NoTally(bcfg: ButtonConfig, es: seq<Event>)
    requires forall e <- es :: !Outcome(bcfg, e)
    ensures Tally(bcfg, es) == 0
  {
    if es != [] {
      NoTally(bcfg, es[..|es| - 1]);
    }
  }

  lemma {:induction false} Tallied(bcfg: ButtonConfig, es: seq<Event>, e: Event)
    requires e in es && Outcome(bcfg, e)
    ensures 0 < Tally(bcfg, es)
  {
    if e in es[..|es| - 1] {
      Tallied(bcfg, es[..|es| - 1], e);
    }
  }

  predicate Pressable(b: Button.State) {
    && (b.pressStart.Some? ==> b.stable == Some(true))
    && (b.stable.Some? ==> b.candidate == b.stable.value)
  }

  /** At most one outcome per press: none for a press but a hold, none without one. */
  ghost predicate Prompt(bcfg: ButtonConfig, step: ButtonStep) {
    forall b, touched, at | Pressable(b) :: Answers(bcfg, b, touched, step(b, touched, at))
  }

  predicate Answers(bcfg: ButtonConfig, b: Button.State, touched: bool, r: (Button.State, seq<Event>)) {
    && Pressable(r.0) && r.0.stable == Some(touched)
    && Tally(bcfg, r.1) <= 1
    && (touched && (forall e <- r.1 :: e.kind != Hold) ==> Tally(bcfg, r.1) == 0)
    && (!touched && b.stable != Some(true) ==> Tally(bcfg, r.1) == 0)
  }

  /** The button recognizers a contact is handed to debounce nothing themselves. */
  lemma ButtonsArePrompt(bcfg: ButtonConfig)
    requires bcfg.delay == 0
    ensures Prompt(bcfg, StepOf(bcfg))
  {
    forall b: Button.State, touched: bool, at: int | Pressable(b)
      ensures Answers(bcfg, b, touched, StepOf(bcfg)(b, touched, at))
    {
      ButtonAnswers(bcfg, b, touched, at);
    }
  }

  lemma ButtonAnswers(bcfg: ButtonConfig, b: Button.State, touched: bool, at: int)
    requires bcfg.delay == 0 && Pressable(b)
    ensures Answers(bcfg, b, touched, Button.Step(bcfg, b, touched, at))
  {
    hide Tally, Button.Candidate, Button.Accept, Button.Tiers, Button.Resolve;
    if b.stable.Some? {
      var (s1, e1) := Button.Candidate(b, touched, at);
      var (s2, e2) := Button.Accept(bcfg, s1, touched, at);
      var (s3, e3) := Button.Tiers(bcfg, s2, touched, at);
      EdgesAnswer(bcfg, b, s3, touched, at);
      AcceptAnswers(bcfg, s1, touched, at);
      TiersAnswer(bcfg, s2, touched, at);
      TallyFour(bcfg, e1, e2, e3, Button.Resolve(s3, touched, at).1);
    } else {
      TallyNone(bcfg);
    }
  }

  lemma TallyNone(bcfg: ButtonConfig)
    ensures Tally(bcfg, []) == 0
  {
  }

  lemma TallyFour(bcfg: ButtonConfig, a: seq<Event>, b: seq<Event>, c: seq<Event>, d: seq<Event>)
    ensures Tally(bcfg, a + b + c + d) == Tally(bcfg, a) + Tally(bcfg, b) + Tally(bcfg, c) + Tally(bcfg, d)
    ensures (forall e <- a + b + c + d :: e.kind != Hold) ==> forall e <- c :: e.kind != Hold
  {
    TallyJoin(bcfg, a, b);
    TallyJoin(bcfg, a + b, c);
    TallyJoin(bcfg, a + b + c, d);
    assert forall e <- c :: e in a + b + c + d;
  }

  /** Raw edges and burst deadlines end no press. */
  lemma EdgesAnswer(bcfg: ButtonConfig, b: Button.State, s: Button.State, touched: bool, at: int)
    ensures var r := Button.Candidate(b, touched, at);
            Tally(bcfg, r.1) == 0 && r.0.candidate == touched && r.0.stable == b.stable && r.0.pressStart == b.pressStart
            && (b.candidate != touched ==> r.0.since == at)
    ensures var r := Button.Resolve(s, touched, at);
            Tally(bcfg, r.1) == 0 && r.0.candidate == s.candidate && r.0.stable == s.stable && r.0.pressStart == s.pressStart
  {
    NoTally(bcfg, Button.Candidate(b, touched, at).1);
    NoTally(bcfg, Button.Resolve(s, touched, at).1);
  }

  lemma AcceptAnswers(bcfg: ButtonConfig, s: Button.State, touched: bool, at: int)
    requires bcfg.delay == 0 && s.stable.Some? && (s.stable == Some(touched) || s.since == at)
    requires s.pressStart.Some? ==> s.stable == Some(true)
    ensures var r := Button.Accept(bcfg, s, touched, at);
            && r.0.stable == Some(touched) && r.0.candidate == s.candidate
            && (r.0.pressStart.Some? ==> touched)
            && Tally(bcfg, r.1) <= 1 && (touched || s.stable == Some(false) ==> Tally(bcfg, r.1) == 0)
  {
    hide Tally, Button.AcceptRelease;
    if touched || s.stable == Some(touched) {
      NoTally(bcfg, Button.Accept(bcfg, s, touched, at).1);
    } else {
      ReleaseAnswers(bcfg, s.(stable := Some(false)), at);
    }
  }

  /** Releasing a press is exactly one tap or one hold, so no tap goes uncounted. */
  lemma ReleaseAnswers(bcfg: ButtonConfig, s: Button.State, at: int)
    ensures var r := Button.AcceptRelease(bcfg, s, at);
            r.0.stable == s.stable && r.0.candidate == s.candidate && r.0.pressStart.None?
            && Tally(bcfg, r.1) == if s.pressStart.Some? then 1 else 0
  {
    if s.pressStart.Some? {
      var held := s.since - s.pressStart.value;
      var release := Event(Release, s.id, s.clicks, held, 0);
      TallyOne(bcfg, release);
      if held >= bcfg.thresholds[0] {
        var hold := Event(Hold, s.id, 0, held, 0);
        NoTally(bcfg, [release, Plain(Invalidate, s.id)]);
        TallyOne(bcfg, hold);
        TallyJoin(bcfg, [release, Plain(Invalidate, s.id)], [hold]);
        assert [release] + [Plain(Invalidate, s.id), hold] == [release, Plain(Invalidate, s.id)] + [hold];
      } else {
        var tap := Event(Single, s.id, 1, held, 0);
        TallyOne(bcfg, tap);
        TallyJoin(bcfg, [release], [tap]);
        assert [release] + [] == [release];
      }
    } else {
      TallyNone(bcfg);
    }
  }

  lemma TallyOne(bcfg: ButtonConfig, e: Event)
    ensures Tally(bcfg, [e]) == if Outcome(bcfg, e) then 1 else 0
  {
    assert [e][..0] == [];
  }

  lemma TiersAnswer(bcfg: ButtonConfig, s: Button.State, touched: bool, at: int)
    ensures var r := Button.Tiers(bcfg, s, touched, at);
            && r.0.stable == s.stable && r.0.candidate == s.candidate
            && (r.0.pressStart.Some? ==> s.pressStart.Some?)
            && Tally(bcfg, r.1) <= 1 && ((forall e <- r.1 :: e.kind != Hold) ==> Tally(bcfg, r.1) == 0)
            && (s.pressStart.None? ==> r.1 == [])
  {
    var es := Button.Tiers(bcfg, s, touched, at).1;
    if |es| == 3 {
      assert es == es[..2] + [es[2]];
      NoTally(bcfg, es[..2]);
      TallyJoin(bcfg, es[..2], [es[2]]);
    } else {
      NoTally(bcfg, es);
    }
  }

  // ----- at most one outcome per cycle -----

  function Open(s: Spatial): nat {
    if s.cycle then 1 else 0
  }

  /** Where the button stands in each phase of the spatial recognizer. */
  predicate Handed(s: Spatial) {
    && Pressable(s.button)
    && (s.seeded ==> s.button.stable.Some?)
    && (s.seeded && s.armed && !s.cycle ==> s.button.stable == Some(false))
    && (s.cycle && !s.contact.moving ==> s.button.stable == Some(true))
  }

  lemma Pressing(bcfg: ButtonConfig, step: ButtonStep, b: Button.State, touched: bool, at: int)
    requires Prompt(bcfg, step) && Pressable(b)
    ensures Answers(bcfg, b, touched, step(b, touched, at))
  {
  }

  lemma FinishCounts(cfg: Pads, bcfg: ButtonConfig, step: ButtonStep, s: Spatial, active: bool, now: int)
    requires s.cycle && s.releaseAt.Some? && s.contact.started.Some? && s.contact.lastMove.Some?
    requires Prompt(bcfg, step) && Handed(s)
    ensures var (t, es) := Finish(cfg, step, s, active, now);
            Tally(bcfg, es) <= 1 && !t.cycle && t.id == s.id && t.armed == s.armed && t.seeded == s.seeded
            && Pressable(t.button) && t.button.stable == Some(false)
  {
    hide Prompt;
    if s.contact.moving {
      Pressing(bcfg, step, Button.INITIAL, false, now);
    } else {
      var (b1, e1) := step(s.button, false, s.releaseAt.value);
      Pressing(bcfg, step, s.button, false, s.releaseAt.value);
      Pressing(bcfg, step, b1, false, now);
      TallyJoin(bcfg, e1, step(b1, false, now).1);
      assert e1 + [] == e1;
    }
  }

  lemma ResolveCounts(cfg: Pads, bcfg: ButtonConfig, step: ButtonStep, s: Spatial, active: set<nat>, now: int)
    requires s.cycle ==> s.contact.started.Some? && s.contact.lastMove.Some?
    requires Prompt(bcfg, step) && Handed(s)
    ensures var (t, es) := ResolveOld(cfg, step, s, active, now);
            Tally(bcfg, es) + Open(t) <= Open(s) && t.id == s.id && t.armed == s.armed && t.seeded == s.seeded && Handed(t)
  {
    hide Finish, Prompt, Pressable, Positions;
    if s.cycle && s.releaseAt.Some? {
      FinishCounts(cfg, bcfg, step, s, active != {}, now);
    }
  }

  lemma PressCounts(cfg: Pads, bcfg: ButtonConfig, step: ButtonStep, s: Spatial, active: set<nat>, now: int)
    requires active == {} ==> LastOff(cfg.electrodes, s.raw).Some?
    requires Prompt(bcfg, step) && Pressable(s.button) && s.cycle && s.armed && s.seeded && s.button.stable.Some?
    ensures var (t, es) := PressButton(cfg, step, s, active, now);
            Tally(bcfg, es) + Open(t) <= 1 && t.id == s.id && Handed(t)
  {
    hide Prompt, LastOff;
    if !s.contact.moving {
      var at := EdgeTime(cfg, s, active, now);
      Pressing(bcfg, step, s.button, true, at);
    }
  }

  lemma FollowCounts(cfg: Pads, bcfg: ButtonConfig, s: Spatial, now: int)
    requires s.contact.lastMove.Some? && (s.contact.origin.Some? <==> s.contact.lastCenter.Some?)
    requires Pressable(s.button) && s.button.stable.Some?
    ensures var (t, es) := Follow(cfg, s, now);
            Tally(bcfg, es) == 0 && Pressable(t.button) && t.button.stable == s.button.stable
  {
    hide Positions, Center, Moved, Departing, Mixed;
    NoTally(bcfg, Follow(cfg, s, now).1);
  }

  lemma TrackCounts(cfg: Pads, bcfg: ButtonConfig, step: ButtonStep, s: Spatial, active: set<nat>, now: int)
    requires Trackable(cfg, s, active) && s.seeded && s.armed
    requires Prompt(bcfg, step) && Handed(s)
    ensures var (t, es) := Track(cfg, step, s, active, now);
            Tally(bcfg, es) + Open(t) + s.id <= Open(s) + t.id && Handed(t)
  {
    hide Prompt, LastOff, EdgeTime, Follow, PressButton, Positions;
    if s.stable != {} && s.cycle {
      FollowKeeps(cfg, s, now);
      FollowCounts(cfg, bcfg, s, now);
      var (s1, e1) := Follow(cfg, s, now);
      PressCounts(cfg, bcfg, step, s1, active, now);
      TallyJoin(bcfg, e1, PressButton(cfg, step, s1, active, now).1);
    } else if s.stable != {} && active != {} && now - s.contactSince >= cfg.debounce {
      PressCounts(cfg, bcfg, step, BeginCycle(cfg, s, now), active, now);
    } else {
      Pressing(bcfg, step, s.button, false, now);
    }
  }

  lemma IdleCounts(cfg: Pads, bcfg: ButtonConfig, step: ButtonStep, s: Spatial, mask: set<nat>, now: int)
    requires Valid(cfg, s) && Prompt(bcfg, step) && Handed(s) && !(s.seeded && s.armed)
    ensures var (t, es) := SpatialStep(cfg, step, s, mask, now);
            Tally(bcfg, es) + Open(t) + s.id <= Open(s) + t.id && Handed(t)
  {
    hide Prompt;
    NoTally(bcfg, SpatialStep(cfg, step, s, mask, now).1);
    Pressing(bcfg, step, s.button, Active(cfg, mask) != {}, now);
    Pressing(bcfg, step, Button.INITIAL, false, now);
  }

  lemma FootprintHanded(cfg: Pads, s: Spatial, active: set<nat>, now: int)
    requires s.raw.Keys == Elems(cfg.electrodes) && Handed(s)
    ensures var t := Footprint(cfg, s, active, now);
            Handed(t) && t.armed == s.armed && t.seeded == s.seeded
  {
  }

  // ----- the two halves of a sample -----

  /** The state between the contact a sample may resolve and the one it drives. */
  function Middle(cfg: Pads, step: ButtonStep, s: Spatial, x: Sweep): Spatial
    requires Valid(cfg, s)
  {
    if s.seeded && s.armed then Prepared(cfg, step, s, Active(cfg, x.mask), x.at).0 else s
  }

  /** The events of a sample up to there: they belong to the cycle before it. */
  function Closing(cfg: Pads, step: ButtonStep, s: Spatial, x: Sweep): seq<Event>
    requires Valid(cfg, s)
  {
    var active := Active(cfg, x.mask);
    if s.seeded && s.armed then RawEdge(s, active, x.at).1 + Prepared(cfg, step, s, active, x.at).1
    else SpatialStep(cfg, step, s, x.mask, x.at).1
  }

  /** The events of a sample from there: they belong to the cycle after it. */
  function Opening(cfg: Pads, step: ButtonStep, s: Spatial, x: Sweep): seq<Event>
    requires Valid(cfg, s)
  {
    if s.seeded && s.armed then
      var active := Active(cfg, x.mask);
      PreparedTrackable(cfg, step, s, active, x.at);
      Track(cfg, step, Middle(cfg, step, s, x), active, x.at).1
    else []
  }

  lemma SampleSplits(cfg: Pads, step: ButtonStep, s: Spatial, x: Sweep)
    requires Valid(cfg, s)
    ensures SpatialStep(cfg, step, s, x.mask, x.at).1 == Closing(cfg, step, s, x) + Opening(cfg, step, s, x)
  {
    hide ResolveOld, Track, Trackable, Footprint;
    if s.seeded && s.armed {
      PreparedTrackable(cfg, step, s, Active(cfg, x.mask), x.at);
    }
  }

  lemma TrackIds(cfg: Pads, step: ButtonStep, s: Spatial, active: set<nat>, now: int)
    requires Trackable(cfg, s, active)
    ensures var t := Track(cfg, step, s, active, now).0; t.id == s.id || (t.id == s.id + 1 && !s.cycle)
  {
    hide LastOff, EdgeTime, Follow, Positions, Center;
    if s.stable != {} && s.cycle {
      FollowKeeps(cfg, s, now);
    }
  }

  /** How the halves count: the first closes what it resolves, the second opens
      at most one cycle, and only when none is open. */
  lemma HalvesCount(cfg: Pads, bcfg: ButtonConfig, step: ButtonStep, s: Spatial, x: Sweep)
    requires Valid(cfg, s) && Prompt(bcfg, step) && Handed(s)
    ensures var t, m := SpatialStep(cfg, step, s, x.mask, x.at).0, Middle(cfg, step, s, x);
            && Tally(bcfg, Closing(cfg, step, s, x)) + Open(m) <= Open(s)
            && Tally(bcfg, Opening(cfg, step, s, x)) + Open(t) + s.id <= Open(m) + t.id
            && (t.id == s.id || (t.id == s.id + 1 && !m.cycle))
            && Handed(t)
  {
    hide SpatialStep, Prompt, Handed;
    if s.seeded && s.armed {
      ArmedHalves(cfg, bcfg, step, s, x);
    } else {
      IdleHalves(cfg, bcfg, step, s, x);
    }
  }

  lemma IdleHalves(cfg: Pads, bcfg: ButtonConfig, step: ButtonStep, s: Spatial, x: Sweep)
    requires Valid(cfg, s) && Prompt(bcfg, step) && Handed(s) && !(s.seeded && s.armed)
    ensures var t := SpatialStep(cfg, step, s, x.mask, x.at).0;
            && Tally(bcfg, SpatialStep(cfg, step, s, x.mask, x.at).1) + Open(s) <= Open(s)
            && Open(t) + s.id <= Open(s) + t.id && t.id == s.id && Handed(t)
  {
    hide Prompt, Footprint;
    NoTally(bcfg, SpatialStep(cfg, step, s, x.mask, x.at).1);
    IdleCounts(cfg, bcfg, step, s, x.mask, x.at);
    IdleIds(cfg, step, s, x);
  }

  lemma IdleIds(cfg: Pads, step: ButtonStep, s: Spatial, x: Sweep)
    requires Valid(cfg, s) && !(s.seeded && s.armed)
    ensures SpatialStep(cfg, step, s, x.mask, x.at).0.id == s.id
  {
  }

  lemma ArmedHalves(cfg: Pads, bcfg: ButtonConfig, step: ButtonStep, s: Spatial, x: Sweep)
    requires Valid(cfg, s) && Prompt(bcfg, step) && Handed(s) && s.seeded && s.armed
    ensures var t, m := SpatialStep(cfg, step, s, x.mask, x.at).0, Middle(cfg, step, s, x);
            && Tally(bcfg, Closing(cfg, step, s, x)) + Open(m) <= Open(s)
            && Tally(bcfg, Opening(cfg, step, s, x)) + Open(t) + s.id <= Open(m) + t.id
            && (t.id == s.id || (t.id == s.id + 1 && !m.cycle))
            && Handed(t)
  {
    hide Prompt, ResolveOld, Track, Trackable, Footprint, Elems, Pressable, Tally;
    var active := Active(cfg, x.mask);
    var (c, e0) := RawEdge(s, active, x.at);
    PreparedTrackable(cfg, step, s, active, x.at);
    FootprintFields(cfg, c, active, x.at);
    FootprintHanded(cfg, c, active, x.at);
    ResolveCounts(cfg, bcfg, step, Footprint(cfg, c, active, x.at), active, x.at);
    var (m, e1) := Prepared(cfg, step, s, active, x.at);
    TrackCounts(cfg, bcfg, step, m, active, x.at);
    TrackIds(cfg, step, m, active, x.at);
    NoTally(bcfg, e0);
    TallyJoin(bcfg, e0, e1);
  }

  lemma StepCounts(cfg: Pads, bcfg: ButtonConfig, step: ButtonStep, s: Spatial, x: Sweep)
    requires Valid(cfg, s) && Prompt(bcfg, step) && Handed(s)
    ensures var (t, es) := SpatialStep(cfg, step, s, x.mask, x.at);
            Tally(bcfg, es) + Open(t) + s.id <= Open(s) + t.id && Handed(t)
  {
    hide SpatialStep, Handed, Prompt, Closing, Opening, Middle, Tally;
    HalvesCount(cfg, bcfg, step, s, x);
    SampleSplits(cfg, step, s, x);
    TallyJoin(bcfg, Closing(cfg, step, s, x), Opening(cfg, step, s, x));
  }

  lemma {:induction false} RunHanded(cfg: Pads, bcfg: ButtonConfig, step: ButtonStep, h: seq<Sweep>)
    requires Prompt(bcfg, step)
    ensures Handed(SpatialRun(cfg, step, h).0)
  {
    hide Handed, Prompt, SpatialStep;
    if h == [] {
      StartHanded();
    } else {
      RunHanded(cfg, bcfg, step, h[..|h| - 1]);
      StepCounts(cfg, bcfg, step, SpatialRun(cfg, step, h[..|h| - 1]).0, h[|h| - 1]);
    }
  }

  lemma StartHanded()
    ensures Handed(START)
  {
  }

  // ----- at most one outcome per cycle -----

  /** The outcomes of cycle `k` in a run. */
  function CycleTally(cfg: Pads, bcfg: ButtonConfig, h: seq<Sweep>, k: nat): nat {
    if h == [] then 0
    else
      var front, x := h[..|h| - 1], h[|h| - 1];
      var s, t := SpatialRun(cfg, StepOf(bcfg), front).0, SpatialRun(cfg, StepOf(bcfg), h).0;
      CycleTally(cfg, bcfg, front, k)
      + (if k == s.id then Tally(bcfg, Closing(cfg, StepOf(bcfg), s, x)) else 0)
      + (if k == t.id then Tally(bcfg, Opening(cfg, StepOf(bcfg), s, x)) else 0)
  }

  /** What cycle `k` may have yielded so far, while `s` is the latest state. */
  predicate Bounded(s: Spatial, k: nat, tally: nat) {
    if k > s.id || k == 0 then tally == 0
    else if k == s.id then tally + Open(s) <= 1
    else tally <= 1
  }

  lemma BoundedStep(s: Spatial, m: Spatial, t: Spatial, k: nat, tally: nat, closing: nat, opening: nat)
    requires Bounded(s, k, tally) && (s.id == 0 ==> !s.cycle)
    requires closing + Open(m) <= Open(s) && opening + Open(t) + s.id <= Open(m) + t.id
    requires t.id == s.id || (t.id == s.id + 1 && !m.cycle)
    ensures Bounded(t, k, tally + (if k == s.id then closing else 0) + (if k == t.id then opening else 0))
    ensures t.id == 0 ==> !t.cycle
  {
  }

  /** Every contact cycle ends in at most one swipe, tap or hold. */
  lemma {:induction false} CycleBounded(cfg: Pads, bcfg: ButtonConfig, h: seq<Sweep>, k: nat)
    requires Prompt(bcfg, StepOf(bcfg))
    ensures var s := SpatialRun(cfg, StepOf(bcfg), h).0;
            Bounded(s, k, CycleTally(cfg, bcfg, h, k)) && (s.id == 0 ==> !s.cycle)
  {
    hide Prompt, SpatialStep, Closing, Opening, Middle, Bounded, Handed, Tally;
    if h == [] {
      BoundedStart(k);
    } else {
      var front, x := h[..|h| - 1], h[|h| - 1];
      var s := SpatialRun(cfg, StepOf(bcfg), front).0;
      CycleBounded(cfg, bcfg, front, k);
      RunHanded(cfg, bcfg, StepOf(bcfg), front);
      HalvesCount(cfg, bcfg, StepOf(bcfg), s, x);
      BoundedStep(s, Middle(cfg, StepOf(bcfg), s, x), SpatialRun(cfg, StepOf(bcfg), h).0, k, CycleTally(cfg, bcfg, front, k),
                  Tally(bcfg, Closing(cfg, StepOf(bcfg), s, x)), Tally(bcfg, Opening(cfg, StepOf(bcfg), s, x)));
    }
  }

  lemma BoundedStart(k: nat)
    ensures Bounded(START, k, 0)
  {
  }

  /** No outcome escapes the count: those of all cycles are those of the log. */
  function AllCycles(cfg: Pads, bcfg: ButtonConfig, h: seq<Sweep>, upTo: nat): nat {
    if upTo == 0 then CycleTally(cfg, bcfg, h, 0)
    else AllCycles(cfg, bcfg, h, upTo - 1) + CycleTally(cfg, bcfg, h, upTo)
  }

  lemma {:induction false} AllCyclesStep(cfg: Pads, bcfg: ButtonConfig, h: seq<Sweep>, x: Sweep, upTo: nat)
    ensures var s, t := SpatialRun(cfg, StepOf(bcfg), h).0, SpatialRun(cfg, StepOf(bcfg), h + [x]).0;
            AllCycles(cfg, bcfg, h + [x], upTo) == AllCycles(cfg, bcfg, h, upTo)
              + (if s.id <= upTo then Tally(bcfg, Closing(cfg, StepOf(bcfg), s, x)) else 0)
              + (if t.id <= upTo then Tally(bcfg, Opening(cfg, StepOf(bcfg), s, x)) else 0)
  {
    hide SpatialRun, Closing, Opening, Tally;
    assert (h + [x])[..|h|] == h;
    if upTo > 0 {
      AllCyclesStep(cfg, bcfg, h, x, upTo - 1);
    }
  }

  lemma {:induction false} NoEarlierCycles(cfg: Pads, bcfg: ButtonConfig, h: seq<Sweep>, upTo: nat)
    requires Prompt(bcfg, StepOf(bcfg)) && SpatialRun(cfg, StepOf(bcfg), h).0.id <= upTo
    ensures AllCycles(cfg, bcfg, h, upTo) == Tally(bcfg, SpatialRun(cfg, StepOf(bcfg), h).1)
  {
    hide Prompt, SpatialStep, Closing, Opening, Handed, Middle;
    if h == [] {
      EmptyCycles(cfg, bcfg, upTo);
    } else {
      var front, x := h[..|h| - 1], h[|h| - 1];
      var (s, log) := SpatialRun(cfg, StepOf(bcfg), front);
      assert h == front + [x];
      RunHanded(cfg, bcfg, StepOf(bcfg), front);
      HalvesCount(cfg, bcfg, StepOf(bcfg), s, x);
      NoEarlierCycles(cfg, bcfg, front, upTo);
      AllCyclesStep(cfg, bcfg, front, x, upTo);
      SampleSplits(cfg, StepOf(bcfg), s, x);
      TallyJoin(bcfg, Closing(cfg, StepOf(bcfg), s, x), Opening(cfg, StepOf(bcfg), s, x));
      TallyJoin(bcfg, log, Closing(cfg, StepOf(bcfg), s, x) + Opening(cfg, StepOf(bcfg), s, x));
    }
  }

  lemma {:induction false} EmptyCycles(cfg: Pads, bcfg: ButtonConfig, upTo: nat)
    ensures AllCycles(cfg, bcfg, [], upTo) == 0
  {
    if upTo > 0 {
      EmptyCycles(cfg, bcfg, upTo - 1);
    }
  }

  /** Every contact cycle of every run yields at most one swipe, tap or hold, and
      these are all the outcomes of its log, for every button recognizer without
      a debounce of its own. */
  lemma OneOutcomePerCycle(cfg: Pads, bcfg: ButtonConfig, h: seq<Sweep>)
    requires bcfg.delay == 0
    ensures forall k: nat :: CycleTally(cfg, bcfg, h, k) <= 1
    ensures AllCycles(cfg, bcfg, h, SpatialRun(cfg, StepOf(bcfg), h).0.id) == Tally(bcfg, SpatialRun(cfg, StepOf(bcfg), h).1)
  {
    hide SpatialRun, Tally, CycleTally, AllCycles, Prompt;
    ButtonsArePrompt(bcfg);
    forall k: nat ensures CycleTally(cfg, bcfg, h, k) <= 1 {
      CycleBounded(cfg, bcfg, h, k);
    }
    NoEarlierCycles(cfg, bcfg, h, SpatialRun(cfg, StepOf(bcfg), h).0.id);
  }

  /** The two recognizers the device hands contacts to. */
  lemma DeviceButtons(cfg: Pads, harness: bool, h: seq<Sweep>, k: nat)
    ensures CycleTally(cfg, if harness then HarnessButton(0) else StandardButton(0), h, k) <= 1
  {
    hide CycleTally;
    OneOutcomePerCycle(cfg, if harness then HarnessButton(0) else StandardButton(0), h);
  }

  /** Over any stretch of samples the outcomes are covered by the cycles open at
      its start or begun in it, less the one still open: at most one as long as
      no cycle begins. */
  lemma {:induction false} OutcomesWithinCycles(cfg: Pads, bcfg: ButtonConfig, h: seq<Sweep>, n: nat)
    requires bcfg.delay == 0 && n <= |h|
    ensures var (s, log) := SpatialRun(cfg, StepOf(bcfg), h[..n]);
            var (t, log') := SpatialRun(cfg, StepOf(bcfg), h);
            && Tally(bcfg, log') - Tally(bcfg, log) + Open(t) + s.id <= Open(s) + t.id
            && (t.id == s.id ==> Tally(bcfg, log') - Tally(bcfg, log) <= 1)
  {
    hide Handed, Prompt, SpatialStep;
    var step := StepOf(bcfg);
    if n == |h| {
      assert h[..n] == h;
    } else {
      var front, x := h[..|h| - 1], h[|h| - 1];
      var (r, mid) := SpatialRun(cfg, step, front);
      assert front[..n] == h[..n];
      OutcomesWithinCycles(cfg, bcfg, front, n);
      ButtonsArePrompt(bcfg);
      RunHanded(cfg, bcfg, step, front);
      StepCounts(cfg, bcfg, step, r, x);
      TallyJoin(bcfg, mid, SpatialStep(cfg, step, r, x.mask, x.at).1);
    }
  }

  // ----- a contact that has moved -----

  predicate NoPress(bcfg: ButtonConfig, es: seq<Event>) {
    forall e <- es :: Outcome(bcfg, e) ==> e.kind == Swipe
  }

  lemma ResolveMoved(cfg: Pads, bcfg: ButtonConfig, step: ButtonStep, s: Spatial, active: set<nat>, now: int)
    requires s.cycle ==> s.contact.started.Some? && s.contact.lastMove.Some? && s.contact.moving
    ensures var (t, es) := ResolveOld(cfg, step, s, active, now);
            NoPress(bcfg, es) && (t.cycle ==> t.contact.moving) && t.id == s.id
  {
    hide Positions;
  }

  lemma FollowMoved(cfg: Pads, bcfg: ButtonConfig, s: Spatial, now: int)
    requires s.contact.lastMove.Some? && (s.contact.origin.Some? <==> s.contact.lastCenter.Some?) && s.contact.moving
    ensures NoPress(bcfg, Follow(cfg, s, now).1) && Follow(cfg, s, now).0.contact.moving
  {
    hide Positions, Center, Mixed, Along;
  }

  /** No contact is open but one that has moved. */
  predicate MovedOnly(s: Spatial) {
    s.seeded && s.armed && (s.cycle ==> s.contact.moving)
  }

  lemma TrackMoved(cfg: Pads, bcfg: ButtonConfig, step: ButtonStep, s: Spatial, active: set<nat>, now: int)
    requires Trackable(cfg, s, active) && MovedOnly(s) && Prompt(bcfg, step) && Handed(s)
    ensures var (t, es) := Track(cfg, step, s, active, now);
            t.id == s.id + 1 || (t.id == s.id && NoPress(bcfg, es) && MovedOnly(t))
  {
    hide Prompt, LastOff, EdgeTime, Follow, Positions, Answers, Center;
    if s.stable != {} && s.cycle {
      FollowKeeps(cfg, s, now);
      FollowMoved(cfg, bcfg, s, now);
    } else if !s.cycle && s.stable == {} && active == {} {
      Pressing(bcfg, step, s.button, false, now);
      Silent(bcfg, s.button, step(s.button, false, now));
    }
  }

  lemma Silent(bcfg: ButtonConfig, b: Button.State, r: (Button.State, seq<Event>))
    requires Answers(bcfg, b, false, r) && b.stable == Some(false)
    ensures NoPress(bcfg, r.1)
  {
    forall e | e in r.1 ensures !Outcome(bcfg, e) {
      if Outcome(bcfg, e) {
        Tallied(bcfg, r.1, e);
      }
    }
  }

  lemma HalvesMoved(cfg: Pads, bcfg: ButtonConfig, step: ButtonStep, s: Spatial, x: Sweep)
    requires Valid(cfg, s) && Prompt(bcfg, step) && Handed(s) && MovedOnly(s)
    ensures NoPress(bcfg, Closing(cfg, step, s, x))
    ensures var t := SpatialStep(cfg, step, s, x.mask, x.at).0;
            t.id == s.id + 1 || (t.id == s.id && NoPress(bcfg, Opening(cfg, step, s, x)) && MovedOnly(t))
  {
    hide Prompt, ResolveOld, Track, Trackable, Footprint, Elems, Pressable;
    var active := Active(cfg, x.mask);
    var c := RawEdge(s, active, x.at).0;
    PreparedTrackable(cfg, step, s, active, x.at);
    FootprintFields(cfg, c, active, x.at);
    FootprintHanded(cfg, c, active, x.at);
    ResolveMoved(cfg, bcfg, step, Footprint(cfg, c, active, x.at), active, x.at);
    ResolveCounts(cfg, bcfg, step, Footprint(cfg, c, active, x.at), active, x.at);
    TrackMoved(cfg, bcfg, step, Prepared(cfg, step, s, active, x.at).0, active, x.at);
  }

  /** When a contact that has moved is resolved in the sample that begins the next
      one, only that one may tap or hold. */
  lemma MovedClosesQuietly(cfg: Pads, bcfg: ButtonConfig, h: seq<Sweep>, x: Sweep)
    requires bcfg.delay == 0 && MovedOnly(SpatialRun(cfg, StepOf(bcfg), h).0)
    ensures NoPress(bcfg, Closing(cfg, StepOf(bcfg), SpatialRun(cfg, StepOf(bcfg), h).0, x))
  {
    hide Closing, SpatialRun, Handed, Prompt, NoPress;
    ButtonsArePrompt(bcfg);
    RunHanded(cfg, bcfg, StepOf(bcfg), h);
    HalvesMoved(cfg, bcfg, StepOf(bcfg), SpatialRun(cfg, StepOf(bcfg), h).0, x);
  }

  /** From the moment a contact has moved until the next one begins, nothing in
      the log is a tap or a hold. */
  lemma {:induction false} MovedYieldsNoPress(cfg: Pads, bcfg: ButtonConfig, h: seq<Sweep>, n: nat)
    requires bcfg.delay == 0 && n <= |h|
    requires SpatialRun(cfg, StepOf(bcfg), h[..n]).0.cycle && SpatialRun(cfg, StepOf(bcfg), h[..n]).0.contact.moving
    requires SpatialRun(cfg, StepOf(bcfg), h).0.id == SpatialRun(cfg, StepOf(bcfg), h[..n]).0.id
    ensures var log, log' := SpatialRun(cfg, StepOf(bcfg), h[..n]).1, SpatialRun(cfg, StepOf(bcfg), h).1;
            log <= log' && NoPress(bcfg, log'[|log|..])
    ensures MovedOnly(SpatialRun(cfg, StepOf(bcfg), h).0)
  {
    hide Handed, Prompt, SpatialStep, Closing, Opening, Middle, Tally;
    var step := StepOf(bcfg);
    if n == |h| {
      assert h[..n] == h;
      OpenIsArmed(cfg, SpatialRun(cfg, step, h).0);
    } else {
      var front, x := h[..|h| - 1], h[|h| - 1];
      var s := SpatialRun(cfg, step, front).0;
      assert front[..n] == h[..n];
      ButtonsArePrompt(bcfg);
      RunHanded(cfg, bcfg, step, front);
      HalvesCount(cfg, bcfg, step, s, x);
      IdsGrow(cfg, bcfg, step, front, n);
      MovedYieldsNoPress(cfg, bcfg, front, n);
      HalvesMoved(cfg, bcfg, step, s, x);
      SampleSplits(cfg, step, s, x);
    }
  }

  lemma OpenIsArmed(cfg: Pads, s: Spatial)
    requires Valid(cfg, s) && s.cycle && s.contact.moving
    ensures MovedOnly(s)
  {
  }

  lemma {:induction false} IdsGrow(cfg: Pads, bcfg: ButtonConfig, step: ButtonStep, h: seq<Sweep>, n: nat)
    requires Prompt(bcfg, step) && n <= |h|
    ensures SpatialRun(cfg, step, h[..n]).0.id <= SpatialRun(cfg, step, h).0.id
  {
    hide Handed, Prompt, SpatialStep, Closing, Opening, Middle, Tally;
    if n == |h| {
      assert h[..n] == h;
    } else {
      var front := h[..|h| - 1];
      assert front[..n] == h[..n];
      IdsGrow(cfg, bcfg, step, front, n);
      RunHanded(cfg, bcfg, step, front);
      HalvesCount(cfg, bcfg, step, SpatialRun(cfg, step, front).0, h[|h| - 1]);
    }
  }

  // ----- a pad held at start-up -----

  predicate Quiet?(cfg: Pads, x: Sweep) {
    Active(cfg, x.mask) == {}
  }

  /** All selected electrodes read untouched from sample `i` to sample `j`, for
      the contact debounce. */
  predicate Released(cfg: Pads, h: seq<Sweep>, i: nat, j: nat) {
    && i <= j < |h| && (forall k :: i <= k <= j ==> Quiet?(cfg, h[k]))
    && h[j].at - h[i].at >= cfg.debounce
  }

  /** What the raw contact filter knows: when the last quiet run began. */
  ghost predicate Listens(cfg: Pads, s: Spatial, h: seq<Sweep>) {
    && h != [] && s.seeded && (s.rawActive <==> !Quiet?(cfg, h[|h| - 1]))
    && (!s.rawActive ==> exists i :: QuietFrom(cfg, s, h, i))
  }

  ghost predicate QuietFrom(cfg: Pads, s: Spatial, h: seq<Sweep>, i: nat) {
    i < |h| && s.contactSince == h[i].at && forall k :: i <= k < |h| ==> Quiet?(cfg, h[k])
  }

  /** A contact held at start-up is still suppressed, and has caused nothing but
      invalidations; or everything was released since. */
  ghost predicate Suppressed(cfg: Pads, s: Spatial, log: seq<Event>, h: seq<Sweep>) {
    || (!s.armed && forall e <- log :: e.kind == Invalidate)
    || exists i, j :: Released(cfg, h, i, j)
  }

  lemma StepListens(cfg: Pads, step: ButtonStep, s: Spatial, h: seq<Sweep>, x: Sweep)
    requires Valid(cfg, s) && (h == [] || Listens(cfg, s, h)) && (h == [] <==> !s.seeded)
    ensures Listens(cfg, SpatialStep(cfg, step, s, x.mask, x.at).0, h + [x])
  {
    var t := SpatialStep(cfg, step, s, x.mask, x.at).0;
    StepFilter(cfg, step, s, x.mask, x.at);
    hide SpatialStep;
    if Quiet?(cfg, x) {
      if h != [] && Quiet?(cfg, h[|h| - 1]) {
        var i :| QuietFrom(cfg, s, h, i);
        assert QuietFrom(cfg, t, h + [x], i);
      } else {
        assert QuietFrom(cfg, t, h + [x], |h|);
      }
    }
  }

  /** A sample changes the raw filter only at a raw edge. */
  lemma StepFilter(cfg: Pads, step: ButtonStep, s: Spatial, mask: set<nat>, now: int)
    requires Valid(cfg, s)
    ensures var t := SpatialStep(cfg, step, s, mask, now).0;
            var touched := Active(cfg, mask) != {};
            && t.seeded && t.rawActive == touched
            && t.contactSince == if s.seeded && touched == s.rawActive then s.contactSince else now
  {
    if s.seeded && s.armed {
      hide ResolveOld, Track, Trackable, Footprint, Elems;
      var active := Active(cfg, mask);
      var c := RawEdge(s, active, now).0;
      PreparedTrackable(cfg, step, s, active, now);
      FootprintFilter(cfg, c, active, now);
      ResolveFilter(cfg, step, Footprint(cfg, c, active, now), active, now);
      TrackFilter(cfg, step, Prepared(cfg, step, s, active, now).0, active, now);
    }
  }

  lemma FootprintFilter(cfg: Pads, s: Spatial, active: set<nat>, now: int)
    requires s.raw.Keys == Elems(cfg.electrodes)
    ensures var t := Footprint(cfg, s, active, now);
            t.rawActive == s.rawActive && t.contactSince == s.contactSince && t.seeded == s.seeded
            && t.cycle == s.cycle && t.contact == s.contact
  {
  }

  lemma ResolveFilter(cfg: Pads, step: ButtonStep, s: Spatial, active: set<nat>, now: int)
    requires s.cycle ==> s.contact.started.Some? && s.contact.lastMove.Some?
    ensures var t := ResolveOld(cfg, step, s, active, now).0;
            t.rawActive == s.rawActive && t.contactSince == s.contactSince && t.seeded == s.seeded
  {
    hide Positions;
  }

  lemma TrackFilter(cfg: Pads, step: ButtonStep, s: Spatial, active: set<nat>, now: int)
    requires Trackable(cfg, s, active)
    ensures var t := Track(cfg, step, s, active, now).0;
            t.rawActive == s.rawActive && t.contactSince == s.contactSince && t.seeded == s.seeded
  {
    hide Positions, LastOff, EdgeTime, Center, Moved, Departing, Mixed;
    if s.cycle && s.stable != {} {
      FollowKeeps(cfg, s, now);
    }
  }

  lemma StepSuppressed(cfg: Pads, step: ButtonStep, s: Spatial, log: seq<Event>, h: seq<Sweep>, x: Sweep)
    requires Valid(cfg, s) && h != [] && Listens(cfg, s, h) && Suppressed(cfg, s, log, h)
    ensures var (t, es) := SpatialStep(cfg, step, s, x.mask, x.at); Suppressed(cfg, t, log + es, h + [x])
  {
    if i, j :| Released(cfg, h, i, j) {
      assert Released(cfg, h + [x], i, j);
    } else {
      var t := SpatialStep(cfg, step, s, x.mask, x.at).0;
      if t.armed {
        StepListens(cfg, step, s, h, x);
        var i :| QuietFrom(cfg, t, h + [x], i);
        assert Released(cfg, h + [x], i, |h|);
      }
    }
  }

  lemma FirstSuppressed(cfg: Pads, step: ButtonStep, x: Sweep)
    requires !Quiet?(cfg, x)
    ensures var (s, es) := SpatialStep(cfg, step, START, x.mask, x.at); Suppressed(cfg, s, es, [x])
  {
  }

  /** A contact held at start-up causes nothing but invalidations until every
      electrode has been released for the contact debounce. */
  lemma {:induction false} HeldAtStart(cfg: Pads, step: ButtonStep, h: seq<Sweep>)
    requires h != [] && !Quiet?(cfg, h[0])
    ensures var (s, log) := SpatialRun(cfg, step, h); Listens(cfg, s, h) && Suppressed(cfg, s, log, h)
  {
    var front, x := h[..|h| - 1], h[|h| - 1];
    assert h == front + [x];
    if front == [] {
      assert h == [x];
      FirstSuppressed(cfg, step, x);
      StepListens(cfg, step, START, [], x);
    } else {
      hide SpatialStep, Suppressed, Listens, Quiet?;
      var (s, log) := SpatialRun(cfg, step, front);
      HeldAtStart(cfg, step, front);
      StepSuppressed(cfg, step, s, log, front, x);
      ListensSeeded(cfg, s, front);
      StepListens(cfg, step, s, front, x);
    }
  }

  lemma ListensSeeded(cfg: Pads, s: Spatial, h: seq<Sweep>)
    requires Listens(cfg, s, h)
    ensures s.seeded && h != []
  {
  }
}
