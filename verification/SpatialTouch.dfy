/** The spatial recognizer: debounced electrode footprints, a contact cycle
    that resolves to a swipe or hands its contact to the button recognizer.
    Times are milliseconds; a mask is the set of touched electrodes. */
module SpatialTouch {
  import opened Common
  import Button = TouchButton
  import opened ButtonEvents = TouchButton

  /** Long enough for a finger to move to the next pad: the gap is not a release. */
  const SWIPE_RELEASE := 120
  const SWIPE_MAX_GAP := 150
  const SWIPE_MIN_TRAVEL := 30
  const FOOTPRINT_DELAY := 5

  datatype SpatialConfig = SpatialConfig(axis: seq<nat>, electrodes: seq<nat>, debounce: nat)

  predicate ValidConfig(c: SpatialConfig) {
    && c.electrodes != []
    && 2 <= |c.axis|
    && (forall i, j :: 0 <= i < j < |c.axis| ==> c.axis[i] != c.axis[j])
    && (forall p <- c.axis :: p in c.electrodes)
  }

  type Pads = c: SpatialConfig | ValidConfig(c) witness SpatialConfig([0, 1], [0, 1], 30)

  function FootprintDelay(cfg: Pads): nat {
    if cfg.debounce < FOOTPRINT_DELAY then cfg.debounce else FOOTPRINT_DELAY
  }

  /** The button recognizer a contact is handed to, as the factory configures it. */
  type ButtonStep = (Button.State, bool, int) -> (Button.State, seq<Event>)

  function StepOf(bcfg: ButtonConfig): ButtonStep {
    (s, touched, at) => Button.Step(bcfg, s, touched, at)
  }

  /** Raw value of one electrode and the time it last changed. */
  datatype Raw = Raw(value: bool, since: int)

  /** What one contact cycle has shown so far. */
  datatype Contact = Contact(
    seen: set<nat>,
    outside: set<nat>,
    previous: set<nat>,
    origin: Option<real>,
    lastCenter: Option<real>,
    lastMove: Option<int>,
    started: Option<int>,
    direction: int,
    peak: real,
    moving: bool,
    invalid: bool)

  const NO_CONTACT := Contact({}, {}, {}, None, None, None, None, 0, 0.0, false, false)

  datatype Spatial = Spatial(
    rawActive: bool,
    contactSince: int,
    button: Button.State,
    raw: map<nat, Raw>,
    stable: set<nat>,
    seeded: bool,
    armed: bool,
    cycle: bool,
    releaseAt: Option<int>,
    id: nat,
    contact: Contact)

  const START := Spatial(false, 0, Button.INITIAL, map[], {}, false, false, false, None, 0, NO_CONTACT)

  function ClearCycle(s: Spatial): Spatial {
    s.(cycle := false, contact := NO_CONTACT, releaseAt := None)
  }

  function CancelAll(s: Spatial): Spatial {
    ClearCycle(s.(button := Button.Cancelled(s.button))).(armed := false)
  }

  // ----- geometry -----

  /** Axis positions of a set of electrodes. */
  function Positions(axis: seq<nat>, pads: set<nat>): set<nat> {
    set k: nat | k < |axis| && axis[k] in pads
  }

  function SumBelow(ps: set<nat>, n: nat): nat {
    if n == 0 then 0 else SumBelow(ps, n - 1) + if n - 1 in ps then n - 1 else 0
  }

  /** Mean position. */
  function Center(n: nat, ps: set<nat>): real
    requires ps != {}
  {
    SumBelow(ps, n) as real / |ps| as real
  }

  function Abs(x: real): real {
    if x < 0.0 then -x else x
  }

  /** A signed distance measured along a direction, which is 1, -1 or 0. */
  function Along(x: real, direction: int): real {
    if direction > 0 then x else if direction < 0 then -x else 0.0
  }

  function Off(axis: seq<nat>, pads: set<nat>): set<nat> {
    set p | p in pads && p !in axis
  }

  function Span(cfg: Pads): int {
    if |cfg.axis| - 1 < 3 then |cfg.axis| - 1 else 3
  }

  /** The latest change among electrodes that read untouched. */
  function LastOff(pads: seq<nat>, raw: map<nat, Raw>): Option<int> {
    if pads == [] then None
    else
      var rest := LastOff(pads[1..], raw);
      if pads[0] in raw && !raw[pads[0]].value && (rest.None? || raw[pads[0]].since > rest.value)
      then Some(raw[pads[0]].since) else rest
  }

  lemma {:induction false} LastOffExists(pads: seq<nat>, raw: map<nat, Raw>)
    ensures LastOff(pads, raw).Some? <==> exists i :: i in pads && i in raw && !raw[i].value
  {
    if pads != [] {
      LastOffExists(pads[1..], raw);
      assert forall i :: i in pads <==> i == pads[0] || i in pads[1..];
    }
  }

  // ----- what every reachable state satisfies -----

  ghost predicate Valid(cfg: Pads, s: Spatial) {
    && s.stable <= Elems(cfg.electrodes)
    && (s.seeded ==> s.raw.Keys == Elems(cfg.electrodes))
    && (s.cycle ==> s.seeded && s.armed && s.contact.started.Some? && s.contact.lastMove.Some?)
    && (s.cycle && s.releaseAt.None? ==> s.stable != {})
    && (!s.cycle ==> s.releaseAt.None? && !s.contact.moving && s.contact.origin.None?)
    && (s.contact.origin.Some? <==> s.contact.lastCenter.Some?)
  }

  // ----- one sample -----

  function Active(cfg: Pads, mask: set<nat>): set<nat> {
    set i | i in cfg.electrodes && i in mask
  }

  function SeedSpatial(cfg: Pads, step: ButtonStep, s: Spatial, active: set<nat>, now: int): Spatial {
    s.(seeded := true, rawActive := active != {}, contactSince := now, stable := active,
       raw := map i | i in cfg.electrodes :: Raw(i in active, now),
       armed := active == {}, button := step(s.button, active != {}, now).0)
  }

  function RawEdge(s: Spatial, active: set<nat>, now: int): (Spatial, seq<Event>) {
    if (active != {}) == s.rawActive then (s, [])
    else (s.(rawActive := active != {}, contactSince := now), if active != {} then [Plain(Invalidate, s.id)] else [])
  }

  function Refresh(r: Raw, value: bool, now: int): Raw {
    if value != r.value then Raw(value, now) else r
  }

  /** Per-electrode debounce of the footprint. */
  function Footprint(cfg: Pads, s: Spatial, active: set<nat>, now: int): Spatial
    requires s.raw.Keys == Elems(cfg.electrodes)
  {
    var raw := map i | i in s.raw :: Refresh(s.raw[i], i in active, now);
    s.(raw := raw,
       stable := set i | i in cfg.electrodes &&
                         (if now - raw[i].since >= FootprintDelay(cfg) then i in active else i in s.stable))
  }

  function Rearm(cfg: Pads, step: ButtonStep, s: Spatial, active: set<nat>, now: int): Spatial {
    if s.stable == {} && active == {} && now - s.contactSince >= cfg.debounce
    then s.(armed := true, button := step(Button.INITIAL, false, now).0)
    else s
  }

  predicate SwipeValid(cfg: Pads, s: Spatial)
    requires s.contact.started.Some? && s.contact.lastMove.Some?
  {
    !s.contact.invalid && s.contact.peak >= Span(cfg) as real && s.contact.lastMove.value - s.contact.started.value >= SWIPE_MIN_TRAVEL
  }

  /** Resolves the contact: a swipe if it travelled validly, nothing if it
      travelled otherwise, and else a release for the button. */
  function Finish(cfg: Pads, step: ButtonStep, s: Spatial, active: bool, now: int): (Spatial, seq<Event>)
    requires s.cycle && s.releaseAt.Some? && s.contact.started.Some? && s.contact.lastMove.Some?
  {
    if s.contact.moving then
      (ClearCycle(s.(button := step(Button.INITIAL, false, now).0)),
       if SwipeValid(cfg, s) then [Event(Swipe, s.id, 0, 0, s.contact.direction)] else [])
    else
      var (b1, e1) := step(s.button, false, s.releaseAt.value);
      var (b2, e2) := if active then (b1, []) else step(b1, false, now);
      (ClearCycle(s.(button := b2)), e1 + e2)
  }

  /** An old contact is resolved before the next one is looked at. */
  function ResolveOld(cfg: Pads, step: ButtonStep, s: Spatial, active: set<nat>, now: int): (Spatial, seq<Event>)
    requires s.cycle ==> s.contact.started.Some? && s.contact.lastMove.Some?
  {
    if !s.cycle || s.releaseAt.None? then (s, [])
    else if now - s.releaseAt.value >= SWIPE_RELEASE then Finish(cfg, step, s, active != {}, now)
    else if s.stable == {} then (s, [])
    else if s.contactSince - s.releaseAt.value < cfg.debounce then (s.(releaseAt := None), [])
    else if !s.contact.moving && Positions(cfg.axis, s.stable) <= s.contact.seen then Finish(cfg, step, s, active != {}, now)
    else (s.(releaseAt := None), [])
  }

  function BeginCycle(cfg: Pads, s: Spatial, now: int): Spatial {
    var ps := Positions(cfg.axis, s.stable);
    var center := if ps == {} then None else Some(Center(|cfg.axis|, ps));
    s.(cycle := true, id := s.id + 1,
       contact := s.contact.(started := Some(now), lastMove := Some(now), outside := Off(cfg.axis, s.stable),
                             seen := ps, previous := ps, origin := center, lastCenter := center))
  }

  /** An undeclared pad joined a spatial contact, or the other way round. */
  predicate Mixed(cfg: Pads, s: Spatial) {
    || (Positions(cfg.axis, s.stable) != {} && s.contact.origin.None?)
    || (s.contact.origin.Some? && Off(cfg.axis, s.stable) - s.contact.outside != {})
  }

  function Abandon(s: Spatial): (Spatial, seq<Event>) {
    (s.(contact := s.contact.(moving := true, invalid := true), button := Button.Cancelled(s.button)),
     [Plain(Invalidate, s.id), Plain(Release, s.id)])
  }

  /** A new pad must come soon and near enough. A far-off arrival is a second
      finger, unless it continues the direction of a contact already moving. */
  function Gain(c: Contact, ps: set<nat>, jump: real, now: int): Contact
    requires c.lastMove.Some?
  {
    if ps - c.seen == {} then c
    else
      var far := Abs(jump) > 3.0 && !(c.moving && Along(jump, c.direction) > 0.0);
      var slow := now - c.lastMove.value > SWIPE_MAX_GAP;
      c.(invalid := c.invalid || far || slow, lastMove := Some(now), seen := c.seen + ps)
  }

  /** One whole position of displacement turns the contact into a travel. */
  predicate Departs(c: Contact, gained: bool, displacement: real) {
    gained && Abs(displacement) >= 1.0 && !c.moving
  }

  function Depart(c: Contact, displacement: real): Contact {
    c.(moving := true, direction := if displacement > 0.0 then 1 else -1)
  }

  /** Coming back more than one position spoils the travel; only arrivals advance it. */
  function Advance(c: Contact, gained: bool, arrived: bool, progress: real): Contact {
    if !c.moving then c
    else c.(invalid := c.invalid || (arrived && progress < c.peak - 1.0),
            peak := if gained && progress > c.peak then progress else c.peak)
  }

  function Departing(c: Contact, ps: set<nat>, center: real, now: int): bool
    requires c.origin.Some? && c.lastCenter.Some? && c.lastMove.Some?
  {
    Departs(Gain(c, ps, center - c.lastCenter.value, now), ps - c.seen != {}, center - c.origin.value)
  }

  /** Movement of a contact that lies on the axis. */
  function Moved(c: Contact, ps: set<nat>, center: real, now: int): (m: Contact)
    requires c.origin.Some? && c.lastCenter.Some? && c.lastMove.Some?
    ensures m.origin == c.origin && m.started == c.started && m.lastMove.Some? && m.lastCenter.Some?
  {
    var gained := ps - c.seen != {};
    var displacement := center - c.origin.value;
    var c1 := Gain(c, ps, center - c.lastCenter.value, now);
    var c2 := if Departs(c1, gained, displacement) then Depart(c1, displacement) else c1;
    var c3 := Advance(c2, gained, ps - c.previous != {}, Along(displacement, c2.direction));
    c3.(previous := ps, lastCenter := Some(center))
  }

  function Travel(cfg: Pads, s: Spatial, now: int): (Spatial, seq<Event>)
    requires Positions(cfg.axis, s.stable) != {}
    requires s.contact.origin.Some? && s.contact.lastCenter.Some? && s.contact.lastMove.Some?
  {
    var ps := Positions(cfg.axis, s.stable);
    var center := Center(|cfg.axis|, ps);
    var departs := Departing(s.contact, ps, center, now);
    (s.(button := if departs then Button.Cancelled(s.button) else s.button, contact := Moved(s.contact, ps, center, now)),
     if departs then [Plain(Invalidate, s.id), Plain(Release, s.id)] else [])
  }

  function Follow(cfg: Pads, s: Spatial, now: int): (Spatial, seq<Event>)
    requires s.contact.lastMove.Some? && (s.contact.origin.Some? <==> s.contact.lastCenter.Some?)
  {
    if Mixed(cfg, s) then Abandon(s)
    else if Positions(cfg.axis, s.stable) != {} && s.contact.origin.Some? then Travel(cfg, s, now)
    else (s, [])
  }

  /** The time the button is told the contact has been touched since. */
  function EdgeTime(cfg: Pads, s: Spatial, active: set<nat>, now: int): int
    requires active == {} ==> LastOff(cfg.electrodes, s.raw).Some?
  {
    if active == {} then LastOff(cfg.electrodes, s.raw).value
    else if s.button.pressStart.None? then s.contactSince
    else now
  }

  /** A contact that has not travelled is a button press. */
  function PressButton(cfg: Pads, step: ButtonStep, s: Spatial, active: set<nat>, now: int): (Spatial, seq<Event>)
    requires active == {} ==> LastOff(cfg.electrodes, s.raw).Some?
  {
    if s.contact.moving then (s, [])
    else
      var (b, events) := step(s.button, true, EdgeTime(cfg, s, active, now));
      var pressed := s.(button := b);
      (if exists e :: e in events && e.kind == Hold then CancelAll(pressed) else pressed, events)
  }

  /** What `Track` needs: the values it dereferences are present. */
  ghost predicate Trackable(cfg: Pads, s: Spatial, active: set<nat>) {
    && (s.cycle ==> s.contact.started.Some? && s.contact.lastMove.Some?)
    && (s.contact.origin.Some? <==> s.contact.lastCenter.Some?)
    && (s.stable != {} && active == {} ==> LastOff(cfg.electrodes, s.raw).Some?)
    && (s.stable == {} && s.cycle && s.releaseAt.None? ==> LastOff(cfg.electrodes, s.raw).Some?)
  }

  /** The electrodes of the current sample drive the contact cycle. */
  function Track(cfg: Pads, step: ButtonStep, s: Spatial, active: set<nat>, now: int): (Spatial, seq<Event>)
    requires Trackable(cfg, s, active)
  {
    if s.stable != {} then
      if !s.cycle then
        if active == {} || now - s.contactSince < cfg.debounce then (s, [])
        else PressButton(cfg, step, BeginCycle(cfg, s, now), active, now)
      else
        var (s1, e1) := Follow(cfg, s, now);
        FollowKeeps(cfg, s, now);
        var (s2, e2) := PressButton(cfg, step, s1, active, now);
        (s2, e1 + e2)
    else if s.cycle then
      (if s.releaseAt.None? then s.(releaseAt := LastOff(cfg.electrodes, s.raw)) else s, [])
    else if active == {} then
      var (b, events) := step(s.button, false, now);
      (s.(button := b), events)
    else (s, [])
  }

  lemma FollowKeeps(cfg: Pads, s: Spatial, now: int)
    requires s.contact.lastMove.Some? && (s.contact.origin.Some? <==> s.contact.lastCenter.Some?)
    ensures var t := Follow(cfg, s, now).0;
            && t.raw == s.raw && t.stable == s.stable && t.cycle == s.cycle && t.armed == s.armed && t.seeded == s.seeded
            && t.contact.started == s.contact.started && t.contact.lastMove.Some? && t.releaseAt == s.releaseAt && t.id == s.id
            && t.contact.origin == s.contact.origin && (t.contact.origin.Some? <==> t.contact.lastCenter.Some?)
  {
  }

  lemma FootprintFacts(cfg: Pads, s: Spatial, active: set<nat>, now: int)
    requires s.raw.Keys == Elems(cfg.electrodes)
    ensures var t := Footprint(cfg, s, active, now);
            && t.raw.Keys == Elems(cfg.electrodes) && t.stable <= Elems(cfg.electrodes)
            && (forall i <- t.raw.Keys :: t.raw[i].value == (i in active))
            && (active == {} ==> LastOff(cfg.electrodes, t.raw).Some?)
            && (t.stable == {} && s.stable != {} && s.stable <= Elems(cfg.electrodes) ==> LastOff(cfg.electrodes, t.raw).Some?)
  {
    var t := Footprint(cfg, s, active, now);
    LastOffExists(cfg.electrodes, t.raw);
    assert cfg.electrodes[0] in Elems(cfg.electrodes);
    if t.stable == {} && s.stable != {} && s.stable <= Elems(cfg.electrodes) {
      var i :| i in s.stable;
      assert i in cfg.electrodes && i in t.raw && i !in t.stable;
    }
  }

  lemma ResolveOldFacts(cfg: Pads, step: ButtonStep, s: Spatial, active: set<nat>, now: int)
    requires s.cycle ==> s.contact.started.Some? && s.contact.lastMove.Some?
    requires !s.cycle ==> s.releaseAt.None? && !s.contact.moving && s.contact.origin.None?
    requires s.contact.origin.Some? <==> s.contact.lastCenter.Some?
    ensures var t := ResolveOld(cfg, step, s, active, now).0;
            && t.raw == s.raw && t.stable == s.stable && t.armed == s.armed && t.seeded == s.seeded
            && (t.cycle ==> s.cycle && t.contact.started == s.contact.started && t.contact.lastMove == s.contact.lastMove)
            && (t.cycle && t.releaseAt.None? ==> s.releaseAt.None? || s.stable != {})
            && (!t.cycle ==> t.releaseAt.None? && !t.contact.moving && t.contact.origin.None?)
            && (t.contact.origin.Some? <==> t.contact.lastCenter.Some?)
  {
  }

  /** The state and events after debouncing and resolving a pending contact. */
  function Prepared(cfg: Pads, step: ButtonStep, s: Spatial, active: set<nat>, now: int): (Spatial, seq<Event>)
    requires Valid(cfg, s) && s.seeded
  {
    ResolveOld(cfg, step, Footprint(cfg, RawEdge(s, active, now).0, active, now), active, now)
  }

  lemma PreparedTrackable(cfg: Pads, step: ButtonStep, s: Spatial, active: set<nat>, now: int)
    requires Valid(cfg, s) && s.seeded
    ensures Trackable(cfg, Prepared(cfg, step, s, active, now).0, active)
  {
    var c := RawEdge(s, active, now).0;
    FootprintFacts(cfg, c, active, now);
    ResolveOldFacts(cfg, step, Footprint(cfg, c, active, now), active, now);
  }

  function SpatialStep(cfg: Pads, step: ButtonStep, s: Spatial, mask: set<nat>, now: int): (Spatial, seq<Event>)
    requires Valid(cfg, s)
  {
    var active := Active(cfg, mask);
    if !s.seeded then (SeedSpatial(cfg, step, s, active, now), [])
    else
      var (c, e0) := RawEdge(s, active, now);
      if !s.armed then (Rearm(cfg, step, Footprint(cfg, c, active, now), active, now), e0)
      else
        PreparedTrackable(cfg, step, s, active, now);
        var (s2, e1) := Prepared(cfg, step, s, active, now);
        var (s3, e2) := Track(cfg, step, s2, active, now);
        (s3, e0 + e1 + e2)
  }

  lemma TrackValid(cfg: Pads, step: ButtonStep, s: Spatial, active: set<nat>, now: int)
    requires Trackable(cfg, s, active) && s.seeded && s.armed
    requires s.raw.Keys == Elems(cfg.electrodes) && s.stable <= Elems(cfg.electrodes)
    requires !s.cycle ==> s.releaseAt.None? && !s.contact.moving && s.contact.origin.None?
    ensures Valid(cfg, Track(cfg, step, s, active, now).0)
  {
    if s.cycle && s.stable != {} {
      FollowKeeps(cfg, s, now);
    }
  }

  /** Every sample keeps the state usable: no sequence of samples makes the
      recognizer use an absent value or the maximum of nothing. */
  lemma SpatialStepValid(cfg: Pads, step: ButtonStep, s: Spatial, mask: set<nat>, now: int)
    requires Valid(cfg, s)
    ensures Valid(cfg, SpatialStep(cfg, step, s, mask, now).0)
  {
    var active := Active(cfg, mask);
    if !s.seeded {
      assert active <= Elems(cfg.electrodes);
      assert SeedSpatial(cfg, step, s, active, now).raw.Keys == Elems(cfg.electrodes);
    } else {
      var c := RawEdge(s, active, now).0;
      var f := Footprint(cfg, c, active, now);
      FootprintFacts(cfg, c, active, now);
      if s.armed {
        PreparedTrackable(cfg, step, s, active, now);
        ResolveOldFacts(cfg, step, f, active, now);
        TrackValid(cfg, step, Prepared(cfg, step, s, active, now).0, active, now);
      }
    }
  }

  // ----- the recognizer object -----

  class SpatialRecognizer {
    const cfg: Pads
    const bcfg: ButtonConfig
    var rawActive: bool
    var contactSince: int
    var button: Button.GestureRecognizer
    var raw: map<nat, Raw>
    var stable: set<nat>
    var seeded: bool
    var armed: bool
    var cycle: bool
    var releaseAt: Option<int>
    var id: nat
    var contact: Contact

    ghost function View(): Spatial
      reads this, button
    {
      Spatial(rawActive, contactSince, button.View(), raw, stable, seeded, armed, cycle, releaseAt, id, contact)
    }

    ghost predicate Ok()
      reads this, button
    {
      button.cfg == bcfg && Valid(cfg, View())
    }

    constructor (cfg: Pads, bcfg: ButtonConfig)
      ensures this.cfg == cfg && this.bcfg == bcfg && fresh(button)
      ensures Ok() && View() == START
    {
      this.cfg, this.bcfg := cfg, bcfg;
      button := new Button.GestureRecognizer(bcfg);
      rawActive, contactSince, raw, stable, seeded, armed, id := false, 0, map[], {}, false, false, 0;
      cycle, releaseAt, contact := false, None, NO_CONTACT;
    }

    method Clear()
      modifies this
      ensures View() == ClearCycle(old(View())) && button == old(button)
    {
      cycle, contact, releaseAt := false, NO_CONTACT, None;
    }

    method Cancel()
      modifies this, button
      ensures View() == CancelAll(old(View())) && button == old(button)
    {
      button.Cancel();
      Clear();
      armed := false;
    }

    /** Replaces the button recognizer by a new one that has seen no touch. */
    method NewButton(now: int)
      modifies this
      ensures View() == old(View()).(button := StepOf(bcfg)(Button.INITIAL, false, now).0)
      ensures fresh(button) && button.cfg == bcfg
    {
      button := new Button.GestureRecognizer(bcfg);
      var seed := button.Update(false, now);
    }

    method FinishContact(active: bool, now: int) returns (events: seq<Event>)
      requires cycle && releaseAt.Some? && contact.started.Some? && contact.lastMove.Some? && button.cfg == bcfg
      modifies this, button
      ensures (View(), events) == Finish(cfg, StepOf(bcfg), old(View()), active, now)
      ensures (button == old(button) || fresh(button)) && button.cfg == bcfg
    {
      events := [];
      if contact.moving {
        var valid := !contact.invalid && contact.peak >= Span(cfg) as real && contact.lastMove.value - contact.started.value >= SWIPE_MIN_TRAVEL;
        if valid {
          events := [Event(Swipe, id, 0, 0, contact.direction)];
        }
        NewButton(now);
      } else {
        events := button.Update(false, releaseAt.value);
        var more: seq<Event> := [];
        if !active {
          more := button.Update(false, now);
        }
        events := events + more;
      }
      Clear();
    }

    method ReadElectrodes(active: set<nat>, now: int)
      requires seeded && Ok()
      modifies this`raw, this`stable
      ensures View() == Footprint(cfg, old(View()), active, now)
    {
      ghost var raw0, stable0 := raw, stable;
      for k := 0 to |cfg.electrodes|
        invariant raw.Keys == raw0.Keys && stable <= raw0.Keys
        invariant forall i <- raw.Keys ::
          raw[i] == if i in cfg.electrodes[..k] then Refresh(raw0[i], i in active, now) else raw0[i]
        invariant forall i <- raw.Keys ::
          (i in stable <==> if i in cfg.electrodes[..k] && now - Refresh(raw0[i], i in active, now).since >= FootprintDelay(cfg)
                            then i in active else i in stable0)
      {
        var i := cfg.electrodes[k];
        assert i in Elems(cfg.electrodes);
        assert forall j :: j in cfg.electrodes[..k + 1] <==> j in cfg.electrodes[..k] || j == i;
        var value := i in active;
        var since := raw[i].since;
        if value != raw[i].value {
          raw := raw[i := Raw(value, now)];
          since := now;
        }
        if now - since >= FootprintDelay(cfg) {
          stable := if value then stable + {i} else stable - {i};
        }
      }
      ghost var target := Footprint(cfg, old(View()), active, now);
      assert cfg.electrodes[..|cfg.electrodes|] == cfg.electrodes;
      assert forall i :: i in cfg.electrodes <==> i in Elems(cfg.electrodes);
      assert raw == target.raw;
      assert stable == target.stable;
    }

    method ResolvePending(active: set<nat>, now: int) returns (events: seq<Event>)
      requires (cycle ==> contact.started.Some? && contact.lastMove.Some?) && button.cfg == bcfg
      modifies this, button
      ensures (View(), events) == ResolveOld(cfg, StepOf(bcfg), old(View()), active, now)
      ensures (button == old(button) || fresh(button)) && button.cfg == bcfg
    {
      events := [];
      if cycle && releaseAt.Some? {
        if now - releaseAt.value >= SWIPE_RELEASE {
          events := FinishContact(active != {}, now);
        } else if stable != {} {
          if contactSince - releaseAt.value < cfg.debounce {
            releaseAt := None;
          } else if !contact.moving && Positions(cfg.axis, stable) <= contact.seen {
            events := FinishContact(active != {}, now);
          } else {
            releaseAt := None;
          }
        }
      }
    }

    method GainPads(positions: set<nat>, jump: real, now: int) returns (gained: bool)
      requires contact.lastMove.Some?
      modifies this`contact
      ensures contact == Gain(old(contact), positions, jump, now)
      ensures gained == (positions - old(contact).seen != {})
    {
      gained := positions - contact.seen != {};
      if gained {
        if Abs(jump) > 3.0 && !(contact.moving && Along(jump, contact.direction) > 0.0) {
          contact := contact.(invalid := true);
        }
        if now - contact.lastMove.value > SWIPE_MAX_GAP {
          contact := contact.(invalid := true);
        }
        contact := contact.(lastMove := Some(now), seen := contact.seen + positions);
      }
    }

    method AdvanceTravel(gained: bool, arrived: bool, displacement: real)
      modifies this`contact
      ensures contact == Advance(old(contact), gained, arrived, Along(displacement, old(contact).direction))
    {
      if contact.moving {
        var progress := Along(displacement, contact.direction);
        if arrived && progress < contact.peak - 1.0 {
          contact := contact.(invalid := true);
        }
        if gained && progress > contact.peak {
          contact := contact.(peak := progress);
        }
      }
    }

    method TravelOn(now: int) returns (events: seq<Event>)
      requires Positions(cfg.axis, stable) != {}
      requires contact.origin.Some? && contact.lastCenter.Some? && contact.lastMove.Some?
      modifies this, button
      ensures (View(), events) == Travel(cfg, old(View()), now)
      ensures button == old(button)
    {
      events := [];
      var positions := Positions(cfg.axis, stable);
      var center := Center(|cfg.axis|, positions);
      var displacement := center - contact.origin.value;
      var arrived := positions - contact.previous != {};
      var gained := GainPads(positions, center - contact.lastCenter.value, now);
      if gained && Abs(displacement) >= 1.0 && !contact.moving {
        contact := contact.(moving := true, direction := if displacement > 0.0 then 1 else -1);
        button.Cancel();
        events := [Plain(Invalidate, id), Plain(Release, id)];
      }
      AdvanceTravel(gained, arrived, displacement);
      contact := contact.(previous := positions, lastCenter := Some(center));
    }

    method FollowContact(now: int) returns (events: seq<Event>)
      requires contact.lastMove.Some? && (contact.origin.Some? <==> contact.lastCenter.Some?)
      modifies this, button
      ensures (View(), events) == Follow(cfg, old(View()), now)
      ensures button == old(button)
    {
      events := [];
      var positions := Positions(cfg.axis, stable);
      if (positions != {} && contact.origin.None?) || (contact.origin.Some? && Off(cfg.axis, stable) - contact.outside != {}) {
        contact := contact.(moving := true, invalid := true);
        button.Cancel();
        events := [Plain(Invalidate, id), Plain(Release, id)];
      } else if positions != {} && contact.origin.Some? {
        events := TravelOn(now);
      }
    }

    method PressOn(active: set<nat>, now: int) returns (events: seq<Event>)
      requires active == {} ==> LastOff(cfg.electrodes, raw).Some?
      requires button.cfg == bcfg
      modifies this, button
      ensures (View(), events) == PressButton(cfg, StepOf(bcfg), old(View()), active, now)
      ensures button == old(button)
    {
      events := [];
      if !contact.moving {
        var edgeTime := if button.pressStart.None? then contactSince else now;
        if active == {} {
          edgeTime := LastOff(cfg.electrodes, raw).value;
        }
        events := button.Update(true, edgeTime);
        if exists e :: e in events && e.kind == Hold {
          Cancel();
        }
      }
    }

    method StartCycle(now: int)
      modifies this
      ensures View() == BeginCycle(cfg, old(View()), now) && button == old(button)
    {
      var positions := Positions(cfg.axis, stable);
      var center := if positions == {} then None else Some(Center(|cfg.axis|, positions));
      cycle := true;
      id := id + 1;
      contact := contact.(started := Some(now), lastMove := Some(now), outside := Off(cfg.axis, stable),
                          seen := positions, previous := positions, origin := center, lastCenter := center);
    }

    method TrackContact(active: set<nat>, now: int) returns (events: seq<Event>)
      requires Trackable(cfg, View(), active) && button.cfg == bcfg
      modifies this, button
      ensures (View(), events) == Track(cfg, StepOf(bcfg), old(View()), active, now)
      ensures button == old(button)
    {
      events := [];
      if stable != {} {
        if !cycle {
          if active == {} || now - contactSince < cfg.debounce {
            return;
          }
          StartCycle(now);
        } else {
          FollowKeeps(cfg, View(), now);
          events := FollowContact(now);
        }
        var press := PressOn(active, now);
        assert [] + press == press;
        events := events + press;
      } else if cycle {
        if releaseAt.None? {
          releaseAt := LastOff(cfg.electrodes, raw);
        }
      } else if active == {} {
        events := button.Update(false, now);
      }
    }

    /** The first sample seeds every filter, and suppresses a contact held at start-up. */
    method Seed(active: set<nat>, now: int)
      requires button.cfg == bcfg
      modifies this, button
      ensures View() == SeedSpatial(cfg, StepOf(bcfg), old(View()), active, now)
      ensures button == old(button)
    {
      seeded := true;
      rawActive := active != {};
      contactSince := now;
      stable := active;
      raw := map i | i in cfg.electrodes :: Raw(i in active, now);
      armed := active == {};
      var seed := button.Update(active != {}, now);
    }

    method ObserveEdge(active: set<nat>, now: int) returns (events: seq<Event>)
      modifies this`rawActive, this`contactSince
      ensures (View(), events) == RawEdge(old(View()), active, now)
    {
      events := [];
      if (active != {}) != rawActive {
        rawActive := active != {};
        contactSince := now;
        if active != {} {
          events := [Plain(Invalidate, id)];
        }
      }
    }

    method TryRearm(active: set<nat>, now: int)
      modifies this
      ensures View() == Rearm(cfg, StepOf(bcfg), old(View()), active, now)
      ensures (button == old(button) || (fresh(button) && button.cfg == bcfg))
    {
      if stable == {} && active == {} && now - contactSince >= cfg.debounce {
        armed := true;
        NewButton(now);
      }
    }

    method Update(mask: set<nat>, now: int) returns (events: seq<Event>)
      requires Ok()
      modifies this, button
      ensures Ok() && (button == old(button) || fresh(button))
      ensures (View(), events) == SpatialStep(cfg, StepOf(bcfg), old(View()), mask, now)
    {
      ghost var before := View();
      var active := Active(cfg, mask);
      SpatialStepValid(cfg, StepOf(bcfg), before, mask, now);
      events := [];
      if !seeded {
        Seed(active, now);
        return;
      }
      events := ObserveEdge(active, now);
      ReadElectrodes(active, now);
      if !armed {
        TryRearm(active, now);
        return;
      }
      PreparedTrackable(cfg, StepOf(bcfg), before, active, now);
      var resolved := ResolvePending(active, now);
      var tracked := TrackContact(active, now);
      events := events + resolved + tracked;
    }
  }
}
