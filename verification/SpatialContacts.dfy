/** When contacts open, move and end, and what the button recognizer they are
    handed to is told of them. */
module SpatialContacts {
  import opened Common
  import opened Debounce
  import Button = TouchButton
  import opened ButtonEvents = TouchButton
  import opened SpatialTouch
  import opened SpatialMirror
  import opened SpatialOutcomes
  import Runs = TouchButtonRuns
  import Gestures = TouchButtonAnswers

  // ----- the clocks, told from the samples -----

  /** Whether anything selected was touched, sample by sample. */
  function Union(cfg: Pads, h: seq<Sweep>): seq<Tick> {
    seq(|h|, k requires 0 <= k < |h| => Tick(!Quiet?(cfg, h[k]), h[k].at))
  }

  /** The raw contact clock: whether anything is touched, and since when. */
  ghost predicate Clocked(cfg: Pads, s: Spatial, h: seq<Sweep>) {
    && h != [] && s.seeded && s.rawActive == !Quiet?(cfg, h[|h| - 1])
    && exists i: nat :: RunFrom(Union(cfg, h), i, |h| - 1) && s.contactSince == h[i].at
  }

  lemma StepClocked(cfg: Pads, step: ButtonStep, s: Spatial, h: seq<Sweep>, x: Sweep)
    requires Valid(cfg, s) && (if h == [] then !s.seeded else Clocked(cfg, s, h))
    ensures Clocked(cfg, SpatialStep(cfg, step, s, x.mask, x.at).0, h + [x])
  {
    StepFilter(cfg, step, s, x.mask, x.at);
    var touched, g := !Quiet?(cfg, x), h + [x];
    hide SpatialStep, Quiet?;
    assert forall k :: 0 <= k < |h| ==> Union(cfg, g)[k] == Union(cfg, h)[k];
    var i: nat := |h|;
    if h != [] && s.rawActive == touched {
      i :| RunFrom(Union(cfg, h), i, |h| - 1) && s.contactSince == h[i].at;
    }
    assert Union(cfg, g)[|h|].touched == touched;
    assert RunFrom(Union(cfg, g), i, |g| - 1);
    assert g[i].at == SpatialStep(cfg, step, s, x.mask, x.at).0.contactSince;
  }

  lemma {:induction false} RunClocked(cfg: Pads, step: ButtonStep, h: seq<Sweep>)
    requires h != []
    ensures Clocked(cfg, SpatialRun(cfg, step, h).0, h)
  {
    hide Clocked, SpatialStep;
    var front, x := h[..|h| - 1], h[|h| - 1];
    assert h == front + [x];
    if front == [] {
      assert SpatialRun(cfg, step, front).0 == START;
    } else {
      RunClocked(cfg, step, front);
    }
    StepClocked(cfg, step, SpatialRun(cfg, step, front).0, front, x);
  }

  /** Of the pads that read untouched now, the one let go last was let go at `r`. */
  ghost predicate LetGo(cfg: Pads, h: seq<Sweep>, r: int) {
    && h != []
    && (exists pad, i: nat :: LetGoAt(cfg, h, pad, i) && h[i].at == r)
    && forall pad, i: nat | LetGoAt(cfg, h, pad, i) :: h[i].at <= r
  }

  ghost predicate LetGoAt(cfg: Pads, h: seq<Sweep>, pad: nat, i: nat) {
    h != [] && pad in cfg.electrodes && pad !in h[|h| - 1].mask && RunFrom(Ticks(h, pad), i, |h| - 1)
  }

  lemma {:induction false} LastOffIsMax(pads: seq<nat>, raw: map<nat, Raw>)
    ensures var r := LastOff(pads, raw);
            && (r.Some? ==> exists p :: p in pads && p in raw && !raw[p].value && raw[p].since == r.value)
            && forall p <- pads :: p in raw && !raw[p].value ==> r.Some? && raw[p].since <= r.value
  {
    if pads != [] {
      LastOffIsMax(pads[1..], raw);
      assert forall i :: i in pads <==> i == pads[0] || i in pads[1..];
    }
  }

  lemma LastOffIsLetGo(cfg: Pads, step: ButtonStep, h: seq<Sweep>, r: int)
    requires h != [] && LastOff(cfg.electrodes, SpatialRun(cfg, step, h).0.raw) == Some(r)
    ensures LetGo(cfg, h, r)
  {
    var raw := SpatialRun(cfg, step, h).0.raw;
    hide SpatialRun;
    LastOffIsMax(cfg.electrodes, raw);
    var p :| p in cfg.electrodes && p in raw && !raw[p].value && raw[p].since == r;
    PadLetGo(cfg, step, h, p);
    var i: nat :| RunFrom(Ticks(h, p), i, |h| - 1) && h[i].at == raw[p].since;
    assert LetGoAt(cfg, h, p, i);
    forall pad, i: nat | LetGoAt(cfg, h, pad, i) ensures h[i].at <= r {
      PadLetGo(cfg, step, h, pad);
      var k: nat :| RunFrom(Ticks(h, pad), k, |h| - 1) && h[k].at == raw[pad].since;
      RunFromUnique(Ticks(h, pad), i, k, |h| - 1);
    }
  }

  lemma PadLetGo(cfg: Pads, step: ButtonStep, h: seq<Sweep>, pad: nat)
    requires h != [] && pad in cfg.electrodes
    ensures var raw := SpatialRun(cfg, step, h).0.raw;
            && pad in raw && raw[pad].value == (pad in h[|h| - 1].mask)
            && exists i: nat :: RunFrom(Ticks(h, pad), i, |h| - 1) && h[i].at == raw[pad].since
  {
    FootprintRefinesHistory(cfg, step, h, pad);
    hide SpatialRun, Debounced;
    var raw := SpatialRun(cfg, step, h).0.raw;
    var i: nat :| RunFrom(Ticks(h, pad), i, |h| - 1) && raw[pad].since == Ticks(h, pad)[i].at;
  }

  // ----- one sample of an armed recognizer -----

  /** What the electrodes tell the state, whatever becomes of the contact. */
  function Sensed(s: Spatial, t: Spatial): Spatial {
    s.(rawActive := t.rawActive, contactSince := t.contactSince, raw := t.raw, stable := t.stable)
  }

  lemma StepParts(cfg: Pads, step: ButtonStep, s: Spatial, x: Sweep)
    requires Valid(cfg, s) && s.seeded && s.armed
    ensures var t, active := SpatialStep(cfg, step, s, x.mask, x.at).0, Active(cfg, x.mask);
            var m := Middle(cfg, step, s, x);
            && (s.cycle ==> s.contact.started.Some? && s.contact.lastMove.Some?)
            && (m, Prepared(cfg, step, s, active, x.at).1) == ResolveOld(cfg, step, Sensed(s, t), active, x.at)
            && Trackable(cfg, m, active) && t == Track(cfg, step, m, active, x.at).0
            && Opening(cfg, step, s, x) == Track(cfg, step, m, active, x.at).1
  {
    var active := Active(cfg, x.mask);
    var c := RawEdge(s, active, x.at).0;
    var f := Footprint(cfg, c, active, x.at);
    var t := SpatialStep(cfg, step, s, x.mask, x.at).0;
    PreparedTrackable(cfg, step, s, active, x.at);
    StepFoot(cfg, step, s, x.mask, x.at);
    StepFilter(cfg, step, s, x.mask, x.at);
    hide ResolveOld, Track, Trackable, Active;
    assert f == Sensed(s, t);
  }

  /** The open contact is over once its pads have been released for 120 ms, or
      when a still contact is touched again, on pads it has seen, after a pause of
      the contact debounce. */
  predicate Ends(cfg: Pads, s: Spatial, t: Spatial, now: int) {
    && s.cycle && s.releaseAt.Some?
    && (now - s.releaseAt.value >= 120
        || (t.stable != {} && t.contactSince - s.releaseAt.value >= cfg.debounce
            && !s.contact.moving && Positions(cfg.axis, t.stable) <= s.contact.seen))
  }

  /** A contact opens when none is, or the last is over, and something has been
      touched for the contact debounce and is still. */
  predicate Opens(cfg: Pads, s: Spatial, t: Spatial, x: Sweep) {
    && s.seeded && s.armed && (s.cycle ==> Ends(cfg, s, t, x.at))
    && t.stable != {} && !Quiet?(cfg, x) && x.at - t.contactSince >= cfg.debounce
  }

  predicate Stays(cfg: Pads, s: Spatial, t: Spatial, x: Sweep) {
    s.seeded && s.armed && s.cycle && !Ends(cfg, s, t, x.at)
  }

  lemma ResolveEnds(cfg: Pads, step: ButtonStep, s: Spatial, active: set<nat>, now: int)
    requires s.cycle ==> s.contact.started.Some? && s.contact.lastMove.Some?
    ensures var m := ResolveOld(cfg, step, s, active, now).0;
            && (m.cycle <==> s.cycle && !Ends(cfg, s, s, now)) && m.id == s.id && m.armed == s.armed
            && (m.cycle ==> m == s.(releaseAt := if s.stable != {} then None else s.releaseAt) || (m == s && s.releaseAt.None?))
            && m.stable == s.stable && m.raw == s.raw && m.contactSince == s.contactSince && m.seeded == s.seeded
            && (!s.cycle ==> m == s)
  {
    hide Positions;
  }

  lemma TrackOpens(cfg: Pads, step: ButtonStep, m: Spatial, active: set<nat>, now: int)
    requires Trackable(cfg, m, active) && m.armed
    ensures var t := Track(cfg, step, m, active, now).0;
            var opens := !m.cycle && m.stable != {} && active != {} && now - m.contactSince >= cfg.debounce;
            && t.id == m.id + (if opens then 1 else 0)
            && (t.cycle <==> (m.cycle || opens) && t.armed)
            && (t.cycle ==> t.releaseAt == if m.stable == {} && m.releaseAt.None? then LastOff(cfg.electrodes, m.raw)
                                           else m.releaseAt)
  {
    hide Positions, Center, LastOff, EdgeTime, Mixed, Moved, Departing;
    if m.cycle && m.stable != {} {
      FollowKeeps(cfg, m, now);
    }
  }

  /** When a contact opens, whether it is open afterwards, and since when its pads
      are released: from the moment the footprint is empty, the time the last of
      them was let go, until the footprint is not. */
  lemma ContactsExactly(cfg: Pads, step: ButtonStep, s: Spatial, x: Sweep)
    requires Valid(cfg, s)
    ensures var t := SpatialStep(cfg, step, s, x.mask, x.at).0;
            && t.id == s.id + (if Opens(cfg, s, t, x) then 1 else 0)
            && (t.cycle <==> (Opens(cfg, s, t, x) || Stays(cfg, s, t, x)) && t.armed)
            && (t.cycle ==> t.releaseAt == if t.stable != {} then None
                                           else if s.releaseAt.Some? then s.releaseAt
                                           else LastOff(cfg.electrodes, t.raw))
  {
    if s.seeded && s.armed {
      var t := SpatialStep(cfg, step, s, x.mask, x.at).0;
      StepParts(cfg, step, s, x);
      hide SpatialStep, Track, Trackable, ResolveOld, Middle, LastOff;
      ResolveEnds(cfg, step, Sensed(s, t), Active(cfg, x.mask), x.at);
      TrackOpens(cfg, step, Middle(cfg, step, s, x), Active(cfg, x.mask), x.at);
    } else {
      hide Footprint;
    }
  }

  /** The footprint has been empty since sample `j`, and not before it. */
  ghost predicate EmptySince(cfg: Pads, step: ButtonStep, h: seq<Sweep>, j: nat) {
    && 0 < j < |h| && SpatialRun(cfg, step, h[..j]).0.stable != {}
    && forall k :: j < k <= |h| ==> SpatialRun(cfg, step, h[..k]).0.stable == {}
  }

  /** The pads were let go at `r`, as of the sample that emptied the footprint. */
  ghost predicate ReleasedAt(cfg: Pads, step: ButtonStep, h: seq<Sweep>, r: int) {
    exists j: nat :: j < |h| && EmptySince(cfg, step, h, j) && LetGo(cfg, h[..j + 1], r)
  }

  lemma ReleaseGrows(cfg: Pads, step: ButtonStep, h: seq<Sweep>, x: Sweep, r: int)
    requires SpatialRun(cfg, step, h + [x]).0.stable == {} && ReleasedAt(cfg, step, h, r)
    ensures ReleasedAt(cfg, step, h + [x], r)
  {
    hide SpatialRun, LetGo, EmptySince;
    var j: nat :| j < |h| && EmptySince(cfg, step, h, j) && LetGo(cfg, h[..j + 1], r);
    EmptyGrows(cfg, step, h, x, j);
    assert (h + [x])[..j + 1] == h[..j + 1];
  }

  lemma EmptyGrows(cfg: Pads, step: ButtonStep, h: seq<Sweep>, x: Sweep, j: nat)
    requires SpatialRun(cfg, step, h + [x]).0.stable == {} && EmptySince(cfg, step, h, j)
    ensures EmptySince(cfg, step, h + [x], j)
  {
    hide SpatialRun;
    var g := h + [x];
    assert g[..j] == h[..j];
    forall k | j < k <= |g| ensures SpatialRun(cfg, step, g[..k]).0.stable == {} {
      assert g[..k] == if k == |g| then g else h[..k];
    }
  }

  lemma ReleaseNow(cfg: Pads, step: ButtonStep, h: seq<Sweep>, x: Sweep, r: int)
    requires h != [] && SpatialRun(cfg, step, h).0.stable != {}
    requires SpatialRun(cfg, step, h + [x]).0.stable == {} && LetGo(cfg, h + [x], r)
    ensures ReleasedAt(cfg, step, h + [x], r)
  {
    hide SpatialRun, LetGo;
    var g := h + [x];
    assert g[..|h|] == h && g[..|g|] == g;
    assert EmptySince(cfg, step, g, |h|);
    assert LetGo(cfg, g[..|h| + 1], r);
  }

  lemma ReleaseSteps(cfg: Pads, step: ButtonStep, h: seq<Sweep>, x: Sweep)
    ensures var s, t := SpatialRun(cfg, step, h).0, SpatialRun(cfg, step, h + [x]).0;
            && (t.cycle && t.stable != {} ==> t.releaseAt.None?)
            && (t.cycle && t.stable == {} ==> s.cycle && h != [])
            && (t.cycle && t.stable == {} ==>
                  t.releaseAt == if s.releaseAt.Some? then s.releaseAt else LastOff(cfg.electrodes, t.raw))
            && (t.cycle && t.releaseAt.None? ==> t.stable != {})
  {
    var s, t := SpatialRun(cfg, step, h).0, SpatialRun(cfg, step, h + [x]).0;
    assert (h + [x])[..|h|] == h;
    ContactsExactly(cfg, step, s, x);
    hide SpatialStep, LastOff;
  }

  /** In every run an open contact is released exactly while its footprint is empty,
      and was released when its last pad was let go. */
  lemma {:induction false} ReleaseDated(cfg: Pads, step: ButtonStep, h: seq<Sweep>)
    requires SpatialRun(cfg, step, h).0.cycle
    ensures var s := SpatialRun(cfg, step, h).0;
            if s.stable != {} then s.releaseAt.None? else s.releaseAt.Some? && ReleasedAt(cfg, step, h, s.releaseAt.value)
  {
    assert h != [];
    hide LetGo, LastOff, ReleasedAt, SpatialRun, Valid;
    var front, x := h[..|h| - 1], h[|h| - 1];
    var s, t := SpatialRun(cfg, step, front).0, SpatialRun(cfg, step, h).0;
    assert h == front + [x];
    ReleaseSteps(cfg, step, front, x);
    if t.stable == {} {
      ReleaseDated(cfg, step, front);
      if s.releaseAt.Some? {
        ReleaseGrows(cfg, step, front, x, s.releaseAt.value);
      } else {
        LastOffIsLetGo(cfg, step, h, t.releaseAt.value);
        ReleaseNow(cfg, step, front, x, t.releaseAt.value);
      }
    }
  }

  // ----- what the button is told -----

  /** An undeclared pad joins a contact on the axis, or a declared one a contact off it. */
  predicate Joined(cfg: Pads, c: Contact, stable: set<nat>) {
    || (c.origin.None? && exists p :: p in stable && p in cfg.axis)
    || (c.origin.Some? && exists p :: p in stable && p !in cfg.axis && p !in c.outside)
  }

  /** A new pad takes the centre of a still contact a whole position away. */
  predicate Leaves(cfg: Pads, c: Contact, stable: set<nat>) {
    var ps := Positions(cfg.axis, stable);
    && !c.moving && c.origin.Some? && ps != {} && !(ps <= c.seen)
    && (Center(|cfg.axis|, ps) - c.origin.value >= 1.0 || c.origin.value - Center(|cfg.axis|, ps) >= 1.0)
  }

  predicate Turned(cfg: Pads, c: Contact, stable: set<nat>) {
    Joined(cfg, c, stable) || Leaves(cfg, c, stable)
  }

  /** What the button is told when a still contact ends. */
  function LastReports(cfg: Pads, s: Spatial, x: Sweep): seq<Runs.Op>
    requires s.releaseAt.Some?
  {
    var off := Runs.Sample(Tick(false, s.releaseAt.value));
    if Quiet?(cfg, x) then [off, Runs.Sample(Tick(false, x.at))] else [off]
  }

  /** All it was told once a contact is over: a contact that moved starts it anew. */
  function Ended(cfg: Pads, fed: seq<Runs.Op>, s: Spatial, x: Sweep): seq<Runs.Op>
    requires s.releaseAt.Some?
  {
    if s.contact.moving then [Runs.Sample(Tick(false, x.at))] else fed + LastReports(cfg, s, x)
  }

  /** How long the contact has been touched, or was when the last pad went off. */
  function TouchedUntil(cfg: Pads, t: Spatial, x: Sweep): int {
    var lift := LastOff(cfg.electrodes, t.raw);
    if Quiet?(cfg, x) && lift.Some? then lift.value else x.at
  }

  /** What it is told next: a new contact from its first touch on, an open one while
      it is still, that nothing is touched while none is open, and to drop everything
      when a contact turns into travel. */
  function News(cfg: Pads, open: bool, c: Contact, t: Spatial, x: Sweep): seq<Runs.Op> {
    if t.stable == {} then (if !open && Quiet?(cfg, x) then [Runs.Sample(Tick(false, x.at))] else [])
    else if !open then
      (if !Quiet?(cfg, x) && x.at - t.contactSince >= cfg.debounce then [Runs.Sample(Tick(true, t.contactSince))] else [])
    else if Turned(cfg, c, t.stable) then [Runs.Cancel]
    else if c.moving then []
    else [Runs.Sample(Tick(true, TouchedUntil(cfg, t, x)))]
  }

  /** And to drop everything once a hold has fired. */
  function Reports(cfg: Pads, open: bool, c: Contact, t: Spatial, x: Sweep): seq<Runs.Op> {
    if t.armed then News(cfg, open, c, t, x) else News(cfg, open, c, t, x) + [Runs.Cancel]
  }

  /** All the current button recognizer has been told. */
  ghost function Fed(cfg: Pads, bcfg: ButtonConfig, h: seq<Sweep>): seq<Runs.Op> {
    if h == [] then []
    else
      var front, x := h[..|h| - 1], h[|h| - 1];
      var s, t := SpatialRun(cfg, StepOf(bcfg), front).0, SpatialRun(cfg, StepOf(bcfg), h).0;
      if !s.seeded then [Runs.Sample(Tick(!Quiet?(cfg, x), x.at))]
      else if !s.armed then (if t.armed then [Runs.Sample(Tick(false, x.at))] else Fed(cfg, bcfg, front))
      else After(cfg, Fed(cfg, bcfg, front), s, t, x) + Reports(cfg, Stays(cfg, s, t, x), s.contact, t, x)
  }

  /** What it has been told once the last contact is over, if it is. */
  function After(cfg: Pads, fed: seq<Runs.Op>, s: Spatial, t: Spatial, x: Sweep): seq<Runs.Op> {
    if Ends(cfg, s, t, x.at) then Ended(cfg, fed, s, x) else fed
  }

  /** The events a button recognizer that was told `ops` answers to `more`. */
  function Heard(bcfg: ButtonConfig, ops: seq<Runs.Op>, more: seq<Runs.Op>): seq<Event> {
    if more == [] then []
    else
      var rest := more[..|more| - 1];
      Heard(bcfg, ops, rest)
      + match more[|more| - 1]
        case Sample(y) => Button.Step(bcfg, Runs.Run(bcfg, ops + rest), y.touched, y.at).1
        case Cancel => []
  }

  function Tell(bcfg: ButtonConfig, b: Button.State, op: Runs.Op): (Button.State, seq<Event>) {
    match op
    case Sample(y) => Button.Step(bcfg, b, y.touched, y.at)
    case Cancel => (Button.Cancelled(b), [])
  }

  lemma TellOne(bcfg: ButtonConfig, ops: seq<Runs.Op>, op: Runs.Op)
    ensures Runs.Run(bcfg, ops + [op]) == Tell(bcfg, Runs.Run(bcfg, ops), op).0
    ensures Heard(bcfg, ops, [op]) == Tell(bcfg, Runs.Run(bcfg, ops), op).1
    ensures Heard(bcfg, ops, []) == [] && Runs.Run(bcfg, ops + []) == Runs.Run(bcfg, ops)
  {
    assert (ops + [op])[..|ops|] == ops && ops + [] == ops && [op][..0] == [];
  }

  lemma TellTwo(bcfg: ButtonConfig, ops: seq<Runs.Op>, a: Runs.Op, b: Runs.Op)
    ensures Runs.Run(bcfg, ops + [a, b]) == Tell(bcfg, Tell(bcfg, Runs.Run(bcfg, ops), a).0, b).0
    ensures Heard(bcfg, ops, [a, b])
         == Tell(bcfg, Runs.Run(bcfg, ops), a).1 + Tell(bcfg, Tell(bcfg, Runs.Run(bcfg, ops), a).0, b).1
  {
    TellOne(bcfg, ops, a);
    TellOne(bcfg, ops + [a], b);
    assert ops + [a, b] == ops + [a] + [b] && [a, b][..1] == [a];
  }

  /** Where the button stands: untouched and listening while no contact is open,
      pressed while one is still. */
  predicate Ready(s: Spatial) {
    && Handed(s)
    && (s.seeded && s.armed && !s.cycle ==> s.button.armed && s.button.pressStart.None?)
    && (s.cycle && !s.contact.moving ==> s.button.armed && s.button.pressStart.Some?)
  }

  /** What a contact that is over is reported as. */
  lemma FinishTells(cfg: Pads, bcfg: ButtonConfig, s: Spatial, x: Sweep, fed: seq<Runs.Op>)
    requires s.cycle && s.releaseAt.Some? && s.contact.started.Some? && s.contact.lastMove.Some?
    requires s.button == Runs.Run(bcfg, fed)
    ensures var (m, es) := Finish(cfg, StepOf(bcfg), s, Active(cfg, x.mask) != {}, x.at);
            && m.button == Runs.Run(bcfg, Ended(cfg, fed, s, x))
            && es == if s.contact.moving then (if SwipeValid(cfg, s) then [Event(Swipe, s.id, 0, 0, s.contact.direction)] else [])
                     else Heard(bcfg, fed, LastReports(cfg, s, x))
  {
    var off, now := Runs.Sample(Tick(false, s.releaseAt.value)), Runs.Sample(Tick(false, x.at));
    assert Runs.Run(bcfg, []) == Button.INITIAL;
    TellOne(bcfg, [], now);
    assert [] + [now] == [now];
    TellOne(bcfg, fed, off);
    TellTwo(bcfg, fed, off, now);
    hide Button.Step, SwipeValid, Runs.Run, Heard, Active;
  }

  lemma ResolveTells(cfg: Pads, bcfg: ButtonConfig, s: Spatial, x: Sweep, fed: seq<Runs.Op>)
    requires s.cycle ==> s.contact.started.Some? && s.contact.lastMove.Some?
    requires s.button == Runs.Run(bcfg, fed)
    ensures var (m, es) := ResolveOld(cfg, StepOf(bcfg), s, Active(cfg, x.mask), x.at);
            && m.button == Runs.Run(bcfg, After(cfg, fed, s, s, x))
            && es == if !Ends(cfg, s, s, x.at) then []
                     else if s.contact.moving then (if SwipeValid(cfg, s) then [Event(Swipe, s.id, 0, 0, s.contact.direction)] else [])
                     else Heard(bcfg, fed, LastReports(cfg, s, x))
  {
    hide Positions, SwipeValid, Finish, Ended, LastReports, Runs.Run, Heard, Active;
    if Ends(cfg, s, s, x.at) {
      FinishTells(cfg, bcfg, s, x, fed);
    }
  }

  lemma JoinedIsMixed(cfg: Pads, s: Spatial)
    ensures Mixed(cfg, s) <==> Joined(cfg, s.contact, s.stable)
  {
    var off := Off(cfg.axis, s.stable) - s.contact.outside;
    if p :| p in s.stable && p in cfg.axis {
      var k: nat :| k < |cfg.axis| && cfg.axis[k] == p;
      assert k in Positions(cfg.axis, s.stable);
    }
    if k :| k in Positions(cfg.axis, s.stable) {
      assert cfg.axis[k] in s.stable;
    }
    if p :| p in s.stable && p !in cfg.axis && p !in s.contact.outside {
      assert p in off;
    }
    if p :| p in off {
      assert p in s.stable && p !in cfg.axis && p !in s.contact.outside;
    }
  }

  lemma LeavesIsDeparting(cfg: Pads, s: Spatial, now: int)
    requires s.contact.origin.Some? && s.contact.lastCenter.Some? && s.contact.lastMove.Some?
    requires Positions(cfg.axis, s.stable) != {}
    ensures var ps := Positions(cfg.axis, s.stable);
            && (Departing(s.contact, ps, Center(|cfg.axis|, ps), now) <==> Leaves(cfg, s.contact, s.stable))
            && (Moved(s.contact, ps, Center(|cfg.axis|, ps), now).moving <==> s.contact.moving || Leaves(cfg, s.contact, s.stable))
  {
    var ps := Positions(cfg.axis, s.stable);
    hide Center, Positions;
    if ps - s.contact.seen == {} {
      forall k | k in ps ensures k in s.contact.seen {
        assert k in s.contact.seen || k in ps - s.contact.seen;
      }
    }
  }

  /** An open contact turns into travel, and the button drops what it was told,
      exactly if a pad joins that does not belong or the centre leaves. */
  lemma FollowTells(cfg: Pads, s: Spatial, now: int)
    requires s.contact.lastMove.Some? && (s.contact.origin.Some? <==> s.contact.lastCenter.Some?)
    ensures var (t, es) := Follow(cfg, s, now); var turned := Turned(cfg, s.contact, s.stable);
            && t.button == (if turned then Button.Cancelled(s.button) else s.button)
            && t.contact.moving == (s.contact.moving || turned)
            && es == if turned then [Plain(Invalidate, s.id), Plain(Release, s.id)] else []
  {
    JoinedIsMixed(cfg, s);
    if Positions(cfg.axis, s.stable) != {} && s.contact.origin.Some? {
      LeavesIsDeparting(cfg, s, now);
    }
    hide Joined, Mixed, Moved, Departing, Center;
  }

  lemma PressTells(cfg: Pads, bcfg: ButtonConfig, s: Spatial, active: set<nat>, now: int, fed: seq<Runs.Op>)
    requires active == {} ==> LastOff(cfg.electrodes, s.raw).Some?
    requires s.armed && s.button == Runs.Run(bcfg, fed) && !s.contact.moving
    ensures var (t, es) := PressButton(cfg, StepOf(bcfg), s, active, now);
            var on := Runs.Sample(Tick(true, EdgeTime(cfg, s, active, now)));
            var told := if t.armed then [on] else [on, Runs.Cancel];
            && t.button == Runs.Run(bcfg, fed + told) && es == Heard(bcfg, fed, told)
            && (t.armed <==> forall e <- es :: e.kind != Hold)
  {
    hide Button.Step, Button.Cancelled, LastOff, Runs.Run, Heard, EdgeTime;
    var at := EdgeTime(cfg, s, active, now);
    var on := Runs.Sample(Tick(true, at));
    var (b, events) := Button.Step(bcfg, s.button, true, at);
    assert StepOf(bcfg)(s.button, true, at) == (b, events);
    var (t, es) := PressButton(cfg, StepOf(bcfg), s, active, now);
    assert es == events;
    if t.armed {
      TellOne(bcfg, fed, on);
    } else {
      TellTwo(bcfg, fed, on, Runs.Cancel);
      assert es + [] == es;
    }
  }

  predicate Relays(cfg: Pads, bcfg: ButtonConfig, s: Spatial, x: Sweep, fed: seq<Runs.Op>, t: Spatial, es: seq<Event>) {
    var told := Reports(cfg, s.cycle, s.contact, t, x);
    && t.button == Runs.Run(bcfg, fed + told)
    && es == (if s.cycle && s.stable != {} && Turned(cfg, s.contact, s.stable)
              then [Plain(Invalidate, s.id), Plain(Release, s.id)] else [])
             + Heard(bcfg, fed, told)
  }

  /** A sample of an open contact: what it does to the contact, then the press. */
  lemma TrackFollows(cfg: Pads, step: ButtonStep, s: Spatial, active: set<nat>, now: int)
    requires Trackable(cfg, s, active) && s.armed && s.stable != {} && s.cycle
    ensures var (s1, e1) := Follow(cfg, s, now);
            && s1.armed && s1.raw == s.raw && s1.id == s.id
            && (active == {} ==> LastOff(cfg.electrodes, s1.raw).Some?)
            && Track(cfg, step, s, active, now).0 == PressButton(cfg, step, s1, active, now).0
            && Track(cfg, step, s, active, now).1 == e1 + PressButton(cfg, step, s1, active, now).1
    ensures var t := Track(cfg, step, s, active, now).0; t.stable == s.stable && t.raw == s.raw
  {
    TrackFoot(cfg, step, s, active, now);
    FollowKeeps(cfg, s, now);
    hide Follow, PressButton;
  }

  lemma FollowRelays(cfg: Pads, bcfg: ButtonConfig, s: Spatial, x: Sweep, fed: seq<Runs.Op>)
    requires Trackable(cfg, s, Active(cfg, x.mask)) && s.armed && Ready(s) && s.stable != {} && s.cycle
    requires s.button == Runs.Run(bcfg, fed)
    ensures var (t, es) := Track(cfg, StepOf(bcfg), s, Active(cfg, x.mask), x.at); Relays(cfg, bcfg, s, x, fed, t, es)
  {
    var active := Active(cfg, x.mask);
    var (t, es) := Track(cfg, StepOf(bcfg), s, active, x.at);
    TrackFollows(cfg, StepOf(bcfg), s, active, x.at);
    FollowTells(cfg, s, x.at);
    var (s1, e1) := Follow(cfg, s, x.at);
    var turned := Turned(cfg, s.contact, s.stable);
    hide Button.Step, Button.Cancelled, LastOff, Turned, Follow, Track, Handed, Runs.Run, Heard, EdgeTime;
    if turned {
      assert t == s1 && es == e1;
      assert Reports(cfg, s.cycle, s.contact, t, x) == [Runs.Cancel];
      TellOne(bcfg, fed, Runs.Cancel);
    } else if s.contact.moving {
      assert t == s1 && es == [];
      assert Reports(cfg, s.cycle, s.contact, t, x) == [];
      TellOne(bcfg, fed, Runs.Cancel);
    } else {
      hide PressButton, Reports, Active;
      PressTells(cfg, bcfg, s1, active, x.at, fed);
      assert s1.button == s.button;
      StillReports(cfg, s, s1, t, x);
      assert es == [] + es;
    }
  }

  lemma StillReports(cfg: Pads, s: Spatial, s1: Spatial, t: Spatial, x: Sweep)
    requires s.cycle && t.stable == s.stable != {} && !Turned(cfg, s.contact, s.stable) && !s.contact.moving
    requires s1.raw == s.raw == t.raw && s1.button == s.button && s1.button.pressStart.Some?
    requires Quiet?(cfg, x) ==> LastOff(cfg.electrodes, s.raw).Some?
    ensures var on := Runs.Sample(Tick(true, EdgeTime(cfg, s1, Active(cfg, x.mask), x.at)));
            Reports(cfg, s.cycle, s.contact, t, x) == if t.armed then [on] else [on, Runs.Cancel]
  {
    hide Turned, LastOff, Active;
  }

  lemma TrackBegins(cfg: Pads, step: ButtonStep, s: Spatial, x: Sweep)
    requires Trackable(cfg, s, Active(cfg, x.mask)) && s.armed && s.stable != {} && !s.cycle && !s.contact.moving
    ensures var (t, es) := Track(cfg, step, s, Active(cfg, x.mask), x.at);
            var begun := BeginCycle(cfg, s, x.at);
            && t.stable == s.stable && t.raw == s.raw && t.contactSince == s.contactSince
            && begun.button == s.button && begun.armed && begun.contactSince == s.contactSince && !begun.contact.moving
            && if Quiet?(cfg, x) || x.at - s.contactSince < cfg.debounce then t == s && es == []
               else (t, es) == PressButton(cfg, step, begun, Active(cfg, x.mask), x.at)
  {
    hide Positions, Center, LastOff, EdgeTime;
  }

  lemma BeginRelays(cfg: Pads, bcfg: ButtonConfig, s: Spatial, x: Sweep, fed: seq<Runs.Op>)
    requires Trackable(cfg, s, Active(cfg, x.mask)) && s.armed && s.seeded && s.stable != {} && !s.cycle
    requires Ready(s) && !s.contact.moving && s.button == Runs.Run(bcfg, fed)
    ensures var (t, es) := Track(cfg, StepOf(bcfg), s, Active(cfg, x.mask), x.at); Relays(cfg, bcfg, s, x, fed, t, es)
  {
    var active := Active(cfg, x.mask);
    var (t, es) := Track(cfg, StepOf(bcfg), s, active, x.at);
    TrackBegins(cfg, StepOf(bcfg), s, x);
    hide Track, Trackable, Handed, Runs.Run, Heard, BeginCycle, PressButton, LastOff, Turned;
    if Quiet?(cfg, x) || x.at - s.contactSince < cfg.debounce {
      TellOne(bcfg, fed, Runs.Cancel);
      assert Reports(cfg, s.cycle, s.contact, t, x) == [];
    } else {
      PressTells(cfg, bcfg, BeginCycle(cfg, s, x.at), active, x.at, fed);
      var on := Runs.Sample(Tick(true, s.contactSince));
      assert Reports(cfg, s.cycle, s.contact, t, x) == if t.armed then [on] else [on, Runs.Cancel];
    }
    assert es == [] + es;
  }

  lemma IdleRelays(cfg: Pads, bcfg: ButtonConfig, s: Spatial, x: Sweep, fed: seq<Runs.Op>)
    requires Trackable(cfg, s, Active(cfg, x.mask)) && s.armed && s.stable == {}
    requires s.button == Runs.Run(bcfg, fed)
    ensures var (t, es) := Track(cfg, StepOf(bcfg), s, Active(cfg, x.mask), x.at); Relays(cfg, bcfg, s, x, fed, t, es)
  {
    var active := Active(cfg, x.mask);
    var (t, es) := Track(cfg, StepOf(bcfg), s, active, x.at);
    hide Button.Step, Button.Cancelled, LastOff, Runs.Run, Heard;
    if !s.cycle && Quiet?(cfg, x) {
      assert StepOf(bcfg)(s.button, false, x.at) == Button.Step(bcfg, s.button, false, x.at);
      assert t.button == Button.Step(bcfg, s.button, false, x.at).0 && es == Button.Step(bcfg, s.button, false, x.at).1;
      TellOne(bcfg, fed, Runs.Sample(Tick(false, x.at)));
    } else {
      assert t.button == s.button && es == [];
      TellOne(bcfg, fed, Runs.Cancel);
    }
    assert es == [] + es;
  }

  // ----- the button is ready for what it is told -----

  /** A press begins and goes on while touched unless a hold fires, and ends when not. */
  lemma ButtonReady(bcfg: ButtonConfig, b: Button.State, touched: bool, at: int)
    requires bcfg.delay == 0 && Pressable(b)
    ensures var (r, es) := Button.Step(bcfg, b, touched, at);
            touched && b.stable.Some? && b.armed && (b.pressStart.Some? || b.stable == Some(false)) ==>
              (r.armed && r.pressStart.Some?) || exists e :: e in es && e.kind == Hold
    ensures var r := Button.Step(bcfg, b, touched, at).0;
            !touched && (if b.stable.Some? then b.armed else b.pressStart.None?) ==> r.armed && r.pressStart.None?
  {
    hide Tier;
    if b.stable.Some? {
      var (s1, e1) := Button.Candidate(b, touched, at);
      var (s2, e2) := Button.Accept(bcfg, s1, touched, at);
      var (s3, e3) := Button.Tiers(bcfg, s2, touched, at);
      var e4 := Button.Resolve(s3, touched, at).1;
      assert forall e <- e3 :: e in e1 + e2 + e3 + e4;
      if touched && e3 != [] && bcfg.holdOnThreshold {
        assert e3[2] in e3;
      }
    }
  }

  lemma ResolveReady(cfg: Pads, bcfg: ButtonConfig, s: Spatial, active: set<nat>, now: int)
    requires s.cycle ==> s.contact.started.Some? && s.contact.lastMove.Some?
    requires bcfg.delay == 0 && Ready(s) && s.seeded && s.armed
    ensures Ready(ResolveOld(cfg, StepOf(bcfg), s, active, now).0)
  {
    ButtonsArePrompt(bcfg);
    ResolveCounts(cfg, bcfg, StepOf(bcfg), s, active, now);
    hide Prompt, Button.Step, Positions, SwipeValid;
    if s.cycle && s.releaseAt.Some? {
      ButtonReady(bcfg, Button.INITIAL, false, now);
      ButtonReady(bcfg, s.button, false, s.releaseAt.value);
      Pressing(bcfg, StepOf(bcfg), s.button, false, s.releaseAt.value);
      ButtonReady(bcfg, Button.Step(bcfg, s.button, false, s.releaseAt.value).0, false, now);
    }
  }

  lemma PressReady(cfg: Pads, bcfg: ButtonConfig, s: Spatial, active: set<nat>, now: int)
    requires active == {} ==> LastOff(cfg.electrodes, s.raw).Some?
    requires bcfg.delay == 0 && Pressable(s.button) && s.cycle && s.armed && s.seeded && s.button.stable.Some?
    requires !s.contact.moving ==> s.button.armed && (s.button.pressStart.Some? || s.button.stable == Some(false))
    ensures Ready(PressButton(cfg, StepOf(bcfg), s, active, now).0)
  {
    ButtonsArePrompt(bcfg);
    PressCounts(cfg, bcfg, StepOf(bcfg), s, active, now);
    hide Prompt, Button.Step, LastOff, EdgeTime;
    if !s.contact.moving {
      ButtonReady(bcfg, s.button, true, EdgeTime(cfg, s, active, now));
    }
  }

  lemma TrackReady(cfg: Pads, bcfg: ButtonConfig, s: Spatial, x: Sweep)
    requires Trackable(cfg, s, Active(cfg, x.mask)) && bcfg.delay == 0 && Ready(s) && s.seeded && s.armed
    requires !s.cycle ==> !s.contact.moving
    ensures Ready(Track(cfg, StepOf(bcfg), s, Active(cfg, x.mask), x.at).0)
  {
    var active := Active(cfg, x.mask);
    if s.stable == {} {
      hide Button.Step, LastOff, Prompt;
      ButtonsArePrompt(bcfg);
      Pressing(bcfg, StepOf(bcfg), s.button, false, x.at);
      ButtonReady(bcfg, s.button, false, x.at);
    } else if s.cycle {
      TrackFollows(cfg, StepOf(bcfg), s, active, x.at);
      FollowKeeps(cfg, s, x.at);
      FollowTells(cfg, s, x.at);
      hide Track, Trackable, Follow, PressButton, LastOff, Turned;
      PressReady(cfg, bcfg, Follow(cfg, s, x.at).0, active, x.at);
    } else {
      TrackBegins(cfg, StepOf(bcfg), s, x);
      hide Track, Trackable, PressButton, LastOff;
      if !Quiet?(cfg, x) && x.at - s.contactSince >= cfg.debounce {
        PressReady(cfg, bcfg, BeginCycle(cfg, s, x.at), active, x.at);
      }
    }
  }

  lemma StepReady(cfg: Pads, bcfg: ButtonConfig, s: Spatial, x: Sweep)
    requires Valid(cfg, s) && bcfg.delay == 0 && Ready(s)
    requires s.seeded || s.button == Button.INITIAL
    ensures Ready(SpatialStep(cfg, StepOf(bcfg), s, x.mask, x.at).0)
  {
    ButtonsArePrompt(bcfg);
    if s.seeded && s.armed {
      var t := SpatialStep(cfg, StepOf(bcfg), s, x.mask, x.at).0;
      StepParts(cfg, StepOf(bcfg), s, x);
      hide SpatialStep, Track, Trackable, ResolveOld, Middle, Prompt, Pressable, Opening;
      ResolveReady(cfg, bcfg, Sensed(s, t), Active(cfg, x.mask), x.at);
      ResolveEnds(cfg, StepOf(bcfg), Sensed(s, t), Active(cfg, x.mask), x.at);
      TrackReady(cfg, bcfg, Middle(cfg, StepOf(bcfg), s, x), x);
    } else {
      HalvesCount(cfg, bcfg, StepOf(bcfg), s, x);
      ButtonReady(bcfg, Button.INITIAL, false, x.at);
      hide Prompt, Button.Step, Footprint;
    }
  }

  lemma {:induction false} RunReady(cfg: Pads, bcfg: ButtonConfig, h: seq<Sweep>)
    requires bcfg.delay == 0
    ensures var s := SpatialRun(cfg, StepOf(bcfg), h).0; Ready(s) && (s.seeded || s.button == Button.INITIAL)
  {
    if h != [] {
      hide Ready, SpatialStep;
      var front, x := h[..|h| - 1], h[|h| - 1];
      RunReady(cfg, bcfg, front);
      StepReady(cfg, bcfg, SpatialRun(cfg, StepOf(bcfg), front).0, x);
      StepFilter(cfg, StepOf(bcfg), SpatialRun(cfg, StepOf(bcfg), front).0, x.mask, x.at);
    }
  }

  // ----- what a sample reports -----

  /** A touch after none is announced at once. */
  function Raised(cfg: Pads, s: Spatial, x: Sweep): seq<Event> {
    if !Quiet?(cfg, x) && !s.rawActive then [Plain(Invalidate, s.id)] else []
  }

  /** What a contact that is over comes to: a swipe if it moved and swept, and
      else what the button makes of its release. */
  function Settled(cfg: Pads, bcfg: ButtonConfig, fed: seq<Runs.Op>, s: Spatial, x: Sweep): seq<Event>
    requires s.releaseAt.Some? && s.contact.started.Some? && s.contact.lastMove.Some?
  {
    if s.contact.moving then (if SwipeValid(cfg, s) then [Event(Swipe, s.id, 0, 0, s.contact.direction)] else [])
    else Heard(bcfg, fed, LastReports(cfg, s, x))
  }

  lemma StepTells(cfg: Pads, bcfg: ButtonConfig, s: Spatial, x: Sweep, fed: seq<Runs.Op>)
    requires Valid(cfg, s) && s.seeded && s.armed && Ready(s) && s.button == Runs.Run(bcfg, fed) && bcfg.delay == 0
    ensures var t := SpatialStep(cfg, StepOf(bcfg), s, x.mask, x.at).0;
            var after := After(cfg, fed, s, t, x);
            var told := Reports(cfg, Stays(cfg, s, t, x), s.contact, t, x);
            && t.button == Runs.Run(bcfg, after + told)
            && Closing(cfg, StepOf(bcfg), s, x)
               == Raised(cfg, s, x) + (if Ends(cfg, s, t, x.at) then Settled(cfg, bcfg, fed, s, x) else [])
            && Opening(cfg, StepOf(bcfg), s, x)
               == (if Stays(cfg, s, t, x) && t.stable != {} && Turned(cfg, s.contact, t.stable)
                   then [Plain(Invalidate, s.id), Plain(Release, s.id)] else [])
                  + Heard(bcfg, after, told)
  {
    hide SpatialStep, Track, Trackable, ResolveOld, Middle, Turned, Runs.Run, Heard, SwipeValid, Positions, LastOff, Opening, Handed;
    hide News, Reports;
    var t, m := SpatialStep(cfg, StepOf(bcfg), s, x.mask, x.at).0, Middle(cfg, StepOf(bcfg), s, x);
    var r := Sensed(s, t);
    StepParts(cfg, StepOf(bcfg), s, x);
    TrackFoot(cfg, StepOf(bcfg), m, Active(cfg, x.mask), x.at);
    ResolveTells(cfg, bcfg, r, x, fed);
    ResolveEnds(cfg, StepOf(bcfg), r, Active(cfg, x.mask), x.at);
    SensedReady(cfg, bcfg, s, t, x);
    var after := After(cfg, fed, s, t, x);
    assert After(cfg, fed, r, r, x) == after && m.button == Runs.Run(bcfg, after);
    assert m.cycle == Stays(cfg, s, t, x);
    ClosedReports(cfg, m.contact, s.contact, t, x);
    SwipeSensed(cfg, s, t);
    if m.stable == {} {
      IdleRelays(cfg, bcfg, m, x, after);
    } else if m.cycle {
      FollowRelays(cfg, bcfg, m, x, after);
    } else {
      BeginRelays(cfg, bcfg, m, x, after);
    }
  }

  lemma SwipeSensed(cfg: Pads, s: Spatial, t: Spatial)
    ensures s.contact.started.Some? && s.contact.lastMove.Some? ==> (SwipeValid(cfg, Sensed(s, t)) <==> SwipeValid(cfg, s))
  {
  }

  lemma ClosedReports(cfg: Pads, c: Contact, d: Contact, t: Spatial, x: Sweep)
    ensures Reports(cfg, false, c, t, x) == Reports(cfg, false, d, t, x)
  {
  }

  lemma SensedReady(cfg: Pads, bcfg: ButtonConfig, s: Spatial, t: Spatial, x: Sweep)
    requires Valid(cfg, s) && s.seeded && s.armed && Ready(s) && bcfg.delay == 0
    ensures var m := ResolveOld(cfg, StepOf(bcfg), Sensed(s, t), Active(cfg, x.mask), x.at).0;
            Ready(m) && (!m.cycle ==> !m.contact.moving)
  {
    ResolveReady(cfg, bcfg, Sensed(s, t), Active(cfg, x.mask), x.at);
    hide Positions, SwipeValid, Button.Step;
  }

  /** In every run the button is one that was told exactly this. */
  lemma {:induction false} FedExactly(cfg: Pads, bcfg: ButtonConfig, h: seq<Sweep>)
    requires bcfg.delay == 0
    ensures SpatialRun(cfg, StepOf(bcfg), h).0.button == Runs.Run(bcfg, Fed(cfg, bcfg, h))
  {
    if h == [] {
    } else {
      var front, x := h[..|h| - 1], h[|h| - 1];
      var s := SpatialRun(cfg, StepOf(bcfg), front).0;
      FedExactly(cfg, bcfg, front);
      RunReady(cfg, bcfg, front);
      if s.seeded && s.armed {
        hide SpatialStep, Runs.Run, Ready, Closing, Opening;
        StepTells(cfg, bcfg, s, x, Fed(cfg, bcfg, front));
      } else {
        IdleTells(cfg, bcfg, s, x);
        hide SpatialStep, Runs.Run, Ready;
      }
    }
  }

  lemma IdleTells(cfg: Pads, bcfg: ButtonConfig, s: Spatial, x: Sweep)
    requires Valid(cfg, s) && !(s.seeded && s.armed) && (s.seeded || s.button == Button.INITIAL)
    ensures var t := SpatialStep(cfg, StepOf(bcfg), s, x.mask, x.at).0;
            t.button == if !s.seeded then Runs.Run(bcfg, [Runs.Sample(Tick(!Quiet?(cfg, x), x.at))])
                        else if t.armed then Runs.Run(bcfg, [Runs.Sample(Tick(false, x.at))]) else s.button
  {
    var first := Runs.Sample(Tick(if s.seeded then false else !Quiet?(cfg, x), x.at));
    assert Runs.Run(bcfg, []) == Button.INITIAL && [] + [first] == [first];
    TellOne(bcfg, [], first);
    hide Footprint, Button.Step, Runs.Run;
  }

  /** Contacts are taken once nothing was touched at the start, or for the contact
      debounce since, until a hold fires. */
  lemma ArmsExactly(cfg: Pads, bcfg: ButtonConfig, h: seq<Sweep>, x: Sweep)
    requires bcfg.delay == 0
    ensures var s, t := SpatialRun(cfg, StepOf(bcfg), h).0, SpatialRun(cfg, StepOf(bcfg), h + [x]).0;
            t.armed <==> if h == [] then Quiet?(cfg, x)
                         else if s.armed then forall e <- Opening(cfg, StepOf(bcfg), s, x) :: e.kind != Hold
                         else t.stable == {} && Quiet?(cfg, x) && x.at - t.contactSince >= cfg.debounce
  {
    var s := SpatialRun(cfg, StepOf(bcfg), h).0;
    assert (h + [x])[..|h|] == h;
    RunReady(cfg, bcfg, h);
    if h == [] {
      assert s == START;
    } else {
      RunClocked(cfg, StepOf(bcfg), h);
      if s.armed {
        hide SpatialRun, SpatialStep, Ready, Opening;
        StepArms(cfg, bcfg, s, x);
      }
    }
  }

  lemma StepArms(cfg: Pads, bcfg: ButtonConfig, s: Spatial, x: Sweep)
    requires Valid(cfg, s) && s.seeded && s.armed && Ready(s) && bcfg.delay == 0
    ensures var t := SpatialStep(cfg, StepOf(bcfg), s, x.mask, x.at).0;
            t.armed <==> forall e <- Opening(cfg, StepOf(bcfg), s, x) :: e.kind != Hold
  {
    var t, m := SpatialStep(cfg, StepOf(bcfg), s, x.mask, x.at).0, Middle(cfg, StepOf(bcfg), s, x);
    StepParts(cfg, StepOf(bcfg), s, x);
    SensedReady(cfg, bcfg, s, t, x);
    ResolveEnds(cfg, StepOf(bcfg), Sensed(s, t), Active(cfg, x.mask), x.at);
    hide SpatialStep, Trackable, ResolveOld, Middle, Opening, Sensed;
    TrackArms(cfg, bcfg, m, x);
  }

  lemma TrackArms(cfg: Pads, bcfg: ButtonConfig, s: Spatial, x: Sweep)
    requires Trackable(cfg, s, Active(cfg, x.mask)) && bcfg.delay == 0 && Ready(s) && s.seeded && s.armed
    requires !s.cycle ==> !s.contact.moving
    ensures var (t, es) := Track(cfg, StepOf(bcfg), s, Active(cfg, x.mask), x.at);
            t.armed <==> forall e <- es :: e.kind != Hold
  {
    var active := Active(cfg, x.mask);
    if s.stable == {} {
      hide Button.Step, LastOff, Prompt;
      ButtonsArePrompt(bcfg);
      Pressing(bcfg, StepOf(bcfg), s.button, false, x.at);
      if !s.cycle {
        Silent(bcfg, s.button, StepOf(bcfg)(s.button, false, x.at));
      }
    } else if s.cycle {
      TrackFollows(cfg, StepOf(bcfg), s, active, x.at);
      FollowTells(cfg, s, x.at);
      hide Track, Trackable, Follow, LastOff, Turned, Button.Step, Ready;
    } else {
      TrackBegins(cfg, StepOf(bcfg), s, x);
      hide Track, Trackable, LastOff, Button.Step, Ready;
    }
  }

  // ----- taps, holds and bursts of contacts -----

  /** The open contact was begun by a touch at `since`. */
  ghost predicate TouchedSince(cfg: Pads, step: ButtonStep, h: seq<Sweep>, since: int) {
    exists i: nat, j: nat :: j < |h| && Began(cfg, step, h, j) && RunFrom(Union(cfg, h), i, j) && h[i].at == since
  }

  /** Sample `j` opened the contact that is open now. */
  predicate Began(cfg: Pads, step: ButtonStep, h: seq<Sweep>, j: nat)
    requires j < |h|
  {
    SpatialRun(cfg, step, h[..j]).0.id < SpatialRun(cfg, step, h[..j + 1]).0.id == SpatialRun(cfg, step, h).0.id
  }

  /** A touched press dates from where it did, or has fired. */
  lemma PressDated(bcfg: ButtonConfig, b: Button.State, at: int)
    requires bcfg.delay == 0 && Pressable(b) && b.stable.Some? && b.armed
    ensures var (r, es) := Button.Step(bcfg, b, true, at);
            && (b.pressStart.Some? ==> r.pressStart == b.pressStart || exists e :: e in es && e.kind == Hold)
            && (b.stable == Some(false) && b.pressStart.None? ==> r.pressStart == Some(at) || exists e :: e in es && e.kind == Hold)
  {
    hide Tier;
    var (s1, e1) := Button.Candidate(b, true, at);
    var (s2, e2) := Button.Accept(bcfg, s1, true, at);
    var (s3, e3) := Button.Tiers(bcfg, s2, true, at);
    var e4 := Button.Resolve(s3, true, at).1;
    assert forall e <- e3 :: e in e1 + e2 + e3 + e4;
    if e3 != [] && bcfg.holdOnThreshold {
      assert e3[2] in e3;
    }
  }

  /** What the end of a press is answered by: it was a hold, or a tap, the first of
      its burst or a later one. */
  function TapOrHold(bcfg: ButtonConfig, id: nat, taps: nat, held: int): seq<Event> {
    var release := Event(Release, id, taps, held, 0);
    if held >= bcfg.thresholds[0] then [release, Plain(Invalidate, id), Event(Hold, id, 0, held, 0)]
    else if taps == 0 then [release, Event(Single, id, 1, held, 0)]
    else [release]
  }

  /** What a burst of so many taps comes to. */
  function BurstEnd(id: nat, taps: nat): seq<Event> {
    [Event(if taps == 3 then Triple else Cue, id, taps, 0, 0)]
  }

  lemma OffExactly(bcfg: ButtonConfig, b: Button.State, start: int, at: int)
    requires bcfg.delay == 0 && Pressable(b) && b.pressStart == Some(start) && (!bcfg.multiClick ==> b.clicks == 0)
    ensures var (r, es) := Button.Step(bcfg, b, false, at);
            && es == TapOrHold(bcfg, b.id, b.clicks, at - start)
            && r.stable == Some(false) && r.id == b.id && r.pressStart.None? && !r.candidate
            && (if at - start < bcfg.thresholds[0] && bcfg.multiClick then r.clicks == b.clicks + 1 && r.deadline == Some(at + 400)
                else r.deadline.None?)
  {
    hide Tier;
  }

  /** And what quiet afterwards is. */
  lemma QuietAfter(bcfg: ButtonConfig, b: Button.State, at: int)
    requires b.stable == Some(false) && !b.candidate && b.pressStart.None?
    ensures Button.Step(bcfg, b, false, at).1
         == if b.deadline.Some? && at >= b.deadline.value then BurstEnd(b.id, b.clicks) else []
  {
  }

  lemma TrackDated(cfg: Pads, bcfg: ButtonConfig, s: Spatial, x: Sweep)
    requires Trackable(cfg, s, Active(cfg, x.mask)) && bcfg.delay == 0 && Ready(s) && s.seeded && s.armed
    requires !s.cycle ==> !s.contact.moving
    ensures var t := Track(cfg, StepOf(bcfg), s, Active(cfg, x.mask), x.at).0;
            t.cycle && !t.contact.moving ==>
              if s.cycle then !s.contact.moving && t.button.pressStart == s.button.pressStart
              else t.button.pressStart == Some(s.contactSince)
  {
    var active := Active(cfg, x.mask);
    if s.stable == {} {
      hide Button.Step, LastOff;
    } else if s.cycle {
      TrackFollows(cfg, StepOf(bcfg), s, active, x.at);
      FollowKeeps(cfg, s, x.at);
      FollowTells(cfg, s, x.at);
      var s1 := Follow(cfg, s, x.at).0;
      hide Track, Trackable, Follow, LastOff, Turned, Button.Step, EdgeTime;
      if !s1.contact.moving {
        PressDated(bcfg, s.button, EdgeTime(cfg, s1, active, x.at));
      }
    } else {
      TrackBegins(cfg, StepOf(bcfg), s, x);
      hide Track, Trackable, LastOff, Button.Step, Positions, Center;
      PressDated(bcfg, s.button, s.contactSince);
    }
  }

  /** An open contact that is still is a press since its first touch. */
  lemma StepDated(cfg: Pads, bcfg: ButtonConfig, s: Spatial, x: Sweep)
    requires Valid(cfg, s) && bcfg.delay == 0 && Ready(s)
    ensures var t := SpatialStep(cfg, StepOf(bcfg), s, x.mask, x.at).0;
            t.cycle && !t.contact.moving ==>
              if Opens(cfg, s, t, x) then t.button.pressStart == Some(t.contactSince)
              else s.cycle && !s.contact.moving && t.button.pressStart == s.button.pressStart
  {
    var t, m := SpatialStep(cfg, StepOf(bcfg), s, x.mask, x.at).0, Middle(cfg, StepOf(bcfg), s, x);
    ContactsExactly(cfg, StepOf(bcfg), s, x);
    if t.cycle {
      StepParts(cfg, StepOf(bcfg), s, x);
      SensedReady(cfg, bcfg, s, t, x);
      hide SpatialStep, Track, Trackable, ResolveOld, Middle, Positions, Handed;
      ResolveEnds(cfg, StepOf(bcfg), Sensed(s, t), Active(cfg, x.mask), x.at);
      TrackDated(cfg, bcfg, m, x);
    }
  }

  lemma BeganGrows(cfg: Pads, step: ButtonStep, h: seq<Sweep>, x: Sweep, since: int)
    requires TouchedSince(cfg, step, h, since)
    requires SpatialRun(cfg, step, h + [x]).0.id == SpatialRun(cfg, step, h).0.id
    ensures TouchedSince(cfg, step, h + [x], since)
  {
    hide SpatialRun;
    var i: nat, j: nat :| j < |h| && Began(cfg, step, h, j) && RunFrom(Union(cfg, h), i, j) && h[i].at == since;
    var g := h + [x];
    assert g[..j] == h[..j] && g[..j + 1] == h[..j + 1];
    assert forall k :: 0 <= k < |h| ==> Union(cfg, g)[k] == Union(cfg, h)[k];
    assert Began(cfg, step, g, j) && RunFrom(Union(cfg, g), i, j) && g[i].at == since;
  }

  lemma BeganNow(cfg: Pads, step: ButtonStep, h: seq<Sweep>, x: Sweep)
    requires SpatialRun(cfg, step, h + [x]).0.id > SpatialRun(cfg, step, h).0.id
    ensures TouchedSince(cfg, step, h + [x], SpatialRun(cfg, step, h + [x]).0.contactSince)
  {
    var g := h + [x];
    RunClocked(cfg, step, g);
    hide SpatialRun;
    var i: nat :| RunFrom(Union(cfg, g), i, |g| - 1) && SpatialRun(cfg, step, g).0.contactSince == g[i].at;
    assert g[..|h|] == h && g[..|g|] == g;
    assert Began(cfg, step, g, |h|);
  }

  /** What the last sample did to a contact that is still. */
  lemma StillStep(cfg: Pads, bcfg: ButtonConfig, h: seq<Sweep>, x: Sweep)
    requires bcfg.delay == 0
    ensures var s, t := SpatialRun(cfg, StepOf(bcfg), h).0, SpatialRun(cfg, StepOf(bcfg), h + [x]).0;
            t.cycle && !t.contact.moving ==>
              if t.id > s.id then t.button.pressStart == Some(t.contactSince)
              else t.id == s.id && s.cycle && !s.contact.moving && t.button.pressStart == s.button.pressStart
  {
    hide SpatialRun, SpatialStep, Ready, Opens, Stays;
    var s := SpatialRun(cfg, StepOf(bcfg), h).0;
    NextRun(cfg, StepOf(bcfg), h, x);
    RunReady(cfg, bcfg, h);
    StepDated(cfg, bcfg, s, x);
    ContactsExactly(cfg, StepOf(bcfg), s, x);
  }

  /** In every run an open contact that has not moved is a press of the button, and
      dates from the first touch of the run of touches that opened it. */
  lemma {:induction false} StillIsPressed(cfg: Pads, bcfg: ButtonConfig, h: seq<Sweep>)
    requires bcfg.delay == 0
    ensures var s := SpatialRun(cfg, StepOf(bcfg), h).0;
            s.cycle && !s.contact.moving ==> s.button.pressStart.Some? && TouchedSince(cfg, StepOf(bcfg), h, s.button.pressStart.value)
  {
    hide SpatialRun, TouchedSince, Valid;
    if h == [] {
      StartsClosed(cfg, StepOf(bcfg));
    } else {
      var front, x := h[..|h| - 1], h[|h| - 1];
      var s, t := SpatialRun(cfg, StepOf(bcfg), front).0, SpatialRun(cfg, StepOf(bcfg), h).0;
      assert h == front + [x];
      StillIsPressed(cfg, bcfg, front);
      StillStep(cfg, bcfg, front, x);
      if t.cycle && !t.contact.moving {
        if t.id > s.id {
          BeganNow(cfg, StepOf(bcfg), front, x);
        } else {
          BeganGrows(cfg, StepOf(bcfg), front, x, s.button.pressStart.value);
        }
      }
    }
  }

  /** The stage of the gesture of the button, told by the events it answered. */
  ghost function Stage(cfg: Pads, bcfg: ButtonConfig, h: seq<Sweep>): Gestures.Stage {
    Gestures.Now(bcfg, Fed(cfg, bcfg, h))
  }

  lemma StageMatches(cfg: Pads, bcfg: ButtonConfig, h: seq<Sweep>)
    requires bcfg.delay == 0
    ensures Gestures.Matches(bcfg, SpatialRun(cfg, StepOf(bcfg), h).0.button, Stage(cfg, bcfg, h))
  {
    hide Gestures.Matches, Gestures.Now, Fed;
    FedExactly(cfg, bcfg, h);
    Gestures.RunMatches(bcfg, Fed(cfg, bcfg, h));
  }

  /** What a still contact comes to that was touched for so long: a tap or a hold,
      and if the sample that ends it finds nothing touched and the window of the
      burst over, what the burst comes to. */
  function Tapped(bcfg: ButtonConfig, id: nat, taps: nat, held: int, quiet: Option<int>): seq<Event> {
    TapOrHold(bcfg, id, taps, held)
    + if held < bcfg.thresholds[0] && bcfg.multiClick && quiet.Some? && quiet.value >= 400 then BurstEnd(id, taps + 1) else []
  }

  /** In every run a still contact that is over is reported as a tap or a hold, of
      the time from its first touch until its last pad was let go. */
  lemma TapExactly(cfg: Pads, bcfg: ButtonConfig, h: seq<Sweep>, x: Sweep)
    requires bcfg.delay == 0
    requires var s := SpatialRun(cfg, StepOf(bcfg), h).0;
             !s.contact.moving && Ends(cfg, s, SpatialRun(cfg, StepOf(bcfg), h + [x]).0, x.at)
    ensures var s, p := SpatialRun(cfg, StepOf(bcfg), h).0, Stage(cfg, bcfg, h);
            && p.Down? && TouchedSince(cfg, StepOf(bcfg), h, p.start)
            && ReleasedAt(cfg, StepOf(bcfg), h, s.releaseAt.value)
            && Closing(cfg, StepOf(bcfg), s, x)
               == Raised(cfg, s, x) + Tapped(bcfg, s.button.id, p.taps, s.releaseAt.value - p.start,
                                             if Quiet?(cfg, x) then Some(x.at - s.releaseAt.value) else None)
  {
    hide SpatialRun, TouchedSince, ReleasedAt, Closing, Opening, SpatialStep, Ready, Raised, Settled, Tapped, Valid, Ends;
    hide Gestures.Matches, Gestures.Now, Fed, Runs.Run, Heard, Reports, After, Stays, Turned, Stage;
    var step := StepOf(bcfg);
    var s := SpatialRun(cfg, step, h).0;
    NextRun(cfg, step, h, x);
    EndsFacts(cfg, s, SpatialRun(cfg, step, h + [x]).0, x.at);
    StillIsPressed(cfg, bcfg, h);
    ReleaseDated(cfg, step, h);
    FedExactly(cfg, bcfg, h);
    RunReady(cfg, bcfg, h);
    ReadyPresses(s);
    StageIsDown(cfg, bcfg, h, s.button.pressStart.value);
    StepTells(cfg, bcfg, s, x, Fed(cfg, bcfg, h));
    SettledIsTapped(cfg, bcfg, s, x, Fed(cfg, bcfg, h), s.button.pressStart.value);
  }

  lemma EndsFacts(cfg: Pads, s: Spatial, t: Spatial, now: int)
    requires Valid(cfg, s) && Ends(cfg, s, t, now)
    ensures s.cycle && s.releaseAt.Some? && s.seeded && s.armed && s.contact.started.Some? && s.contact.lastMove.Some?
  {
  }

  lemma ReadyPresses(s: Spatial)
    requires Ready(s)
    ensures Pressable(s.button)
  {
  }

  lemma NextRun(cfg: Pads, step: ButtonStep, h: seq<Sweep>, x: Sweep)
    ensures var s := SpatialRun(cfg, step, h).0; SpatialRun(cfg, step, h + [x]).0 == SpatialStep(cfg, step, s, x.mask, x.at).0
    ensures var s := SpatialRun(cfg, step, h).0; s.cycle && s.releaseAt.Some? ==> s.stable == {}
  {
    assert (h + [x])[..|h|] == h;
    if SpatialRun(cfg, step, h).0.cycle {
      ReleaseDated(cfg, step, h);
    }
    hide SpatialStep;
  }

  lemma StageIsDown(cfg: Pads, bcfg: ButtonConfig, h: seq<Sweep>, start: int)
    requires bcfg.delay == 0 && SpatialRun(cfg, StepOf(bcfg), h).0.button.pressStart == Some(start)
    ensures var b := SpatialRun(cfg, StepOf(bcfg), h).0.button;
            Stage(cfg, bcfg, h) == Gestures.Down(b.clicks, start, b.tier) && (!bcfg.multiClick ==> b.clicks == 0)
  {
    StageMatches(cfg, bcfg, h);
    hide SpatialRun, Gestures.Now, Fed;
  }

  lemma SettledIsTapped(cfg: Pads, bcfg: ButtonConfig, s: Spatial, x: Sweep, fed: seq<Runs.Op>, start: int)
    requires bcfg.delay == 0 && Pressable(s.button) && s.button == Runs.Run(bcfg, fed)
    requires s.releaseAt.Some? && s.contact.started.Some? && s.contact.lastMove.Some? && !s.contact.moving
    requires s.button.pressStart == Some(start) && (!bcfg.multiClick ==> s.button.clicks == 0)
    ensures Settled(cfg, bcfg, fed, s, x)
         == Tapped(bcfg, s.button.id, s.button.clicks, s.releaseAt.value - start,
                   if Quiet?(cfg, x) then Some(x.at - s.releaseAt.value) else None)
  {
    hide Button.Step, Settled, Runs.Run, Quiet?, Pressable, TapOrHold, BurstEnd;
    var r := s.releaseAt.value;
    var b := Button.Step(bcfg, s.button, false, r).0;
    OffExactly(bcfg, s.button, start, r);
    QuietAfter(bcfg, b, x.at);
    SettledInTwo(cfg, bcfg, s, x, fed);
  }

  lemma SettledInTwo(cfg: Pads, bcfg: ButtonConfig, s: Spatial, x: Sweep, fed: seq<Runs.Op>)
    requires s.releaseAt.Some? && s.contact.started.Some? && s.contact.lastMove.Some? && !s.contact.moving
    requires s.button == Runs.Run(bcfg, fed)
    ensures var (b, es) := Button.Step(bcfg, s.button, false, s.releaseAt.value);
            Settled(cfg, bcfg, fed, s, x) == es + if Quiet?(cfg, x) then Button.Step(bcfg, b, false, x.at).1 else []
  {
    hide Button.Step, Runs.Run, Heard, Quiet?;
    var off, now := Runs.Sample(Tick(false, s.releaseAt.value)), Runs.Sample(Tick(false, x.at));
    var es := Button.Step(bcfg, s.button, false, s.releaseAt.value).1;
    if Quiet?(cfg, x) {
      TellTwo(bcfg, fed, off, now);
    } else {
      TellOne(bcfg, fed, off);
      assert es + [] == es;
    }
  }

  /** While no contact is open the button is untouched and listens. */
  lemma AfterReady(cfg: Pads, bcfg: ButtonConfig, s: Spatial, x: Sweep, fed: seq<Runs.Op>)
    requires Valid(cfg, s) && s.seeded && s.armed && Ready(s) && s.button == Runs.Run(bcfg, fed) && bcfg.delay == 0
    ensures var t := SpatialStep(cfg, StepOf(bcfg), s, x.mask, x.at).0;
            var b := Runs.Run(bcfg, After(cfg, fed, s, t, x));
            !Stays(cfg, s, t, x) ==> b.stable == Some(false) && !b.candidate && b.armed && b.pressStart.None?
  {
    var t := SpatialStep(cfg, StepOf(bcfg), s, x.mask, x.at).0;
    var r := Sensed(s, t);
    hide SpatialStep, Track, Trackable, ResolveOld, Middle, Runs.Run, Heard, SwipeValid, Positions, Opening;
    StepParts(cfg, StepOf(bcfg), s, x);
    ResolveTells(cfg, bcfg, r, x, fed);
    ResolveEnds(cfg, StepOf(bcfg), r, Active(cfg, x.mask), x.at);
    SensedReady(cfg, bcfg, s, t, x);
    assert After(cfg, fed, r, r, x) == After(cfg, fed, s, t, x);
  }

  /** A press that goes on is answered by the tier it has reached. */
  lemma OnExactly(bcfg: ButtonConfig, b: Button.State, p: Gestures.Stage, at: int)
    requires Pressable(b) && b.pressStart.Some? && Gestures.Matches(bcfg, b, p)
    ensures Button.Step(bcfg, b, true, at).1 == Gestures.OnHold(bcfg, p, b.id, at)
  {
    hide Tier;
  }

  /** And one that begins by itself, and a tier if it needs no time to reach one. */
  lemma PressExactly(bcfg: ButtonConfig, b: Button.State, p: Gestures.Stage, at: int)
    requires bcfg.delay == 0 && b.stable == Some(false) && !b.candidate && b.armed && Gestures.Matches(bcfg, b, p)
    ensures Button.Step(bcfg, b, true, at).1 == Pressed(bcfg, p, b.id, at)
  {
    hide Tier;
  }

  /** What a new press is answered by: it goes on with a burst whose window is open. */
  function Pressed(bcfg: ButtonConfig, p: Gestures.Stage, id: nat, since: int): seq<Event> {
    var more := p.Waiting? && since < p.at + 400;
    var (id', taps) := if more then (id, p.taps) else (id + 1, 0);
    [Plain(Invalidate, id), Event(Press, id', taps, 0, 0)]
    + Gestures.OnHold(bcfg, Gestures.Down(taps, since, 0), id', since)
  }

  lemma ReportsHeard(cfg: Pads, bcfg: ButtonConfig, ops: seq<Runs.Op>, open: bool, c: Contact, t: Spatial, x: Sweep)
    ensures Heard(bcfg, ops, Reports(cfg, open, c, t, x)) == Heard(bcfg, ops, News(cfg, open, c, t, x))
  {
    hide News;
    var news := News(cfg, open, c, t, x);
    assert (news + [Runs.Cancel])[..|news|] == news;
    assert Heard(bcfg, ops, news) + [] == Heard(bcfg, ops, news);
  }

  /** What the button answers to the news. */
  lemma NewsHeard(cfg: Pads, bcfg: ButtonConfig, ops: seq<Runs.Op>, open: bool, c: Contact, t: Spatial, x: Sweep)
    ensures var b := Runs.Run(bcfg, ops);
            Heard(bcfg, ops, News(cfg, open, c, t, x))
            == if t.stable == {} then (if !open && Quiet?(cfg, x) then Button.Step(bcfg, b, false, x.at).1 else [])
               else if open then
                 (if Turned(cfg, c, t.stable) || c.moving then [] else Button.Step(bcfg, b, true, TouchedUntil(cfg, t, x)).1)
               else if !Quiet?(cfg, x) && x.at - t.contactSince >= cfg.debounce then Button.Step(bcfg, b, true, t.contactSince).1
               else []
  {
    hide Button.Step, Runs.Run, Heard, Turned, TouchedUntil, Quiet?;
    TellOne(bcfg, ops, Runs.Cancel);
    TellOne(bcfg, ops, Runs.Sample(Tick(false, x.at)));
    TellOne(bcfg, ops, Runs.Sample(Tick(true, t.contactSince)));
    TellOne(bcfg, ops, Runs.Sample(Tick(true, TouchedUntil(cfg, t, x))));
  }

  /** In every run what a sample reports of the contact it leaves open, opens or
      finds none of: the tier a still one has reached, the press of a new one, and
      while there is none and nothing is touched, what a burst whose window is over
      comes to. A contact that has moved reports nothing. */
  lemma OpeningExactly(cfg: Pads, bcfg: ButtonConfig, h: seq<Sweep>, x: Sweep)
    requires bcfg.delay == 0 && SpatialRun(cfg, StepOf(bcfg), h).0.seeded && SpatialRun(cfg, StepOf(bcfg), h).0.armed
    ensures var s, t := SpatialRun(cfg, StepOf(bcfg), h).0, SpatialRun(cfg, StepOf(bcfg), h + [x]).0;
            var ops := After(cfg, Fed(cfg, bcfg, h), s, t, x);
            var p, id := Gestures.Now(bcfg, ops), Runs.Run(bcfg, ops).id;
            Opening(cfg, StepOf(bcfg), s, x)
            == if Stays(cfg, s, t, x) then
                 if t.stable == {} then []
                 else if Turned(cfg, s.contact, t.stable) then [Plain(Invalidate, s.id), Plain(Release, s.id)]
                 else if s.contact.moving then [] else Gestures.OnHold(bcfg, p, id, TouchedUntil(cfg, t, x))
               else if Opens(cfg, s, t, x) then Pressed(bcfg, p, id, t.contactSince)
               else if t.stable == {} && Quiet?(cfg, x) then Gestures.OnQuiet(p, id, Tick(false, x.at), false)
               else []
    ensures var s, t := SpatialRun(cfg, StepOf(bcfg), h).0, SpatialRun(cfg, StepOf(bcfg), h + [x]).0;
            !Ends(cfg, s, t, x.at) ==> Closing(cfg, StepOf(bcfg), s, x) == Raised(cfg, s, x)
  {
    hide SpatialRun, SpatialStep, Ready, Valid, Fed, Runs.Run, After, Gestures.Now, Opening, Closing, Raised, Settled;
    var step := StepOf(bcfg);
    var s := SpatialRun(cfg, step, h).0;
    NextRun(cfg, step, h, x);
    FedExactly(cfg, bcfg, h);
    RunReady(cfg, bcfg, h);
    StepTells(cfg, bcfg, s, x, Fed(cfg, bcfg, h));
    OpeningOf(cfg, bcfg, s, x, Fed(cfg, bcfg, h));
  }

  lemma OpeningOf(cfg: Pads, bcfg: ButtonConfig, s: Spatial, x: Sweep, fed: seq<Runs.Op>)
    requires Valid(cfg, s) && s.seeded && s.armed && Ready(s) && s.button == Runs.Run(bcfg, fed) && bcfg.delay == 0
    ensures var t := SpatialStep(cfg, StepOf(bcfg), s, x.mask, x.at).0;
            var ops := After(cfg, fed, s, t, x);
            var p, id := Gestures.Now(bcfg, ops), Runs.Run(bcfg, ops).id;
            Opening(cfg, StepOf(bcfg), s, x)
            == if Stays(cfg, s, t, x) then
                 if t.stable == {} then []
                 else if Turned(cfg, s.contact, t.stable) then [Plain(Invalidate, s.id), Plain(Release, s.id)]
                 else if s.contact.moving then [] else Gestures.OnHold(bcfg, p, id, TouchedUntil(cfg, t, x))
               else if Opens(cfg, s, t, x) then Pressed(bcfg, p, id, t.contactSince)
               else if t.stable == {} && Quiet?(cfg, x) then Gestures.OnQuiet(p, id, Tick(false, x.at), false)
               else []
  {
    hide SpatialStep, Valid, Runs.Run, Gestures.Now, Opening, Closing, Raised, Settled, Gestures.Matches, Button.Step;
    hide Gestures.OnHold, Gestures.OnQuiet, Pressed, Turned, TouchedUntil, Quiet?, Heard, Ends, Ended, News, Reports;
    var t := SpatialStep(cfg, StepOf(bcfg), s, x.mask, x.at).0;
    var open, ops := Stays(cfg, s, t, x), After(cfg, fed, s, t, x);
    var b, p := Runs.Run(bcfg, ops), Gestures.Now(bcfg, ops);
    StepTells(cfg, bcfg, s, x, fed);
    ReportsHeard(cfg, bcfg, ops, open, s.contact, t, x);
    NewsHeard(cfg, bcfg, ops, open, s.contact, t, x);
    AfterReady(cfg, bcfg, s, x, fed);
    Gestures.RunMatches(bcfg, ops);
    if t.stable == {} && !open && Quiet?(cfg, x) {
      QuietExactly(bcfg, b, p, x.at);
    } else if t.stable != {} && open {
      if !s.contact.moving {
        OnExactly(bcfg, b, p, TouchedUntil(cfg, t, x));
      }
    } else if Opens(cfg, s, t, x) {
      PressExactly(bcfg, b, p, t.contactSince);
    }
  }

  lemma QuietExactly(bcfg: ButtonConfig, b: Button.State, p: Gestures.Stage, at: int)
    requires b.stable == Some(false) && !b.candidate && b.pressStart.None? && Gestures.Matches(bcfg, b, p)
    ensures Button.Step(bcfg, b, false, at).1 == Gestures.OnQuiet(p, b.id, Tick(false, at), false)
  {
  }
}
