/** Why the queue's guard suffices: every recognizer invalidates the queue after
    the last thing it offered and before a hold, a triple or a swipe. */
module Heralds {
  import opened Common
  import Queue = ActionQueue
  import Button = TouchButton
  import opened ButtonEvents = TouchButton
  import Runs = TouchButtonRuns
  import opened SpatialTouch
  import opened SpatialMirror

  function Kinds(es: seq<Event>): seq<Kind> {
    seq(|es|, i requires 0 <= i < |es| => es[i].kind)
  }

  /** Every guarded event is heralded, if `clear` says what came before. */
  predicate Told(clear: bool, es: seq<Event>) {
    Queue.Heralded(clear, Kinds(es))
  }

  /** Whether the queue is clear afterwards. */
  function Left(clear: bool, es: seq<Event>): bool {
    Queue.Cleared(clear, Kinds(es))
  }

  lemma TellNone(clear: bool)
    ensures Told(clear, []) && Left(clear, []) == clear
  {
  }

  lemma TellOne(clear: bool, e: Event)
    ensures Left(clear, [e]) == Queue.After(clear, e.kind)
    ensures Told(clear, [e]) <==> (Queue.Guarded(e.kind) ==> clear)
  {
    var ks := [e.kind];
    assert Kinds([e]) == ks && ks[1..] == [];
    assert Queue.Cleared(clear, ks) == Queue.Cleared(Queue.After(clear, e.kind), ks[1..]);
    assert Queue.Heralded(Queue.After(clear, e.kind), ks[1..]);
  }

  lemma TellBoth(clear: bool, a: seq<Event>, b: seq<Event>)
    ensures Left(clear, a + b) == Left(Left(clear, a), b)
    ensures Told(clear, a + b) <==> Told(clear, a) && Told(Left(clear, a), b)
  {
    assert Kinds(a + b) == Kinds(a) + Kinds(b);
    Queue.HeraldedJoin(clear, Kinds(a), Kinds(b));
  }

  /** An invalidation heralds whatever guarded event comes next. */
  lemma TellHold(clear: bool, id: nat, hold: Event)
    requires hold.kind == Hold
    ensures Told(clear, [Plain(Invalidate, id), hold]) && !Left(clear, [Plain(Invalidate, id), hold])
  {
    assert [Plain(Invalidate, id), hold] == [Plain(Invalidate, id)] + [hold];
    TellBoth(clear, [Plain(Invalidate, id)], [hold]);
    TellOne(clear, Plain(Invalidate, id));
    TellOne(true, hold);
  }

  // ----- the button recognizer -----

  /** While a touch is pending or pressed, and from the second tap of a burst on,
      the queue is clear. */
  predicate Poised(b: Button.State, clear: bool) {
    && (b.armed && b.candidate ==> clear)
    && (b.pressStart.Some? ==> clear && b.stable == Some(true))
    && (b.clicks >= 2 ==> clear)
  }

  lemma CandidateTells(b: Button.State, touched: bool, at: int, clear: bool)
    requires Poised(b, clear)
    ensures var (t, es) := Button.Candidate(b, touched, at);
            Told(clear, es) && Poised(t, Left(clear, es)) && t.candidate == touched
  {
    hide Told, Left;
    TellNone(clear);
    TellOne(clear, Plain(Invalidate, b.id));
  }

  lemma AcceptTells(cfg: ButtonConfig, b: Button.State, touched: bool, at: int, clear: bool)
    requires Poised(b, clear) && b.candidate == touched
    ensures var (t, es) := Button.Accept(cfg, b, touched, at);
            Told(clear, es) && Poised(t, Left(clear, es)) && t.candidate == touched
  {
    hide Told, Left, Button.AcceptRelease;
    TellNone(clear);
    var s := b.(stable := Some(touched));
    if touched {
      forall e: Event | e.kind == Press ensures Told(clear, [e]) && Left(clear, [e]) == clear {
        TellOne(clear, e);
      }
    } else {
      ReleaseTells(cfg, s, at, clear);
    }
  }

  lemma ReleaseTells(cfg: ButtonConfig, s: Button.State, at: int, clear: bool)
    requires !s.candidate && (s.pressStart.Some? ==> clear) && (s.clicks >= 2 ==> clear)
    ensures var (t, es) := Button.AcceptRelease(cfg, s, at);
            Told(clear, es) && Poised(t, Left(clear, es)) && !t.candidate
  {
    hide Told, Left;
    TellNone(clear);
    if s.pressStart.Some? {
      var held := s.since - s.pressStart.value;
      var release := [Event(Release, s.id, s.clicks, held, 0)];
      TellOne(clear, release[0]);
      if held >= cfg.thresholds[0] {
        TellBoth(clear, release, [Plain(Invalidate, s.id), Event(Hold, s.id, 0, held, 0)]);
        TellHold(clear, s.id, Event(Hold, s.id, 0, held, 0));
      } else {
        var tap := Event(Single, s.id, 1, held, 0);
        TellBoth(clear, release, [tap]);
        TellOne(clear, tap);
        assert release + [] == release;
      }
    }
  }

  lemma TiersTell(cfg: ButtonConfig, b: Button.State, touched: bool, at: int, clear: bool)
    requires Poised(b, clear) && b.candidate == touched
    ensures var (t, es) := Button.Tiers(cfg, b, touched, at);
            Told(clear, es) && Poised(t, Left(clear, es)) && t.candidate == touched
  {
    hide Told, Left, Button.Tier;
    TellNone(clear);
    if b.pressStart.Some? {
      var held := (if touched then at else b.since) - b.pressStart.value;
      var tier := Event(HoldTier, b.id, Button.Tier(cfg.thresholds, held), held, 0);
      var hold := Event(Hold, b.id, 0, held, 0);
      TellOne(clear, tier);
      TellBoth(clear, [tier], [Plain(Invalidate, b.id), hold]);
      TellHold(clear, b.id, hold);
      assert [tier, Plain(Invalidate, b.id), hold] == [tier] + [Plain(Invalidate, b.id), hold];
    }
  }

  lemma ResolveTells(b: Button.State, touched: bool, at: int, clear: bool)
    requires Poised(b, clear) && b.candidate == touched
    ensures var (t, es) := Button.Resolve(b, touched, at);
            Told(clear, es) && Poised(t, Left(clear, es))
  {
    hide Told, Left;
    TellNone(clear);
    TellOne(clear, Event(if b.clicks == 3 then Triple else Cue, b.id, b.clicks, 0, 0));
  }

  lemma ButtonTells(cfg: ButtonConfig, b: Button.State, touched: bool, at: int, clear: bool)
    requires Poised(b, clear)
    ensures var (t, es) := Button.Step(cfg, b, touched, at);
            Told(clear, es) && Poised(t, Left(clear, es))
  {
    hide Told, Left, Button.Candidate, Button.Accept, Button.Tiers, Button.Resolve;
    TellNone(clear);
    if b.stable.Some? {
      var (s1, e1) := Button.Candidate(b, touched, at);
      var (s2, e2) := Button.Accept(cfg, s1, touched, at);
      var (s3, e3) := Button.Tiers(cfg, s2, touched, at);
      var (s4, e4) := Button.Resolve(s3, touched, at);
      CandidateTells(b, touched, at, clear);
      AcceptTells(cfg, s1, touched, at, Left(clear, e1));
      TellBoth(clear, e1, e2);
      TiersTell(cfg, s2, touched, at, Left(clear, e1 + e2));
      TellBoth(clear, e1 + e2, e3);
      ResolveTells(s3, touched, at, Left(clear, e1 + e2 + e3));
      TellBoth(clear, e1 + e2 + e3, e4);
    }
  }

  /** A button by itself heralds its guarded events in every run. */
  lemma {:induction false} ButtonHeralds(cfg: ButtonConfig, ops: seq<Runs.Op>)
    ensures Told(true, Emitted(Runs.Log(cfg, ops)))
    ensures Poised(Runs.Run(cfg, ops), Left(true, Emitted(Runs.Log(cfg, ops))))
  {
    hide Told, Left;
    if ops == [] {
      TellNone(true);
      assert Emitted(Runs.Log(cfg, ops)) == [];
    } else {
      var front := ops[..|ops| - 1];
      var log := Emitted(Runs.Log(cfg, front));
      ButtonHeralds(cfg, front);
      EmittedStep(cfg, ops);
      if ops[|ops| - 1].Sample? {
        var x := ops[|ops| - 1].tick;
        hide Poised, Runs.Run, Runs.Log;
        ButtonTells(cfg, Runs.Run(cfg, front), x.touched, x.at, Left(true, log));
        TellBoth(true, log, Button.Step(cfg, Runs.Run(cfg, front), x.touched, x.at).1);
      }
    }
  }

  lemma EmittedStep(cfg: ButtonConfig, ops: seq<Runs.Op>)
    requires ops != []
    ensures var front := ops[..|ops| - 1];
            var s, log := Runs.Run(cfg, front), Emitted(Runs.Log(cfg, front));
            match ops[|ops| - 1]
            case Cancel => Runs.Run(cfg, ops) == Button.Cancelled(s) && Emitted(Runs.Log(cfg, ops)) == log
            case Sample(x) =>
              && Runs.Run(cfg, ops) == Button.Step(cfg, s, x.touched, x.at).0
              && Emitted(Runs.Log(cfg, ops)) == log + Button.Step(cfg, s, x.touched, x.at).1
  {
    hide Button.Step;
  }

  function Emitted(log: seq<Runs.Entry>): seq<Event> {
    seq(|log|, i requires 0 <= i < |log| => log[i].event)
  }

  // ----- the spatial recognizer -----

  predicate Tells(clear: bool, r: (Button.State, seq<Event>)) {
    Told(clear, r.1) && Poised(r.0, Left(clear, r.1))
  }

  /** What the spatial recognizer needs of its button. */
  ghost predicate Telling(step: ButtonStep) {
    && (forall b, touched, at, clear | Poised(b, clear) :: Tells(clear, step(b, touched, at)))
    && forall touched, at :: step(Button.INITIAL, touched, at).1 == []
  }

  lemma ButtonsTell(bcfg: ButtonConfig)
    ensures Telling(StepOf(bcfg))
  {
    hide Poised, Tells;
    forall b: Button.State, touched: bool, at: int, clear: bool | Poised(b, clear)
      ensures Tells(clear, StepOf(bcfg)(b, touched, at))
    {
      Stepped(bcfg, b, touched, at, clear);
    }
  }

  lemma Stepped(bcfg: ButtonConfig, b: Button.State, touched: bool, at: int, clear: bool)
    requires Poised(b, clear)
    ensures Tells(clear, Button.Step(bcfg, b, touched, at))
  {
    hide Told, Left, Poised;
    ButtonTells(bcfg, b, touched, at, clear);
  }

  lemma StepTold(step: ButtonStep, b: Button.State, touched: bool, at: int, clear: bool)
    requires Telling(step) && Poised(b, clear)
    ensures Told(clear, step(b, touched, at).1)
    ensures Poised(step(b, touched, at).0, Left(clear, step(b, touched, at).1))
  {
    assert Tells(clear, step(b, touched, at));
  }

  /** A new button says nothing and is poised whatever came before. */
  lemma Reset(step: ButtonStep, touched: bool, at: int, clear: bool)
    requires Telling(step)
    ensures Poised(step(Button.INITIAL, touched, at).0, clear)
  {
    StepTold(step, Button.INITIAL, touched, at, clear);
    TellNone(clear);
  }

  /** While a contact moves the queue is clear. */
  predicate Ready(s: Spatial, clear: bool) {
    && Poised(s.button, clear)
    && (s.contact.moving ==> clear)
    && (!s.seeded ==> s.button == Button.INITIAL)
  }

  lemma FinishTells(cfg: Pads, step: ButtonStep, s: Spatial, active: bool, now: int, clear: bool)
    requires s.cycle && s.releaseAt.Some? && s.contact.started.Some? && s.contact.lastMove.Some? && s.seeded
    requires Telling(step) && Ready(s, clear)
    ensures var (t, es) := Finish(cfg, step, s, active, now);
            Told(clear, es) && Ready(t, Left(clear, es)) && t.seeded
  {
    hide Told, Left, Poised, Telling, SwipeValid;
    TellNone(clear);
    if s.contact.moving {
      var swipe := Event(Swipe, s.id, 0, 0, s.contact.direction);
      TellOne(clear, swipe);
      Reset(step, false, now, clear);
      Reset(step, false, now, Left(clear, [swipe]));
    } else {
      var (b1, e1) := step(s.button, false, s.releaseAt.value);
      StepTold(step, s.button, false, s.releaseAt.value, clear);
      StepTold(step, b1, false, now, Left(clear, e1));
      TellBoth(clear, e1, step(b1, false, now).1);
      assert e1 + [] == e1;
    }
  }

  lemma ResolveOldTells(cfg: Pads, step: ButtonStep, s: Spatial, active: set<nat>, now: int, clear: bool)
    requires s.cycle ==> s.contact.started.Some? && s.contact.lastMove.Some?
    requires Telling(step) && Ready(s, clear) && s.seeded
    ensures var (t, es) := ResolveOld(cfg, step, s, active, now);
            Told(clear, es) && Ready(t, Left(clear, es)) && t.seeded
  {
    hide Finish, Told, Left, Poised, Telling, Positions;
    TellNone(clear);
    if s.cycle && s.releaseAt.Some? {
      FinishTells(cfg, step, s, active != {}, now, clear);
    }
  }

  lemma MovedMoves(c: Contact, ps: set<nat>, center: real, now: int)
    requires c.origin.Some? && c.lastCenter.Some? && c.lastMove.Some?
    ensures Moved(c, ps, center, now).moving <==> c.moving || Departing(c, ps, center, now)
  {
    hide Along, Abs;
  }

  /** A contact that departs or is spoilt invalidates the queue. */
  lemma FollowTells(cfg: Pads, s: Spatial, now: int, clear: bool)
    requires s.contact.lastMove.Some? && (s.contact.origin.Some? <==> s.contact.lastCenter.Some?)
    requires Ready(s, clear) && s.seeded
    ensures var (t, es) := Follow(cfg, s, now);
            Told(clear, es) && Ready(t, Left(clear, es)) && t.seeded
  {
    hide Told, Left, Positions, Center, Mixed, Moved, Departing, Off;
    TellNone(clear);
    if Positions(cfg.axis, s.stable) != {} && s.contact.origin.Some? {
      MovedMoves(s.contact, Positions(cfg.axis, s.stable), Center(|cfg.axis|, Positions(cfg.axis, s.stable)), now);
    }
    var gone := [Plain(Invalidate, s.id), Plain(Release, s.id)];
    assert gone == [gone[0]] + [gone[1]];
    TellBoth(clear, [gone[0]], [gone[1]]);
    TellOne(clear, gone[0]);
    TellOne(true, gone[1]);
  }

  lemma PressTells(cfg: Pads, step: ButtonStep, s: Spatial, active: set<nat>, now: int, clear: bool)
    requires active == {} ==> LastOff(cfg.electrodes, s.raw).Some?
    requires Telling(step) && Ready(s, clear) && s.seeded
    ensures var (t, es) := PressButton(cfg, step, s, active, now);
            Told(clear, es) && Ready(t, Left(clear, es)) && t.seeded
  {
    hide Told, Left, Telling, LastOff;
    TellNone(clear);
    if !s.contact.moving {
      StepTold(step, s.button, true, EdgeTime(cfg, s, active, now), clear);
    }
  }

  lemma TrackTells(cfg: Pads, step: ButtonStep, s: Spatial, active: set<nat>, now: int, clear: bool)
    requires Trackable(cfg, s, active) && s.seeded && Telling(step) && Ready(s, clear)
    requires !s.cycle ==> !s.contact.moving
    ensures var (t, es) := Track(cfg, step, s, active, now);
            Told(clear, es) && Ready(t, Left(clear, es)) && t.seeded
  {
    hide Told, Left, Poised, Telling, LastOff, EdgeTime, Follow, PressButton, Positions, Center;
    TellNone(clear);
    if s.stable != {} && s.cycle {
      FollowKeeps(cfg, s, now);
      FollowTells(cfg, s, now, clear);
      var (s1, e1) := Follow(cfg, s, now);
      PressTells(cfg, step, s1, active, now, Left(clear, e1));
      TellBoth(clear, e1, PressButton(cfg, step, s1, active, now).1);
    } else if s.stable != {} && active != {} && now - s.contactSince >= cfg.debounce {
      PressTells(cfg, step, BeginCycle(cfg, s, now), active, now, clear);
    } else {
      StepTold(step, s.button, false, now, clear);
    }
  }

  lemma EdgeTells(s: Spatial, active: set<nat>, now: int, clear: bool)
    requires Ready(s, clear)
    ensures var (t, es) := RawEdge(s, active, now);
            Told(clear, es) && Ready(t, Left(clear, es)) && t.seeded == s.seeded
  {
    hide Told, Left;
    TellNone(clear);
    TellOne(clear, Plain(Invalidate, s.id));
  }

  lemma IdleTells(cfg: Pads, step: ButtonStep, s: Spatial, mask: set<nat>, now: int, clear: bool)
    requires Valid(cfg, s) && Telling(step) && Ready(s, clear) && !(s.seeded && s.armed)
    ensures var (t, es) := SpatialStep(cfg, step, s, mask, now);
            Told(clear, es) && Ready(t, Left(clear, es))
  {
    hide Told, Left, Poised, Telling;
    var active := Active(cfg, mask);
    TellNone(clear);
    Reset(step, active != {}, now, clear);
    EdgeTells(s, active, now, clear);
    Reset(step, false, now, Left(clear, RawEdge(s, active, now).1));
  }

  lemma StepTells(cfg: Pads, step: ButtonStep, s: Spatial, x: Sweep, clear: bool)
    requires Valid(cfg, s) && Telling(step) && Ready(s, clear)
    ensures var (t, es) := SpatialStep(cfg, step, s, x.mask, x.at);
            Told(clear, es) && Ready(t, Left(clear, es))
  {
    if s.seeded && s.armed {
      hide Told, Left, Poised, Telling, Track, ResolveOld, Trackable, Footprint;
      var active := Active(cfg, x.mask);
      var (c, e0) := RawEdge(s, active, x.at);
      var f := Footprint(cfg, c, active, x.at);
      var (m, e1) := Prepared(cfg, step, s, active, x.at);
      PreparedTrackable(cfg, step, s, active, x.at);
      FootprintFields(cfg, c, active, x.at);
      EdgeTells(s, active, x.at, clear);
      ResolveOldFacts(cfg, step, f, active, x.at);
      ResolveOldTells(cfg, step, f, active, x.at, Left(clear, e0));
      TellBoth(clear, e0, e1);
      TrackTells(cfg, step, m, active, x.at, Left(clear, e0 + e1));
      TellBoth(clear, e0 + e1, Track(cfg, step, m, active, x.at).1);
    } else {
      hide SpatialStep, Told, Left, Poised, Telling;
      IdleTells(cfg, step, s, x.mask, x.at, clear);
    }
  }

  /** The spatial recognizer heralds its guarded events in every run, for every
      button configuration. */
  lemma {:induction false} SpatialHeralds(cfg: Pads, bcfg: ButtonConfig, h: seq<Sweep>)
    ensures Told(true, SpatialRun(cfg, StepOf(bcfg), h).1)
    ensures Ready(SpatialRun(cfg, StepOf(bcfg), h).0, Left(true, SpatialRun(cfg, StepOf(bcfg), h).1))
  {
    hide Told, Left, SpatialStep, Telling;
    TellNone(true);
    if h != [] {
      var (s, log) := SpatialRun(cfg, StepOf(bcfg), h[..|h| - 1]);
      var x := h[|h| - 1];
      SpatialHeralds(cfg, bcfg, h[..|h| - 1]);
      ButtonsTell(bcfg);
      StepTells(cfg, StepOf(bcfg), s, x, Left(true, log));
      TellBoth(true, log, SpatialStep(cfg, StepOf(bcfg), s, x.mask, x.at).1);
    }
  }

  // ----- the queue behind a recognizer -----

  /** The handler feeds the queue from one recognizer after another, and
      invalidates whenever it replaces one. */
  function Replaced(logs: seq<seq<Event>>): seq<Event> {
    if logs == [] then []
    else if |logs| == 1 then logs[0]
    else Replaced(logs[..|logs| - 1]) + [Plain(Invalidate, 0)] + logs[|logs| - 1]
  }

  /** The log of a button, or of a spatial recognizer. */
  ghost predicate FromRecognizer(es: seq<Event>) {
    || (exists cfg: ButtonConfig, ops :: es == Emitted(Runs.Log(cfg, ops)))
    || (exists cfg: Pads, bcfg: ButtonConfig, h :: es == SpatialRun(cfg, StepOf(bcfg), h).1)
  }

  lemma RecognizerTells(es: seq<Event>)
    requires FromRecognizer(es)
    ensures Told(true, es)
  {
    hide Told, Left;
    if cfg: ButtonConfig, ops :| es == Emitted(Runs.Log(cfg, ops)) {
      ButtonHeralds(cfg, ops);
    } else {
      var cfg: Pads, bcfg: ButtonConfig, h :| es == SpatialRun(cfg, StepOf(bcfg), h).1;
      SpatialHeralds(cfg, bcfg, h);
    }
  }

  lemma {:induction false} ReplacedTells(logs: seq<seq<Event>>)
    requires forall es <- logs :: FromRecognizer(es)
    ensures Told(true, Replaced(logs))
  {
    hide Told, Left, FromRecognizer;
    TellNone(true);
    if |logs| == 1 {
      RecognizerTells(logs[0]);
    } else if logs != [] {
      var front, es := Replaced(logs[..|logs| - 1]), logs[|logs| - 1];
      ReplacedTells(logs[..|logs| - 1]);
      RecognizerTells(es);
      TellBoth(true, front, [Plain(Invalidate, 0)]);
      TellOne(Left(true, front), Plain(Invalidate, 0));
      TellBoth(true, front + [Plain(Invalidate, 0)], es);
    }
  }

  /** `actions` are those of a handler whose poll thread worked through the events
      of its recognizers, as far as it got. */
  ghost predicate Handles(actions: seq<Queue.Action>, logs: seq<seq<Event>>) {
    && (forall es <- logs :: FromRecognizer(es))
    && (forall a <- actions :: a.Resolve? ==> Queue.Queueable(a.kind))
    && Queue.Follows(Queue.Poll(actions), Kinds(Replaced(logs)))
  }

  lemma HandledIsFed(actions: seq<Queue.Action>, logs: seq<seq<Event>>)
    requires Handles(actions, logs)
    ensures Queue.Fed(actions)
  {
    ReplacedTells(logs);
    Queue.FollowsHeralded(Queue.Poll(actions), Kinds(Replaced(logs)), true, true);
  }

  /** Whatever was queued before a hold, a triple or a swipe never begins after it
      was queued, in every interleaving of a handler's threads. */
  lemma GesturesStandAlone(actions: seq<Queue.Action>, logs: seq<seq<Event>>, i: nat, j: nat)
    requires Handles(actions, logs)
    requires i < j < |Queue.Run(actions).1|
    requires Queue.Run(actions).1[i].Queued? && Queue.Guarded(Queue.Run(actions).1[i].item.kind)
    requires Queue.Run(actions).1[j].Begun?
    ensures Queue.Run(actions).1[i].item.serial <= Queue.Run(actions).1[j].item.serial
  {
    HandledIsFed(actions, logs);
    Queue.NothingAheadBegins(actions, i, j);
  }

  /** And the guard drops such a gesture exactly while an action runs. */
  lemma GuardDropsExactly(actions: seq<Queue.Action>, logs: seq<seq<Event>>, kind: Kind)
    requires Queue.Guarded(kind) && !Queue.Run(actions).0.stopped
    requires Handles(actions + [Queue.Resolve(kind)], logs)
    ensures var s := Queue.Run(actions).0;
            && (Queue.Resolved(s, kind).1 == [Queue.Discarded(kind)] <==> s.running.Some?)
            && forall x <- Queue.Waiting(s) :: !Queue.Fresh(s, x)
  {
    HandledIsFed(actions + [Queue.Resolve(kind)], logs);
    Queue.GuardSuffices(actions, kind);
  }
}
