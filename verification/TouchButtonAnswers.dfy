/** What the button recognizer answers to each sample: exactly the events its
    gesture so far calls for, no fewer and no more. */
module TouchButtonAnswers {
  import opened Common
  import opened Debounce
  import opened TouchButton
  import opened TouchButtonRuns

  /** Where the current gesture stands: nothing open, a press, or a burst of short
      taps the last of which was released at `at`. */
  datatype Stage = Idle | Down(taps: nat, start: int, tier: nat) | Waiting(taps: nat, at: int)

  /** The stage after one more event, told from the event alone. */
  function Told(cfg: ButtonConfig, p: Stage, x: Entry): Stage {
    var e := x.event;
    match e.kind
    case Press => Down(e.count, x.since, 0)
    case HoldTier => if p.Down? then p.(tier := e.count) else p
    case Release => if e.held < cfg.thresholds[0] && cfg.multiClick then Waiting(e.count + 1, x.at) else Idle
    case Hold => Idle
    case Cue => Idle
    case Triple => Idle
    case _ => p
  }

  function Retold(cfg: ButtonConfig, p: Stage, log: seq<Entry>): Stage {
    if log == [] then p else Told(cfg, Retold(cfg, p, log[..|log| - 1]), log[|log| - 1])
  }

  /** The stage of a run; a cancellation closes what is open. */
  function Now(cfg: ButtonConfig, ops: seq<Op>): Stage {
    if ops == [] then Idle
    else
      var before := ops[..|ops| - 1];
      match ops[|ops| - 1]
      case Sample(x) =>
        var (s, events) := Step(cfg, Run(cfg, before), x.touched, x.at);
        Retold(cfg, Now(cfg, before), Stamp(events, x.at, s.since, x.touched))
      case Cancel => Idle
  }

  // ----- what a sample calls for -----

  /** The time of the first sample of the constant run that sample `x` belongs to. */
  function RunStart(s: State, x: Tick): int {
    if x.touched == s.candidate then s.since else x.at
  }

  /** A sample that touches after one that did not cancels what is queued. */
  function OnTurn(s: State, x: Tick): seq<Event> {
    if x.touched && !s.candidate then [Plain(Invalidate, s.id)] else []
  }

  /** An accepted touch goes on with a burst whose window is open, or begins anew. */
  function OnPress(p: Stage, id: nat, since: int): seq<Event> {
    [if p.Waiting? && since < p.at + 400 then Event(Press, id, p.taps, 0, 0) else Event(Press, id + 1, 0, 0, 0)]
  }

  /** An accepted release ends the press: a hold, the first tap of a burst, or a
      later one. */
  function OnRelease(cfg: ButtonConfig, p: Stage, id: nat, since: int): seq<Event> {
    if !p.Down? then []
    else
      var held := since - p.start;
      [Event(Release, id, p.taps, held, 0)]
      + (if held >= cfg.thresholds[0] then [Plain(Invalidate, id), Event(Hold, id, 0, held, 0)]
         else if p.taps == 0 then [Event(Single, id, 1, held, 0)] else [])
  }

  /** A touch, or its end, that has lasted the debounce. */
  function OnEdge(cfg: ButtonConfig, p: Stage, s: State, x: Tick): seq<Event> {
    if s.stable == Some(x.touched) || x.at - RunStart(s, x) < cfg.delay then []
    else if !x.touched then OnRelease(cfg, p, s.id, RunStart(s, x))
    else if s.armed then OnPress(p, s.id, RunStart(s, x))
    else []
  }

  /** A tier a press has reached is announced, and fires if it should. */
  function OnHold(cfg: ButtonConfig, p: Stage, id: nat, until: int): seq<Event> {
    if !p.Down? || Tier(cfg.thresholds, until - p.start) <= p.tier then []
    else
      var held := until - p.start;
      [Event(HoldTier, id, Tier(cfg.thresholds, held), held, 0)]
      + if cfg.holdOnThreshold then [Plain(Invalidate, id), Event(Hold, id, 0, held, 0)] else []
  }

  /** A burst whose window is over is resolved while nothing is touched. */
  function OnQuiet(p: Stage, id: nat, x: Tick, stable: bool): seq<Event> {
    if !p.Waiting? || x.touched || stable || x.at < p.at + 400 then []
    else [Event(if p.taps == 3 then Triple else Cue, id, p.taps, 0, 0)]
  }

  // ----- the stage is what the state remembers -----

  predicate Matches(cfg: ButtonConfig, s: State, p: Stage) {
    && (!cfg.multiClick ==> s.clicks == 0)
    && (s.clicks > 0 <==> s.deadline.Some?)
    && match p
       case Down(taps, start, tier) =>
         s.pressStart == Some(start) && s.clicks == taps && s.tier == tier && s.stable == Some(true)
       case Waiting(taps, at) =>
         s.pressStart.None? && s.clicks == taps > 0 && s.deadline == Some(at + 400)
       case Idle => s.pressStart.None? && s.clicks == 0
  }

  lemma RetoldNone(cfg: ButtonConfig, p: Stage, at: int, since: int, touched: bool)
    ensures Retold(cfg, p, Stamp([], at, since, touched)) == p
  {
  }

  lemma RetoldOne(cfg: ButtonConfig, p: Stage, e: Event, at: int, since: int, touched: bool)
    ensures Retold(cfg, p, Stamp([e], at, since, touched)) == Told(cfg, p, Entry(at, since, touched, e))
  {
    var log := Stamp([e], at, since, touched);
    assert log == [Entry(at, since, touched, e)] && log[..0] == [];
  }

  lemma {:induction false} RetoldJoin(cfg: ButtonConfig, p: Stage, a: seq<Event>, b: seq<Event>, at: int, since: int, touched: bool)
    ensures Retold(cfg, p, Stamp(a + b, at, since, touched))
         == Retold(cfg, Retold(cfg, p, Stamp(a, at, since, touched)), Stamp(b, at, since, touched))
  {
    hide Told;
    if b == [] {
      assert a + b == a;
      RetoldNone(cfg, Retold(cfg, p, Stamp(a, at, since, touched)), at, since, touched);
    } else {
      var c, e := b[..|b| - 1], b[|b| - 1];
      RetoldJoin(cfg, p, a, c, at, since, touched);
      RetoldLast(cfg, p, a + c, e, at, since, touched);
      RetoldLast(cfg, Retold(cfg, p, Stamp(a, at, since, touched)), c, e, at, since, touched);
      assert a + c + [e] == a + b && c + [e] == b;
    }
  }

  lemma RetoldLast(cfg: ButtonConfig, p: Stage, a: seq<Event>, e: Event, at: int, since: int, touched: bool)
    ensures Retold(cfg, p, Stamp(a + [e], at, since, touched))
         == Told(cfg, Retold(cfg, p, Stamp(a, at, since, touched)), Entry(at, since, touched, e))
  {
    var log := Stamp(a + [e], at, since, touched);
    assert log[..|log| - 1] == Stamp(a, at, since, touched);
  }

  lemma TurnAnswers(cfg: ButtonConfig, s: State, p: Stage, x: Tick)
    requires Matches(cfg, s, p)
    ensures var (t, es) := Candidate(s, x.touched, x.at);
            && es == OnTurn(s, x) && t == s.(candidate := x.touched, since := RunStart(s, x))
            && Matches(cfg, t, p) && Retold(cfg, p, Stamp(es, x.at, t.since, x.touched)) == p
  {
    RetoldNone(cfg, p, x.at, RunStart(s, x), x.touched);
    RetoldOne(cfg, p, Plain(Invalidate, s.id), x.at, RunStart(s, x), x.touched);
  }

  lemma PressAnswers(cfg: ButtonConfig, s: State, p: Stage, x: Tick)
    requires Matches(cfg, s, p) && !p.Down? && s.stable == Some(true)
    ensures var (t, es) := AcceptPress(s); var q := Retold(cfg, p, Stamp(es, x.at, s.since, x.touched));
            es == OnPress(p, s.id, s.since) && Matches(cfg, t, q) && q.Down?
            && t.since == s.since && t.candidate == s.candidate && t.stable == s.stable && t.armed == s.armed
  {
    hide Retold;
    RetoldOne(cfg, p, AcceptPress(s).1[0], x.at, s.since, x.touched);
  }

  lemma ReleaseAnswers(cfg: ButtonConfig, s: State, p: Stage, x: Tick)
    requires Matches(cfg, s.(stable := Some(true)), p) && s.stable == Some(false)
    ensures var (t, es) := AcceptRelease(cfg, s, x.at); var q := Retold(cfg, p, Stamp(es, x.at, s.since, x.touched));
            es == OnRelease(cfg, p, s.id, s.since) && Matches(cfg, t, q) && !q.Down?
            && t.since == s.since && t.candidate == s.candidate && t.stable == s.stable && t.armed
  {
    hide Retold;
    RetoldNone(cfg, p, x.at, s.since, x.touched);
    if p.Down? {
      var held := s.since - p.start;
      var release := Event(Release, s.id, p.taps, held, 0);
      var hold := [Plain(Invalidate, s.id), Event(Hold, s.id, 0, held, 0)];
      var q := Told(cfg, p, Entry(x.at, s.since, x.touched, release));
      RetoldOne(cfg, p, release, x.at, s.since, x.touched);
      RetoldNone(cfg, q, x.at, s.since, x.touched);
      if held >= cfg.thresholds[0] {
        RetoldJoin(cfg, p, [release], hold, x.at, s.since, x.touched);
        HoldTold(cfg, q, s.id, held, x.at, s.since, x.touched);
      } else if p.taps == 0 {
        var tap := Event(Single, s.id, 1, held, 0);
        RetoldJoin(cfg, p, [release], [tap], x.at, s.since, x.touched);
        RetoldOne(cfg, q, tap, x.at, s.since, x.touched);
      } else {
        assert [release] + [] == [release];
      }
    }
  }

  lemma HoldTold(cfg: ButtonConfig, p: Stage, id: nat, held: int, at: int, since: int, touched: bool)
    ensures Retold(cfg, p, Stamp([Plain(Invalidate, id), Event(Hold, id, 0, held, 0)], at, since, touched)) == Idle
  {
    hide Retold;
    var a, b := Plain(Invalidate, id), Event(Hold, id, 0, held, 0);
    assert [a, b] == [a] + [b];
    RetoldJoin(cfg, p, [a], [b], at, since, touched);
    RetoldOne(cfg, p, a, at, since, touched);
    RetoldOne(cfg, p, b, at, since, touched);
  }

  lemma EdgeAnswers(cfg: ButtonConfig, s: State, p: Stage, x: Tick)
    requires s.stable.Some? && s.candidate == x.touched && Matches(cfg, s, p)
    requires s.pressStart.Some? ==> s.stable == Some(true)
    ensures var (t, es) := Accept(cfg, s, x.touched, x.at); var q := Retold(cfg, p, Stamp(es, x.at, s.since, x.touched));
            && es == OnEdge(cfg, p, s, x) && Matches(cfg, t, q)
            && t.since == s.since && t.candidate == s.candidate
            && t.stable == if x.at - s.since >= cfg.delay then Some(x.touched) else s.stable
  {
    hide Retold, AcceptPress, AcceptRelease, OnPress, OnRelease;
    RetoldNone(cfg, p, x.at, s.since, x.touched);
    if s.stable != Some(x.touched) && x.at - s.since >= cfg.delay {
      if !x.touched {
        ReleaseAnswers(cfg, s.(stable := Some(false)), p, x);
      } else {
        PressAnswers(cfg, s.(stable := Some(true)), p, x);
      }
    }
  }

  lemma HoldAnswers(cfg: ButtonConfig, s: State, p: Stage, x: Tick)
    requires Matches(cfg, s, p)
    ensures var (t, es) := Tiers(cfg, s, x.touched, x.at); var q := Retold(cfg, p, Stamp(es, x.at, s.since, x.touched));
            && es == OnHold(cfg, p, s.id, if x.touched then x.at else s.since)
            && Matches(cfg, t, q) && t.since == s.since && t.stable == s.stable && t.id == s.id && t.candidate == s.candidate
  {
    hide Retold, Tier;
    RetoldNone(cfg, p, x.at, s.since, x.touched);
    if p.Down? {
      var held := (if x.touched then x.at else s.since) - p.start;
      var tier := Event(HoldTier, s.id, Tier(cfg.thresholds, held), held, 0);
      var hold := [Plain(Invalidate, s.id), Event(Hold, s.id, 0, held, 0)];
      var q := Told(cfg, p, Entry(x.at, s.since, x.touched, tier));
      RetoldOne(cfg, p, tier, x.at, s.since, x.touched);
      RetoldJoin(cfg, p, [tier], hold, x.at, s.since, x.touched);
      HoldTold(cfg, q, s.id, held, x.at, s.since, x.touched);
      assert [tier] + [] == [tier];
      assert [tier] + hold == [tier, hold[0], hold[1]];
    }
  }

  lemma QuietAnswers(cfg: ButtonConfig, s: State, p: Stage, x: Tick)
    requires Matches(cfg, s, p) && s.stable.Some?
    ensures var (t, es) := Resolve(s, x.touched, x.at); var q := Retold(cfg, p, Stamp(es, x.at, s.since, x.touched));
            && es == OnQuiet(p, s.id, x, s.stable.value) && Matches(cfg, t, q) && t.since == s.since
  {
    hide Retold;
    RetoldNone(cfg, p, x.at, s.since, x.touched);
    if p.Waiting? {
      RetoldOne(cfg, p, Event(if p.taps == 3 then Triple else Cue, s.id, p.taps, 0, 0), x.at, s.since, x.touched);
    } else if p.Down? {
      assert s.stable == Some(true);
    }
  }

  // ----- over whole runs -----

  /** The gesture after an edge: a press may have begun a new one. */
  function Named(es: seq<Event>, id: nat): nat {
    if es != [] && es[0].kind == Press then es[0].id else id
  }

  /** The debounced value after a sample. */
  function Stable(cfg: ButtonConfig, s: State, x: Tick): bool
    requires s.stable.Some?
  {
    if x.at - RunStart(s, x) >= cfg.delay then x.touched else s.stable.value
  }

  /** All a sample calls for, in order. */
  function Answer(cfg: ButtonConfig, p: Stage, s: State, x: Tick): seq<Event>
    requires s.stable.Some?
  {
    var since, edge := RunStart(s, x), OnEdge(cfg, p, s, x);
    var pressed := Retold(cfg, p, Stamp(edge, x.at, since, x.touched));
    var held := OnHold(cfg, pressed, Named(edge, s.id), if x.touched then x.at else since);
    var quiet := Retold(cfg, pressed, Stamp(held, x.at, since, x.touched));
    OnTurn(s, x) + edge + held + OnQuiet(quiet, Named(edge, s.id), x, Stable(cfg, s, x))
  }

  lemma EdgeNames(cfg: ButtonConfig, s: State, touched: bool, at: int)
    ensures var (t, es) := Accept(cfg, s, touched, at); t.id == Named(es, s.id)
  {
  }

  lemma EdgeSame(cfg: ButtonConfig, p: Stage, s: State, x: Tick)
    ensures OnEdge(cfg, p, s.(candidate := x.touched, since := RunStart(s, x)), x) == OnEdge(cfg, p, s, x)
  {
  }

  lemma StepAnswers(cfg: ButtonConfig, s: State, p: Stage, x: Tick)
    requires Matches(cfg, s, p) && s.stable.Some?
    ensures var (t, es) := Step(cfg, s, x.touched, x.at);
            && es == Answer(cfg, p, s, x) && t.since == RunStart(s, x) && t.stable == Some(Stable(cfg, s, x))
            && Matches(cfg, t, Retold(cfg, p, Stamp(es, x.at, t.since, x.touched)))
  {
    hide Matches, Retold, Candidate, Accept, Tiers, Resolve, OnTurn, OnEdge, OnHold, OnQuiet, Named;
    var (s1, e1) := Candidate(s, x.touched, x.at);
    TurnAnswers(cfg, s, p, x);
    var (s2, e2) := Accept(cfg, s1, x.touched, x.at);
    MatchesPress(cfg, s, p);
    EdgeAnswers(cfg, s1, p, x);
    EdgeSame(cfg, p, s, x);
    EdgeNames(cfg, s1, x.touched, x.at);
    var p2 := Retold(cfg, p, Stamp(e2, x.at, s2.since, x.touched));
    var (s3, e3) := Tiers(cfg, s2, x.touched, x.at);
    HoldAnswers(cfg, s2, p2, x);
    var p3 := Retold(cfg, p2, Stamp(e3, x.at, s3.since, x.touched));
    var (s4, e4) := Resolve(s3, x.touched, x.at);
    QuietAnswers(cfg, s3, p3, x);
    QuietKeeps(s3, x.touched, x.at);
    RetoldJoin(cfg, p, e1, e2, x.at, s4.since, x.touched);
    RetoldJoin(cfg, p, e1 + e2, e3, x.at, s4.since, x.touched);
    RetoldJoin(cfg, p, e1 + e2 + e3, e4, x.at, s4.since, x.touched);
  }

  lemma MatchesPress(cfg: ButtonConfig, s: State, p: Stage)
    requires Matches(cfg, s, p)
    ensures s.pressStart.Some? ==> s.stable == Some(true)
  {
  }

  lemma QuietKeeps(s: State, touched: bool, at: int)
    ensures Resolve(s, touched, at).0.stable == s.stable
  {
  }

  lemma {:induction false} RunMatches(cfg: ButtonConfig, ops: seq<Op>)
    ensures Matches(cfg, Run(cfg, ops), Now(cfg, ops))
  {
    hide Step, Retold;
    if ops != [] {
      var front := ops[..|ops| - 1];
      var s := Run(cfg, front);
      RunMatches(cfg, front);
      match ops[|ops| - 1]
      case Cancel =>
      case Sample(x) =>
        if s.stable.Some? {
          hide Matches;
          StepAnswers(cfg, s, Now(cfg, front), x);
        } else {
          SeedMatches(cfg, s, Now(cfg, front), x);
        }
    }
  }

  lemma SeedMatches(cfg: ButtonConfig, s: State, p: Stage, x: Tick)
    requires Matches(cfg, s, p) && s.stable.None?
    ensures var (t, es) := Step(cfg, s, x.touched, x.at);
            es == [] && t.stable == Some(x.touched) && Matches(cfg, t, Retold(cfg, p, Stamp(es, x.at, t.since, x.touched)))
  {
    RetoldNone(cfg, p, x.at, x.at, x.touched);
  }

  /** In every run, cancelled or not, each sample is answered by exactly what the
      current gesture calls for. */
  lemma AnswersExactly(cfg: ButtonConfig, ops: seq<Op>, x: Tick)
    ensures var s := Run(cfg, ops);
            Step(cfg, s, x.touched, x.at).1 == if s.stable.None? then [] else Answer(cfg, Now(cfg, ops), s, x)
  {
    RunMatches(cfg, ops);
    hide Step, Matches, Answer;
    if Run(cfg, ops).stable.Some? {
      StepAnswers(cfg, Run(cfg, ops), Now(cfg, ops), x);
    } else {
      SeedMatches(cfg, Run(cfg, ops), Now(cfg, ops), x);
    }
  }

  /** Whether the next accepted touch is a press: after a release was accepted, or
      a first sample without touch, until a cancellation or a hold that fires. */
  lemma ArmedExactly(cfg: ButtonConfig, ops: seq<Op>, x: Tick)
    ensures var (s, es) := Step(cfg, Run(cfg, ops), x.touched, x.at);
            s.armed == if Run(cfg, ops).stable.None? then !x.touched
                       else (Run(cfg, ops).armed || (Run(cfg, ops).stable == Some(true) && s.stable == Some(false)))
                            && !(cfg.holdOnThreshold && exists e :: e in es && e.kind == HoldTier)
    ensures !Cancelled(Run(cfg, ops)).armed
  {
    hide Run;
    StepArms(cfg, Run(cfg, ops), x);
  }

  lemma StepArms(cfg: ButtonConfig, s: State, x: Tick)
    ensures var (t, es) := Step(cfg, s, x.touched, x.at);
            t.armed == if s.stable.None? then !x.touched
                       else (s.armed || (s.stable == Some(true) && t.stable == Some(false)))
                            && !(cfg.holdOnThreshold && exists e :: e in es && e.kind == HoldTier)
  {
    hide Tier, AcceptPress, AcceptRelease;
    if s.stable.Some? {
      var (s1, e1) := Candidate(s, x.touched, x.at);
      var (s2, e2) := Accept(cfg, s1, x.touched, x.at);
      var (s3, e3) := Tiers(cfg, s2, x.touched, x.at);
      var e4 := Resolve(s3, x.touched, x.at).1;
      EdgeArms(cfg, s1, x);
      TierShown(e1, e2, e3, e4);
    }
  }

  lemma EdgeArms(cfg: ButtonConfig, s: State, x: Tick)
    requires s.stable.Some?
    ensures var (t, es) := Accept(cfg, s, x.touched, x.at);
            && t.armed == (s.armed || (s.stable == Some(true) && t.stable == Some(false)))
            && forall e <- es :: e.kind != HoldTier
  {
    assert s.stable == Some(s.stable.value);
    if s.stable.value {
      assert s.stable == Some(true);
    } else {
      assert s.stable == Some(false);
    }
  }

  lemma TierShown(a: seq<Event>, b: seq<Event>, c: seq<Event>, d: seq<Event>)
    requires forall e <- a + b + d :: e.kind != HoldTier
    requires c != [] ==> c[0].kind == HoldTier
    ensures (exists e :: e in a + b + c + d && e.kind == HoldTier) <==> c != []
  {
    assert forall e <- a + b + c + d :: e in a + b + d || e in c;
    if c != [] {
      assert c[0] in a + b + c + d;
    }
  }

  /** A burst whose window is over is answered at the next sample without touch:
      three taps by a triple, any other number by a cue. */
  lemma BurstResolves(cfg: ButtonConfig, ops: seq<Op>, x: Tick)
    requires Now(cfg, ops).Waiting? && Run(cfg, ops).stable == Some(false)
    requires !x.touched && x.at >= Now(cfg, ops).at + 400
    ensures var n := Now(cfg, ops).taps;
            Step(cfg, Run(cfg, ops), x.touched, x.at).1
            == [Event(if n == 3 then Triple else Cue, Run(cfg, ops).id, n, 0, 0)]
  {
    AnswersExactly(cfg, ops, x);
    hide Step, Run, Now;
    RetoldNone(cfg, Now(cfg, ops), x.at, RunStart(Run(cfg, ops), x), x.touched);
  }

  // ----- the stage and the story -----

  predicate Uncancelled(ops: seq<Op>) {
    forall op <- ops :: op.Sample?
  }

  /** An outcome leaves the story of its gesture done. */
  lemma FinalIsDone(cfg: ButtonConfig, log: seq<Entry>, k: nat)
    requires k < |log| && Final(log[k].event.kind) && Story(cfg, log, log[k].event.id) != Broken
    ensures Story(cfg, log, log[k].event.id) == Done
  {
    hide Next;
    var g := log[k].event.id;
    StoryPrefix(cfg, log, k + 1, g);
    assert log[..k + 1] == log[..k] + [log[k]];
    StoryStep(cfg, log[..k], log[k], g);
    FinalEnds(cfg, Story(cfg, log[..k], g), log[k]);
    DoneStays(cfg, log, k + 1, g);
  }

  /** Events that end nothing leave open what is open, and a press opens. */
  lemma {:induction false} RetoldOpen(cfg: ButtonConfig, p: Stage, log: seq<Entry>)
    requires cfg.multiClick
    requires forall x <- log :: !Final(x.event.kind) && (x.event.kind == Release ==> x.event.held < cfg.thresholds[0])
    ensures p != Idle || (exists x :: x in log && x.event.kind == Press) ==> Retold(cfg, p, log) != Idle
  {
    if log != [] {
      RetoldOpen(cfg, p, log[..|log| - 1]);
      assert forall x <- log :: x in log[..|log| - 1] || x == log[|log| - 1];
    }
  }

  /** Events that neither press nor tell of a press change no story. */
  lemma {:induction false} StoryQuiet(cfg: ButtonConfig, log: seq<Entry>, more: seq<Entry>, g: nat)
    requires forall x <- more :: x.event.kind == Invalidate
    ensures Story(cfg, log + more, g) == Story(cfg, log, g)
  {
    if more == [] {
      assert log + more == log;
    } else {
      var m, x := more[..|more| - 1], more[|more| - 1];
      assert log + more == log + m + [x];
      StoryQuiet(cfg, log, m, g);
      StoryStep(cfg, log + m, x, g);
    }
  }

  /** What the events of a sample may be, and whose. */
  lemma AnswerKinds(cfg: ButtonConfig, s: State, p: Stage, x: Tick)
    requires Matches(cfg, s, p) && s.stable.Some? && cfg.multiClick
    ensures var (t, es) := Step(cfg, s, x.touched, x.at);
            && (forall e <- es :: Final(e.kind) ==> e.id == t.id)
            && (t.id != s.id ==> exists e :: e in es && e.kind == Press)
            && ((forall e <- es :: !Final(e.kind)) ==>
                  forall e <- es :: e.kind == Release ==> e.held < cfg.thresholds[0])
            && (p == Idle && (forall e <- es :: !Final(e.kind) && e.kind != Press) ==>
                  forall e <- es :: e.kind == Invalidate)
  {
    hide Candidate, Accept, Tiers, Resolve;
    var (s1, e1) := Candidate(s, x.touched, x.at);
    var (s2, e2) := Accept(cfg, s1, x.touched, x.at);
    var (s3, e3) := Tiers(cfg, s2, x.touched, x.at);
    var (s4, e4) := Resolve(s3, x.touched, x.at);
    EdgeKinds(cfg, s1, x.touched, x.at);
    OtherKinds(cfg, s, x.touched, x.at);
    OtherKinds(cfg, s2, x.touched, x.at);
    OtherKinds(cfg, s3, x.touched, x.at);
    var es := e1 + e2 + e3 + e4;
    assert forall e <- es :: e in e1 || e in e2 || e in e3 || e in e4;
    assert forall e <- e2 :: e in es;
  }

  lemma OtherKinds(cfg: ButtonConfig, s: State, touched: bool, at: int)
    ensures var (t, es) := Candidate(s, touched, at);
            (forall e <- es :: e.kind == Invalidate) && t == s.(candidate := t.candidate, since := t.since)
    ensures var (t, es) := Tiers(cfg, s, touched, at);
            && (forall e <- es :: e.id == s.id == t.id && e.kind != Press && e.kind != Release)
            && t.id == s.id && (s.pressStart.None? ==> es == [] && t == s)
    ensures var (t, es) := Resolve(s, touched, at);
            && (forall e <- es :: e.id == s.id && Final(e.kind) && e.kind != Press && e.kind != Release)
            && t.id == s.id && (s.deadline.None? ==> es == [])
  {
    hide Tier;
  }

  lemma EdgeKinds(cfg: ButtonConfig, s: State, touched: bool, at: int)
    ensures var (t, es) := Accept(cfg, s, touched, at);
            && (forall e <- es :: Final(e.kind) ==> e.id == s.id == t.id)
            && (t.id != s.id ==> exists e :: e in es && e.kind == Press)
            && ((forall e <- es :: !Final(e.kind)) ==> forall e <- es :: e.kind == Release ==> e.held < cfg.thresholds[0])
            && (s.pressStart.None? && (forall e <- es :: e.kind != Press) ==>
                  es == [] && t.pressStart.None? && t.deadline == s.deadline)
  {
    var (t, es) := Accept(cfg, s, touched, at);
    if t.id != s.id {
      assert es[0] in es;
    }
    if |es| == 3 {
      assert es[2] in es;
    }
    if |es| == 1 {
      assert es[0] in es;
    }
  }

  predicate Closed(p: Phase) {
    p == Unborn || p == Done
  }

  lemma IdleStep(cfg: ButtonConfig, log: seq<Entry>, s: State, p: Stage, x: Tick, t: State, es: seq<Event>, more: seq<Entry>)
    requires cfg.multiClick && Matches(cfg, s, p) && s.stable.Some?
    requires (t, es) == Step(cfg, s, x.touched, x.at) && more == Stamp(es, x.at, t.since, x.touched)
    requires forall g: nat :: Story(cfg, log + more, g) != Broken
    requires p == Idle ==> Closed(Story(cfg, log, s.id))
    requires Retold(cfg, p, more) == Idle
    ensures Closed(Story(cfg, log + more, t.id))
  {
    hide Matches, Step, Retold, Story, Stamp;
    AnswerKinds(cfg, s, p, x);
    StampKinds(es, x.at, t.since, x.touched);
    if k :| 0 <= k < |es| && Final(es[k].kind) {
      FinalIsDone(cfg, log + more, |log| + k);
    } else {
      assert forall e <- es :: !Final(e.kind);
      RetoldOpen(cfg, p, more);
      assert forall e <- es :: e.kind != Press;
      StoryQuiet(cfg, log, more, s.id);
    }
  }

  /** Without cancellations a multi-click gesture that is not open has no story, or
      one that is done. */
  lemma {:induction false} IdleStory(cfg: ButtonConfig, ops: seq<Op>)
    requires cfg.multiClick && Monotone(Samples(ops)) && Uncancelled(ops)
    ensures Now(cfg, ops) == Idle ==> Closed(Story(cfg, Log(cfg, ops), Run(cfg, ops).id))
  {
    if ops == [] {
    } else {
      var front, x := ops[..|ops| - 1], ops[|ops| - 1].tick;
      var s, p := Run(cfg, front), Now(cfg, front);
      var (t, es) := Step(cfg, s, x.touched, x.at);
      var more := Stamp(es, x.at, t.since, x.touched);
      assert ops[|ops| - 1] in ops && forall op <- front :: op in ops;
      assert Run(cfg, ops) == t && Log(cfg, ops) == Log(cfg, front) + more && Now(cfg, ops) == Retold(cfg, p, more);
      assert Samples(ops) == Samples(front) + [x];
      hide Monotone, Samples, Inv, Matches, Step, Retold, Story, Closed, LatestAt, Run, Log, Now, Stamp;
      MonotonePrefix(Samples(front), x);
      IdleStory(cfg, front);
      GestureGrammar(cfg, ops);
      RunMatches(cfg, front);
      NotBroken(cfg, ops);
      if s.stable.None? {
        SeedMatches(cfg, s, p, x);
        StampKinds(es, x.at, t.since, x.touched);
        assert more == [] && Log(cfg, front) + more == Log(cfg, front);
        RetoldNone(cfg, p, x.at, t.since, x.touched);
        SeedKeepsId(cfg, s, x);
      } else if Now(cfg, ops) == Idle {
        IdleStep(cfg, Log(cfg, front), s, p, x, t, es, more);
      }
    }
  }

  lemma SeedKeepsId(cfg: ButtonConfig, s: State, x: Tick)
    requires s.stable.None?
    ensures Step(cfg, s, x.touched, x.at).0.id == s.id
  {
  }

  lemma NotBroken(cfg: ButtonConfig, ops: seq<Op>)
    requires Inv(cfg, Run(cfg, ops), Log(cfg, ops), LatestAt(Samples(ops)), true)
    ensures forall g: nat :: Story(cfg, Log(cfg, ops), g) != Broken
  {
  }

  lemma StampKinds(es: seq<Event>, at: int, since: int, touched: bool)
    ensures var log := Stamp(es, at, since, touched);
            && |log| == |es| && (forall i :: 0 <= i < |es| ==> log[i].event == es[i])
            && (forall x <- log :: x.event in es)
            && ((exists e :: e in es && e.kind == Press) ==> exists x :: x in log && x.event.kind == Press)
  {
    var log := Stamp(es, at, since, touched);
    if e :| e in es && e.kind == Press {
      var i :| 0 <= i < |es| && es[i] == e;
      assert log[i] in log;
    }
  }

  /** Without cancellations the stage is what the story says: a burst waits exactly
      if the story of the latest gesture is between two taps. */
  lemma WaitingIsBetween(cfg: ButtonConfig, ops: seq<Op>, n: nat, at: int)
    requires cfg.multiClick && Monotone(Samples(ops)) && Uncancelled(ops)
    ensures Now(cfg, ops) == Waiting(n, at) <==> Story(cfg, Log(cfg, ops), Run(cfg, ops).id) == Between(n, at)
  {
    RunMatches(cfg, ops);
    GestureGrammar(cfg, ops);
    hide Monotone, Samples, Run, Log, Story, Now;
    if Now(cfg, ops) == Idle {
      IdleStory(cfg, ops);
    }
  }

  /** So in every run without cancellations a gesture between two taps gets its
      triple, or its cue, at the first sample that finds its window over and
      nothing touched. */
  lemma StoryResolves(cfg: ButtonConfig, ops: seq<Op>, x: Tick, n: nat, at: int)
    requires cfg.multiClick && Monotone(Samples(ops)) && Uncancelled(ops)
    requires Story(cfg, Log(cfg, ops), Run(cfg, ops).id) == Between(n, at)
    requires Run(cfg, ops).stable == Some(false) && !x.touched && x.at >= at + 400
    ensures Step(cfg, Run(cfg, ops), x.touched, x.at).1
         == [Event(if n == 3 then Triple else Cue, Run(cfg, ops).id, n, 0, 0)]
  {
    hide Monotone, Samples, Run, Log, Story, Now, Step;
    WaitingIsBetween(cfg, ops, n, at);
    BurstResolves(cfg, ops, x);
  }
}
