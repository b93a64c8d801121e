/** What the button recognizer guarantees over every run of samples. */
module TouchButtonRuns {
  import opened Common
  import opened Debounce
  import opened TouchButton

  /** One call: a sample, or a cancellation of everything pending. */
  datatype Op = Sample(tick: Tick) | Cancel

  /** An emitted event with the sample that caused it and the time of the
      first sample of the current constant run. */
  datatype Entry = Entry(at: int, since: int, touched: bool, event: Event)

  function Stamp(events: seq<Event>, at: int, since: int, touched: bool): seq<Entry> {
    seq(|events|, i requires 0 <= i < |events| => Entry(at, since, touched, events[i]))
  }

  function Run(cfg: ButtonConfig, ops: seq<Op>): State {
    if ops == [] then INITIAL
    else
      var before := Run(cfg, ops[..|ops| - 1]);
      match ops[|ops| - 1]
      case Sample(x) => Step(cfg, before, x.touched, x.at).0
      case Cancel => Cancelled(before)
  }

  function Log(cfg: ButtonConfig, ops: seq<Op>): seq<Entry> {
    if ops == [] then []
    else
      var before := ops[..|ops| - 1];
      Log(cfg, before) +
      match ops[|ops| - 1]
      case Sample(x) =>
        var (s, events) := Step(cfg, Run(cfg, before), x.touched, x.at);
        Stamp(events, x.at, s.since, x.touched)
      case Cancel => []
  }

  /** The samples of a run, without the cancellations. */
  function Samples(ops: seq<Op>): seq<Tick> {
    if ops == [] then []
    else Samples(ops[..|ops| - 1]) + if ops[|ops| - 1].Sample? then [ops[|ops| - 1].tick] else []
  }

  // ----- debouncing -----

  ghost predicate Tracks(cfg: ButtonConfig, s: State, h: seq<Tick>) {
    if h == [] then s.stable.None?
    else s.stable.Some? && Remembers(cfg.delay, h, s.stable.value, s.candidate, s.since)
  }

  lemma StepKeepsDebounce(cfg: ButtonConfig, s: State, touched: bool, now: int)
    requires s.stable.Some?
    ensures var t := Step(cfg, s, touched, now).0;
            && t.candidate == touched
            && t.since == (if touched == s.candidate then s.since else now)
            && t.stable == if now - t.since >= cfg.delay then Some(touched) else s.stable
  {
  }

  /** The debouncer refines its history: whatever was sampled or cancelled, the
      stable value is that of the latest long-enough constant run. */
  lemma {:induction false} DebounceRefinesHistory(cfg: ButtonConfig, ops: seq<Op>)
    ensures Tracks(cfg, Run(cfg, ops), Samples(ops))
  {
    if ops != [] {
      var before := ops[..|ops| - 1];
      DebounceRefinesHistory(cfg, before);
      match ops[|ops| - 1]
      case Sample(x) =>
        var s, h := Run(cfg, before), Samples(before);
        if h == [] {
          RememberFirst(cfg.delay, x);
          assert Samples(ops) == [x];
        } else {
          StepKeepsDebounce(cfg, s, x.touched, x.at);
          RememberStep(cfg.delay, h, s.stable.value, s.candidate, s.since, x);
        }
      case Cancel =>
        assert Samples(ops) == Samples(before);
    }
  }

  // ----- the grammar of one gesture id -----

  /** How far one gesture id has come. `heard` is the longest hold duration
      announced so far in the current press. */
  datatype Phase =
    | Unborn
    | Pressed(taps: nat, start: int, tier: nat, heard: int)
    | Fired(held: int)
    | Tapped(held: int, at: int)
    | Between(taps: nat, at: int)
    | Done
    | Broken

  /** The grammar: taps separated by less than the click window, then nothing,
      or one hold, or (after the window) a triple for three taps and a cue for
      any other number. Anything else is Broken. */
  function Next(cfg: ButtonConfig, p: Phase, x: Entry): Phase {
    var e := x.event;
    match (p, e.kind)
    case (Unborn, Press) => if e.count == 0 then Pressed(0, x.since, 0, 0) else Broken
    case (Pressed(taps, start, tier, heard), HoldTier) =>
      if e.count > tier && e.count == Tier(cfg.thresholds, e.held)
         && e.held == (if x.touched then x.at else x.since) - start
      then (if cfg.holdOnThreshold then Fired(e.held) else Pressed(taps, start, e.count, e.held)) else Broken
    case (Pressed(taps, start, tier, heard), Release) =>
      if !x.touched && e.count == taps && e.held == x.since - start && tier <= Tier(cfg.thresholds, e.held)
         && (cfg.delay > 0 && !cfg.holdOnThreshold ==> tier == Tier(cfg.thresholds, e.held))
      then
        (if e.held >= cfg.thresholds[0] then Fired(e.held)
         else if taps == 0 then Tapped(e.held, x.at) else Between(taps + 1, x.at))
      else Broken
    case (Fired(held), Hold) => if e.held == held then Done else Broken
    case (Tapped(held, at), Single) => if e.count == 1 && e.held == held then Between(1, at) else Broken
    case (Between(taps, at), Press) =>
      if cfg.multiClick && e.count == taps && x.since < at + DOUBLE_CLICK_WINDOW then Pressed(taps, x.since, 0, 0) else Broken
    case (Between(taps, at), Cue) =>
      if cfg.multiClick && e.count == taps != 3 && x.at >= at + DOUBLE_CLICK_WINDOW then Done else Broken
    case (Between(taps, at), Triple) =>
      if cfg.multiClick && e.count == taps == 3 && x.at >= at + DOUBLE_CLICK_WINDOW then Done else Broken
    case _ => Broken
  }

  /** Entries of other gestures, and cancellations of queued work, are not part of the story. */
  predicate Tells(x: Entry, g: nat) {
    x.event.id == g && x.event.kind != Invalidate
  }

  function Story(cfg: ButtonConfig, log: seq<Entry>, g: nat): Phase {
    if log == [] then Unborn
    else
      var p := Story(cfg, log[..|log| - 1], g);
      var x := log[|log| - 1];
      if Tells(x, g) then Next(cfg, p, x) else p
  }

  lemma StoryStep(cfg: ButtonConfig, log: seq<Entry>, x: Entry, g: nat)
    ensures Story(cfg, log + [x], g) == if Tells(x, g) then Next(cfg, Story(cfg, log, g), x) else Story(cfg, log, g)
  {
    assert (log + [x])[..|log|] == log;
  }

  /** The invariant of a run. `now` is the latest sample time; `settled` says
      the announced tier is up to date. */
  ghost predicate Inv(cfg: ButtonConfig, s: State, log: seq<Entry>, now: int, settled: bool) {
    && Shape(cfg, s)
    && Timely(cfg, s, Story(cfg, log, s.id), now, settled)
    && (forall g: nat :: Story(cfg, log, g) != Broken)
    && (forall g: nat :: g > s.id ==> Story(cfg, log, g) == Unborn)
  }

  ghost predicate Shape(cfg: ButtonConfig, s: State) {
    && (s.pressStart.Some? ==> s.stable == Some(true) && s.armed)
    && (s.stable.None? ==> s.clicks == 0 && s.pressStart.None?)
    && (!s.armed ==> s.clicks == 0 && s.pressStart.None?)
    && (s.deadline.Some? <==> s.clicks > 0)
    && (!cfg.multiClick ==> s.clicks == 0)
  }

  ghost predicate Timely(cfg: ButtonConfig, s: State, story: Phase, now: int, settled: bool) {
    && (s.stable.Some? ==> s.since <= now)
    && (s.pressStart.Some? ==>
          && story.Pressed? && story.taps == s.clicks && story.start == s.pressStart.value && story.tier == s.tier
          && story.start <= s.since && (cfg.holdOnThreshold ==> s.tier == 0)
          && (s.tier == 0 || s.tier == Tier(cfg.thresholds, story.heard))
          && story.start + story.heard <= (if s.candidate then now else s.since)
          && (settled && !s.candidate ==> Tier(cfg.thresholds, s.since - story.start) <= s.tier))
    && (s.pressStart.None? && s.clicks > 0 ==>
          s.deadline.Some? && story == Between(s.clicks, s.deadline.value - DOUBLE_CLICK_WINDOW))
  }

  lemma StoryAppend(cfg: ButtonConfig, log: seq<Entry>, x: Entry)
    ensures forall g: nat :: Story(cfg, log + [x], g)
                               == if Tells(x, g) then Next(cfg, Story(cfg, log, g), x) else Story(cfg, log, g)
  {
    forall g: nat
      ensures Story(cfg, log + [x], g) == if Tells(x, g) then Next(cfg, Story(cfg, log, g), x) else Story(cfg, log, g)
    {
      StoryStep(cfg, log, x, g);
    }
  }

  lemma CandidateKeeps(cfg: ButtonConfig, s: State, log: seq<Entry>, before: int, x: Tick)
    requires s.stable.Some? && Inv(cfg, s, log, before, true) && before <= x.at
    ensures var (t, events) := Candidate(s, x.touched, x.at);
            && Inv(cfg, t, log + Stamp(events, x.at, t.since, x.touched), x.at, x.touched == s.candidate)
            && t.candidate == x.touched && t.stable == s.stable
            && (x.touched != s.candidate ==> t.since == x.at)
  {
    hide Story;
    var (t, events) := Candidate(s, x.touched, x.at);
    if events == [] {
      assert log + Stamp(events, x.at, t.since, x.touched) == log;
    } else {
      var y := Entry(x.at, t.since, x.touched, events[0]);
      assert Stamp(events, x.at, t.since, x.touched) == [y];
      StoryAppend(cfg, log, y);
    }
  }

  lemma AcceptKeeps(cfg: ButtonConfig, s: State, log: seq<Entry>, x: Tick, settled: bool)
    requires s.stable.Some? && Inv(cfg, s, log, x.at, settled) && s.candidate == x.touched
    requires !settled ==> s.since == x.at
    ensures var (t, events) := Accept(cfg, s, x.touched, x.at);
            && Inv(cfg, t, log + Stamp(events, x.at, t.since, x.touched), x.at, settled)
            && t.candidate == x.touched && t.stable.Some? && t.since == s.since
  {
    hide Story;
    var (t, events) := Accept(cfg, s, x.touched, x.at);
    if events == [] {
      assert log + Stamp(events, x.at, t.since, x.touched) == log;
    } else if x.touched {
      var y := Entry(x.at, t.since, x.touched, events[0]);
      assert Stamp(events, x.at, t.since, x.touched) == [y];
      StoryAppend(cfg, log, y);
    } else {
      ReleaseKeeps(cfg, s, log, x, settled);
    }
  }

  lemma ReleaseKeeps(cfg: ButtonConfig, s: State, log: seq<Entry>, x: Tick, settled: bool)
    requires s.stable == Some(true) && Inv(cfg, s, log, x.at, settled) && !s.candidate && !x.touched
    requires !settled ==> s.since == x.at
    requires x.at - s.since >= cfg.delay && s.pressStart.Some?
    ensures var (t, events) := Accept(cfg, s, x.touched, x.at);
            Inv(cfg, t, log + Stamp(events, x.at, t.since, x.touched), x.at, settled)
  {
    hide Story;
    var (t, events) := Accept(cfg, s, x.touched, x.at);
    var story := Story(cfg, log, s.id);
    var held := s.since - s.pressStart.value;
    TierMonotone(cfg.thresholds, story.heard, held);
    var y := Entry(x.at, t.since, x.touched, events[0]);
    StoryAppend(cfg, log, y);
    if |events| == 1 {
      assert Stamp(events, x.at, t.since, x.touched) == [y];
    } else if |events| == 2 {
      var z := Entry(x.at, t.since, x.touched, events[1]);
      assert log + Stamp(events, x.at, t.since, x.touched) == log + [y] + [z];
      StoryAppend(cfg, log + [y], z);
    } else {
      var z, w := Entry(x.at, t.since, x.touched, events[1]), Entry(x.at, t.since, x.touched, events[2]);
      assert log + Stamp(events, x.at, t.since, x.touched) == log + [y] + [z] + [w];
      StoryAppend(cfg, log + [y], z);
      StoryAppend(cfg, log + [y] + [z], w);
    }
  }

  lemma TiersKeep(cfg: ButtonConfig, s: State, log: seq<Entry>, x: Tick, settled: bool)
    requires s.stable.Some? && Inv(cfg, s, log, x.at, settled) && s.candidate == x.touched
    ensures var (t, events) := Tiers(cfg, s, x.touched, x.at);
            && Inv(cfg, t, log + Stamp(events, x.at, t.since, x.touched), x.at, true)
            && t.candidate == x.touched && t.stable.Some? && t.since == s.since
  {
    hide Story;
    var (t, events) := Tiers(cfg, s, x.touched, x.at);
    if events == [] {
      assert log + Stamp(events, x.at, t.since, x.touched) == log;
    } else {
      var y := Entry(x.at, t.since, x.touched, events[0]);
      StoryAppend(cfg, log, y);
      if |events| == 1 {
        assert Stamp(events, x.at, t.since, x.touched) == [y];
      } else {
        var z, w := Entry(x.at, t.since, x.touched, events[1]), Entry(x.at, t.since, x.touched, events[2]);
        assert log + Stamp(events, x.at, t.since, x.touched) == log + [y] + [z] + [w];
        StoryAppend(cfg, log + [y], z);
        StoryAppend(cfg, log + [y] + [z], w);
      }
    }
  }

  lemma ResolveKeeps(cfg: ButtonConfig, s: State, log: seq<Entry>, x: Tick)
    requires s.stable.Some? && Inv(cfg, s, log, x.at, true) && s.candidate == x.touched
    ensures var (t, events) := Resolve(s, x.touched, x.at);
            && Inv(cfg, t, log + Stamp(events, x.at, t.since, x.touched), x.at, true)
            && t.since == s.since
  {
    hide Story;
    var (t, events) := Resolve(s, x.touched, x.at);
    if events == [] {
      assert log + Stamp(events, x.at, t.since, x.touched) == log;
    } else {
      var y := Entry(x.at, t.since, x.touched, events[0]);
      assert Stamp(events, x.at, t.since, x.touched) == [y];
      StoryAppend(cfg, log, y);
    }
  }

  lemma StampJoin(log: seq<Entry>, a: seq<Event>, b: seq<Event>, at: int, since: int, touched: bool)
    ensures log + Stamp(a, at, since, touched) + Stamp(b, at, since, touched) == log + Stamp(a + b, at, since, touched)
  {
  }

  /** The debouncing half of a step. */
  function Edge(cfg: ButtonConfig, s: State, x: Tick): (State, seq<Event>) {
    var (s1, e1) := Candidate(s, x.touched, x.at);
    var (s2, e2) := Accept(cfg, s1, x.touched, x.at);
    (s2, e1 + e2)
  }

  /** The timing half of a step. */
  function Timing(cfg: ButtonConfig, s: State, x: Tick): (State, seq<Event>) {
    var (s3, e3) := Tiers(cfg, s, x.touched, x.at);
    var (s4, e4) := Resolve(s3, x.touched, x.at);
    (s4, e3 + e4)
  }

  lemma EdgeKeeps(cfg: ButtonConfig, s: State, log: seq<Entry>, before: int, x: Tick)
    requires s.stable.Some? && Inv(cfg, s, log, before, true) && before <= x.at
    ensures var (t, events) := Edge(cfg, s, x);
            && Inv(cfg, t, log + Stamp(events, x.at, t.since, x.touched), x.at, x.touched == s.candidate)
            && t.candidate == x.touched && t.stable.Some?
  {
    var (s1, e1) := Candidate(s, x.touched, x.at);
    CandidateKeeps(cfg, s, log, before, x);
    var (s2, e2) := Accept(cfg, s1, x.touched, x.at);
    AcceptKeeps(cfg, s1, log + Stamp(e1, x.at, s1.since, x.touched), x, x.touched == s.candidate);
    StampJoin(log, e1, e2, x.at, s2.since, x.touched);
  }

  lemma TimingKeeps(cfg: ButtonConfig, s: State, log: seq<Entry>, x: Tick, settled: bool)
    requires s.stable.Some? && Inv(cfg, s, log, x.at, settled) && s.candidate == x.touched
    ensures var (t, events) := Timing(cfg, s, x);
            && Inv(cfg, t, log + Stamp(events, x.at, t.since, x.touched), x.at, true)
            && t.since == s.since
  {
    var (s3, e3) := Tiers(cfg, s, x.touched, x.at);
    TiersKeep(cfg, s, log, x, settled);
    var (s4, e4) := Resolve(s3, x.touched, x.at);
    ResolveKeeps(cfg, s3, log + Stamp(e3, x.at, s3.since, x.touched), x);
    StampJoin(log, e3, e4, x.at, s4.since, x.touched);
  }

  lemma StepIsEdgeThenTiming(cfg: ButtonConfig, s: State, x: Tick)
    requires s.stable.Some?
    ensures var (s2, e2) := Edge(cfg, s, x);
            var (s4, e4) := Timing(cfg, s2, x);
            Step(cfg, s, x.touched, x.at) == (s4, e2 + e4)
  {
    var (s1, e1) := Candidate(s, x.touched, x.at);
    var (s2, e2) := Accept(cfg, s1, x.touched, x.at);
    var (s3, e3) := Tiers(cfg, s2, x.touched, x.at);
    var (s4, e4) := Resolve(s3, x.touched, x.at);
    assert e1 + e2 + e3 + e4 == e1 + e2 + (e3 + e4);
  }

  lemma StepKeeps(cfg: ButtonConfig, s: State, log: seq<Entry>, before: int, x: Tick)
    requires s.stable.Some? && Inv(cfg, s, log, before, true) && before <= x.at
    ensures var (t, events) := Step(cfg, s, x.touched, x.at);
            Inv(cfg, t, log + Stamp(events, x.at, t.since, x.touched), x.at, true)
  {
    var (s2, e2) := Edge(cfg, s, x);
    EdgeKeeps(cfg, s, log, before, x);
    var (s4, e4) := Timing(cfg, s2, x);
    TimingKeeps(cfg, s2, log + Stamp(e2, x.at, s2.since, x.touched), x, x.touched == s.candidate);
    StampJoin(log, e2, e4, x.at, s4.since, x.touched);
    StepIsEdgeThenTiming(cfg, s, x);
  }

  function LatestAt(h: seq<Tick>): int {
    if h == [] then 0 else h[|h| - 1].at
  }

  lemma MonotonePrefix(h: seq<Tick>, x: Tick)
    requires Monotone(h + [x])
    ensures Monotone(h) && (h != [] ==> LatestAt(h) <= x.at)
  {
    forall i, j | 0 <= i < j < |h| ensures h[i].at <= h[j].at {
      assert (h + [x])[i] == h[i] && (h + [x])[j] == h[j];
    }
    if h != [] {
      assert (h + [x])[|h| - 1] == h[|h| - 1] && (h + [x])[|h|] == x;
    }
  }

  lemma SeedKeeps(cfg: ButtonConfig, s: State, log: seq<Entry>, before: int, x: Tick)
    requires s.stable.None? && Inv(cfg, s, log, before, true)
    ensures Inv(cfg, Step(cfg, s, x.touched, x.at).0, log, x.at, true)
  {
  }

  lemma CancelKeeps(cfg: ButtonConfig, s: State, log: seq<Entry>, now: int)
    requires Inv(cfg, s, log, now, true)
    ensures Inv(cfg, Cancelled(s), log, now, true)
  {
  }

  /** In every run with a monotone clock every gesture id follows the grammar. */
  lemma {:induction false} GestureGrammar(cfg: ButtonConfig, ops: seq<Op>)
    requires Monotone(Samples(ops))
    ensures Inv(cfg, Run(cfg, ops), Log(cfg, ops), LatestAt(Samples(ops)), true)
  {
    if ops != [] {
      var before := ops[..|ops| - 1];
      var s, log, h := Run(cfg, before), Log(cfg, before), Samples(before);
      DebounceRefinesHistory(cfg, before);
      match ops[|ops| - 1]
      case Cancel =>
        assert Samples(ops) == h && Log(cfg, ops) == log;
        GestureGrammar(cfg, before);
        CancelKeeps(cfg, s, log, LatestAt(h));
      case Sample(x) =>
        assert Samples(ops) == h + [x];
        MonotonePrefix(h, x);
        GestureGrammar(cfg, before);
        if s.stable.None? {
          assert Log(cfg, ops) == log;
          SeedKeeps(cfg, s, log, LatestAt(h), x);
        } else {
          StepKeeps(cfg, s, log, LatestAt(h), x);
        }
    }
  }

  // ----- consequences of the grammar -----

  predicate Final(kind: Kind) {
    kind == Hold || kind == Cue || kind == Triple
  }

  lemma {:induction false} StoryPrefix(cfg: ButtonConfig, log: seq<Entry>, j: nat, g: nat)
    requires j <= |log| && Story(cfg, log, g) != Broken
    ensures Story(cfg, log[..j], g) != Broken
    ensures Story(cfg, log[..j], g) == Done ==> forall k :: j <= k < |log| ==> !Tells(log[k], g)
  {
    if j == |log| {
      assert log[..j] == log;
    } else {
      var front := log[..|log| - 1];
      assert front[..j] == log[..j];
      StoryPrefix(cfg, front, j, g);
      StoryPrefix(cfg, front, |front|, g);
      if Story(cfg, log[..j], g) == Done {
        DoneStays(cfg, front, j, g);
      }
    }
  }

  lemma {:induction false} DoneStays(cfg: ButtonConfig, log: seq<Entry>, j: nat, g: nat)
    requires j <= |log| && Story(cfg, log[..j], g) == Done
    requires forall k :: j <= k < |log| ==> !Tells(log[k], g)
    ensures Story(cfg, log, g) == Done
  {
    if j == |log| {
      assert log[..j] == log;
    } else {
      assert log[..|log| - 1][..j] == log[..j];
      DoneStays(cfg, log[..|log| - 1], j, g);
    }
  }

  lemma FinalEnds(cfg: ButtonConfig, p: Phase, x: Entry)
    requires Final(x.event.kind)
    ensures Next(cfg, p, x) == Done || Next(cfg, p, x) == Broken
  {
  }

  /** Each gesture id gets at most one of hold, cue and triple. */
  lemma AtMostOneOutcome(cfg: ButtonConfig, ops: seq<Op>, i: nat, j: nat)
    requires Monotone(Samples(ops))
    requires i < j < |Log(cfg, ops)|
    requires Log(cfg, ops)[i].event.id == Log(cfg, ops)[j].event.id
    requires Final(Log(cfg, ops)[i].event.kind)
    ensures Log(cfg, ops)[j].event.kind == Invalidate
  {
    hide Run, Log, Timely, Shape, LatestAt, Next;
    var log, g := Log(cfg, ops), Log(cfg, ops)[i].event.id;
    GestureGrammar(cfg, ops);
    FinalEnds(cfg, Story(cfg, log[..i], g), log[i]);
    StoryPrefix(cfg, log, i + 1, g);
    assert log[..i + 1] == log[..i] + [log[i]];
    StoryStep(cfg, log[..i], log[i], g);
    assert !Tells(log[j], g);
  }

  /** The presses, or the short releases, a gesture id has had. */
  function Taps(cfg: ButtonConfig, log: seq<Entry>, g: nat, kind: Kind): nat {
    if log == [] then 0
    else
      var e := log[|log| - 1].event;
      Taps(cfg, log[..|log| - 1], g, kind)
      + if e.id == g && e.kind == kind && (kind == Release ==> e.held < cfg.thresholds[0]) then 1 else 0
  }

  lemma {:induction false} TapsCounted(cfg: ButtonConfig, log: seq<Entry>, g: nat)
    requires Story(cfg, log, g) != Broken
    ensures
      match Story(cfg, log, g)
      case Unborn => Taps(cfg, log, g, Press) == 0 && Taps(cfg, log, g, Release) == 0
      case Pressed(n, _, _, _) => Taps(cfg, log, g, Press) == n + 1 && Taps(cfg, log, g, Release) == n
      case Tapped(_, _) => Taps(cfg, log, g, Press) == 1 && Taps(cfg, log, g, Release) == 1
      case Between(n, _) => Taps(cfg, log, g, Press) == n && Taps(cfg, log, g, Release) == n
      case _ => true
  {
    if log != [] {
      StoryPrefix(cfg, log, |log| - 1, g);
      TapsCounted(cfg, log[..|log| - 1], g);
    }
  }

  lemma BurstEnds(cfg: ButtonConfig, p: Phase, x: Entry)
    requires x.event.kind == Triple || x.event.kind == Cue
    requires Next(cfg, p, x) != Broken
    ensures p.Between? && x.event.count == p.taps && x.at >= p.at + DOUBLE_CLICK_WINDOW
    ensures x.event.kind == Triple <==> p.taps == 3
  {
  }

  /** A triple means exactly three presses and three short releases; the last
      release was accepted at least a click window ago. */
  lemma TripleMeansThreeTaps(cfg: ButtonConfig, ops: seq<Op>, j: nat)
    requires Monotone(Samples(ops))
    requires j < |Log(cfg, ops)|
    requires Log(cfg, ops)[j].event.kind == Triple || Log(cfg, ops)[j].event.kind == Cue
    ensures var log, g := Log(cfg, ops), Log(cfg, ops)[j].event.id;
            var n := Taps(cfg, log[..j], g, Release);
            && n == Taps(cfg, log[..j], g, Press) && n == log[j].event.count
            && (log[j].event.kind == Triple <==> n == 3)
            && exists at :: Story(cfg, log[..j], g) == Between(n, at) && log[j].at >= at + DOUBLE_CLICK_WINDOW
  {
    hide Run, Log, Timely, Shape, LatestAt, Next, Story;
    var log, g := Log(cfg, ops), Log(cfg, ops)[j].event.id;
    GestureGrammar(cfg, ops);
    StoryPrefix(cfg, log, j + 1, g);
    StoryPrefix(cfg, log, j, g);
    assert log[..j + 1] == log[..j] + [log[j]];
    StoryStep(cfg, log[..j], log[j], g);
    BurstEnds(cfg, Story(cfg, log[..j], g), log[j]);
    TapsCounted(cfg, log[..j], g);
  }

  // ----- entries and their samples -----

  /** The entry was emitted at some sample `j`; its `since` is the time of the
      first sample of the run `j` belongs to; presses and releases close a run
      that spans at least the delay. So a release's `held`, a difference of two
      `since` values, is the time between first samples of accepted runs. */
  ghost predicate FromSamples(cfg: ButtonConfig, x: Entry, h: seq<Tick>) {
    exists i: nat, j: nat :: EmittedAt(cfg, x, h, i, j)
  }

  ghost predicate EmittedAt(cfg: ButtonConfig, x: Entry, h: seq<Tick>, i: nat, j: nat) {
    && RunFrom(h, i, j)
    && x.at == h[j].at && x.touched == h[j].touched && x.since == h[i].at
    && (x.event.kind == Press || x.event.kind == Release ==>
          h[j].at - h[i].at >= cfg.delay && x.touched == (x.event.kind == Press))
  }

  /** Presses and releases come from accepted edges alone. */
  lemma EdgesAccepted(cfg: ButtonConfig, s: State, touched: bool, at: int)
    ensures forall e <- Accept(cfg, s, touched, at).1 :: e.kind == Press || e.kind == Release ==>
              at - s.since >= cfg.delay && touched == (e.kind == Press)
    ensures Accept(cfg, s, touched, at).0.since == s.since
  {
  }

  lemma NoEdges(cfg: ButtonConfig, s: State, touched: bool, at: int)
    ensures forall e <- Candidate(s, touched, at).1 + Tiers(cfg, s, touched, at).1 + Resolve(s, touched, at).1 ::
              e.kind != Press && e.kind != Release
    ensures Tiers(cfg, s, touched, at).0.since == s.since && Resolve(s, touched, at).0.since == s.since
  {
  }

  lemma StepEdges(cfg: ButtonConfig, s: State, x: Tick)
    requires s.stable.Some?
    ensures var (t, events) := Step(cfg, s, x.touched, x.at);
            forall e <- events :: e.kind == Press || e.kind == Release ==>
              x.at - t.since >= cfg.delay && x.touched == (e.kind == Press)
  {
    hide Candidate, Accept, Tiers, Resolve;
    var (s1, e1) := Candidate(s, x.touched, x.at);
    var (s2, e2) := Accept(cfg, s1, x.touched, x.at);
    var (s3, e3) := Tiers(cfg, s2, x.touched, x.at);
    NoEdges(cfg, s, x.touched, x.at);
    EdgesAccepted(cfg, s1, x.touched, x.at);
    NoEdges(cfg, s2, x.touched, x.at);
    NoEdges(cfg, s3, x.touched, x.at);
  }

  lemma {:induction false} EntriesFromSamples(cfg: ButtonConfig, ops: seq<Op>)
    ensures forall x <- Log(cfg, ops) :: FromSamples(cfg, x, Samples(ops))
  {
    if ops != [] {
      var before := ops[..|ops| - 1];
      EntriesFromSamples(cfg, before);
      var h, h' := Samples(before), Samples(ops);
      forall x | x in Log(cfg, before) ensures FromSamples(cfg, x, h') {
        var i: nat, j: nat :| EmittedAt(cfg, x, h, i, j);
        assert EmittedAt(cfg, x, h', i, j);
      }
      if ops[|ops| - 1].Sample? {
        DebounceRefinesHistory(cfg, before);
        DebounceRefinesHistory(cfg, ops);
        var tick := ops[|ops| - 1].tick;
        if h != [] {
          StepEdges(cfg, Run(cfg, before), tick);
          var i: nat :| RunFrom(h', i, |h'| - 1) && Run(cfg, ops).since == h'[i].at;
          forall x | x in Log(cfg, ops) && x !in Log(cfg, before) ensures FromSamples(cfg, x, h') {
            assert x.event in Step(cfg, Run(cfg, before), tick.touched, tick.at).1;
            assert EmittedAt(cfg, x, h', i, |h'| - 1);
          }
        }
      }
    }
  }
}
