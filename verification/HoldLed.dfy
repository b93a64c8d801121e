/** The hold LED: many callers post warning tiers, one worker owns every RGB
    call, and a commit waits until no earlier call can still be in flight. */
module HoldLed {

  datatype Color = Dark | Warning(tier: nat)

  /** Where the worker is between two atomic sections. */
  datatype Place = Unstarted | Reading | Stopping | Checking | Writing | Finishing | Waiting | Dead

  /** The worker's locals: the generation it works on and what it read with it. */
  datatype Worker = Worker(place: Place, generation: int, blink: bool, tier: nat, committing: bool)

  datatype State = State(
    closed: bool,
    generation: nat,
    completed: nat,
    tier: nat,
    committing: bool,
    commits: set<int>,
    worker: Worker)

  const INITIAL := State(false, 0, 0, 0, false, {}, Worker(Unstarted, -1, false, 0, false))

  /** One atomic section of one thread. A section that is not enabled changes nothing. */
  datatype Action =
    | SetTier(tier: nat)
    | Release
    | Commit(tier: nat)
    | Return(generation: int)
    | Stop
    | Work(fault: bool)
    | Timeout

  datatype Event =
    | Requested(generation: int, tier: nat, committing: bool)
    | EffectStopped(generation: int)
    | Written(generation: int, color: Color)
    | Faulted(generation: int)
    | Returned(generation: int, ok: bool)
    | Closed

  // ----- callers -----

  function Request(s: State, tier: nat, committing: bool): (State, seq<Event>) {
    if s.closed then (s, [])
    else
      var w := if s.worker.place.Unstarted? then s.worker.(place := Reading) else s.worker;
      (s.(generation := s.generation + 1, tier := tier, committing := committing, worker := w,
          commits := if committing then s.commits + {s.generation + 1} else s.commits),
       [Requested(s.generation + 1, tier, committing)])
  }

  /** The second half of a commit, once its wait is over. */
  function ReturnCommit(s: State, g: int): (State, seq<Event>) {
    if g in s.commits && (s.closed || s.completed >= g) then
      (s.(commits := s.commits - {g}), [Returned(g, !s.closed && s.generation == g)])
    else (s, [])
  }

  // ----- the worker -----

  predicate Known(tier: nat) {
    1 <= tier <= 3
  }

  function Shade(w: Worker): Color {
    if w.committing || w.tier == 3 || w.blink then Warning(w.tier) else Dark
  }

  /** The lock section at the top of the loop, and the local choice of colour. */
  function Read(s: State): State {
    if s.closed then s.(worker := s.worker.(place := Dead))
    else
      var blink := if s.worker.generation == s.generation then s.worker.blink else false;
      s.(worker := Worker(if s.tier == 0 then Finishing else Stopping, s.generation,
                          if s.tier == 0 then blink else !blink, s.tier, s.committing))
  }

  function Max(a: int, b: int): int {
    if a < b then b else a
  }

  function Finish(s: State): State {
    var w := s.worker;
    s.(completed := Max(s.completed, w.generation),
       worker := w.(place := if s.closed then Dead else if s.generation != w.generation then Reading else Waiting))
  }

  predicate Blinks(w: Worker) {
    1 <= w.tier <= 2 && !w.committing
  }

  /** A sleeping worker wakes when it is told to, or when its blink period ends. */
  function Wake(s: State, timeout: bool): State {
    if s.closed || s.generation != s.worker.generation || (timeout && Blinks(s.worker))
    then s.(worker := s.worker.(place := Reading)) else s
  }

  function At(s: State, place: Place): State {
    s.(worker := s.worker.(place := place))
  }

  /** The RGB calls; any of them may fail, and an unknown tier has no colour. */
  function Work(s: State, fault: bool): (State, seq<Event>) {
    var w := s.worker;
    match w.place
    case Unstarted => (s, [])
    case Reading => (Read(s), [])
    case Stopping =>
      if fault || !Known(w.tier) then (At(s, Finishing), [Faulted(w.generation)])
      else (At(s, Checking), [EffectStopped(w.generation)])
    case Checking => (At(s, if !s.closed && s.generation == w.generation then Writing else Finishing), [])
    case Writing =>
      (At(s, Finishing), [if fault then Faulted(w.generation) else Written(w.generation, Shade(w))])
    case Finishing => (Finish(s), [])
    case Waiting => (Wake(s, false), [])
    case Dead => (s, [])
  }

  function Step(s: State, a: Action): (State, seq<Event>) {
    match a
    case SetTier(t) => Request(s, t, false)
    case Release => if s.worker.place.Unstarted? then (s, []) else Request(s, 0, false)
    case Commit(t) => Request(s, t, true)
    case Return(g) => ReturnCommit(s, g)
    case Stop => (s.(closed := true), [Closed])
    case Work(fault) => Work(s, fault)
    case Timeout => (if s.worker.place.Waiting? then Wake(s, true) else s, [])
  }

  function Run(actions: seq<Action>): (State, seq<Event>) {
    if actions == [] then (INITIAL, [])
    else
      var (s, log) := Run(actions[..|actions| - 1]);
      var (t, es) := Step(s, actions[|actions| - 1]);
      (t, log + es)
  }

  // ----- invariants -----

  predicate Busy(p: Place) {
    p.Stopping? || p.Checking? || p.Writing? || p.Finishing?
  }

  /** Generations are counted in order, and a worker that has completed a
      commit rests until something newer is posted. */
  ghost predicate Inv(s: State) {
    var w := s.worker;
    && s.completed <= Max(w.generation, 0) <= s.generation
    && (w.generation == -1 || 0 < w.generation)
    && (w.place.Unstarted? <==> s.generation == 0)
    && (Busy(w.place) || w.place.Waiting? ==> 0 < w.generation)
    && (w.place.Waiting? ==> s.completed == w.generation)
    && (w.generation == s.generation ==> w.tier == s.tier && w.committing == s.committing)
    && (Rests(s) ==> !Busy(w.place) && (w.place.Reading? ==> s.closed || s.generation != w.generation))
    && (forall g <- s.commits :: 0 < g <= s.generation && (g == s.generation ==> s.committing))
  }

  lemma InvRead(s: State)
    requires Inv(s) && s.worker.place.Reading?
    ensures Inv(Read(s))
  {
  }

  lemma InvFinish(s: State)
    requires Inv(s) && s.worker.place.Finishing?
    ensures Inv(Finish(s))
  {
  }

  lemma InvWork(s: State, fault: bool)
    requires Inv(s)
    ensures Inv(Work(s, fault).0)
  {
    hide Read, Finish;
    if s.worker.place.Reading? {
      InvRead(s);
    } else if s.worker.place.Finishing? {
      InvFinish(s);
    }
  }

  lemma InvStep(s: State, a: Action)
    requires Inv(s)
    ensures Inv(Step(s, a).0)
  {
    if a.Work? {
      InvWork(s, a.fault);
    }
  }

  predicate Rests(s: State) {
    s.worker.committing && s.completed == s.worker.generation
  }

  /** What the log and the state say about each other. */
  ghost predicate LogInv(s: State, log: seq<Event>) {
    && Inv(s)
    && (s.closed <==> Closed in log)
    && (forall e <- log :: Effect(e) ==> e.generation <= s.worker.generation)
    && (forall e <- log :: e.Requested? ==> e.generation <= s.generation)
    && (forall g | 0 < g <= s.generation :: Posted(log, g))
    && (forall e <- log :: e.Returned? && e.ok ==> Committed(s, e.generation))
    && forall i, j :: 0 <= i < j < |log| ==> Ordered(log[i], log[j])
  }

  /** An action of the worker on the strip. */
  predicate Effect(e: Event) {
    e.EffectStopped? || e.Written?
  }

  predicate Posted(log: seq<Event>, g: int) {
    exists i :: 0 <= i < |log| && log[i].Requested? && log[i].generation == g
  }

  /** A commit of this generation has passed the barrier. */
  predicate Committed(s: State, g: int) {
    && 0 < g <= s.completed
    && (s.generation == g ==> s.committing)
    && (s.worker.generation == g ==> s.worker.committing)
  }

  /** What may follow what. */
  predicate Ordered(before: Event, after: Event) {
    && (Effect(before) && Effect(after) ==> before.generation <= after.generation)
    && (before.Returned? && before.ok && Effect(after) ==> before.generation < after.generation)
    && (before.Closed? && after.Returned? ==> !after.ok)
    && (before.Requested? && after.Requested? ==> before.generation < after.generation)
    && (before.Requested? && after.Returned? && after.ok ==> before.generation <= after.generation)
    && (Effect(before) && after.Requested? ==> before.generation < after.generation)
  }

  /** No step takes back a request, a completion or a stop. */
  lemma StepGrows(s: State, a: Action)
    requires Inv(s)
    ensures var t := Step(s, a).0;
            && s.generation <= t.generation && s.completed <= t.completed && s.worker.generation <= t.worker.generation
            && (s.closed ==> t.closed)
            && forall g :: Committed(s, g) ==> Committed(t, g)
  {
  }

  /** The one event a step may log, against the state it is logged in. */
  ghost predicate Fits(s: State, t: State, e: Event) {
    && (Effect(e) ==> e.generation == s.worker.generation == t.worker.generation && Busy(s.worker.place))
    && (if e.Requested? then e.generation == s.generation + 1 == t.generation else t.generation == s.generation)
    && (e.Returned? && e.ok ==> !s.closed && Committed(t, e.generation) && e.generation == s.generation)
    && (e.Closed? ==> t.closed)
  }

  lemma StepFits(s: State, a: Action)
    requires Inv(s)
    ensures |Step(s, a).1| <= 1
    ensures forall e <- Step(s, a).1 :: Fits(s, Step(s, a).0, e)
    ensures Step(s, a).1 == [] ==> Step(s, a).0.generation == s.generation
    ensures Closed in Step(s, a).1 || Step(s, a).0.closed == s.closed
  {
  }

  lemma StepLog(s: State, log: seq<Event>, a: Action)
    requires LogInv(s, log)
    ensures LogInv(Step(s, a).0, log + Step(s, a).1)
  {
    InvStep(s, a);
    StepGrows(s, a);
    StepFits(s, a);
    hide Step, Inv;
    var (t, es) := Step(s, a);
    if es == [] {
      assert log + es == log;
    } else {
      assert es == [es[0]];
      Append(s, t, log, es[0]);
    }
  }

  lemma Append(s: State, t: State, log: seq<Event>, e: Event)
    requires LogInv(s, log) && Inv(t) && Fits(s, t, e) && (e == Closed || t.closed == s.closed)
    requires s.generation <= t.generation && s.worker.generation <= t.worker.generation
    requires forall g :: Committed(s, g) ==> Committed(t, g)
    ensures LogInv(t, log + [e])
  {
    forall g | 0 < g <= t.generation ensures Posted(log + [e], g) {
      if g <= s.generation {
        assert Posted(log, g);
        var i :| 0 <= i < |log| && log[i].Requested? && log[i].generation == g;
        assert (log + [e])[i] == log[i];
      } else {
        assert (log + [e])[|log|] == e;
      }
    }
    forall i | 0 <= i < |log| ensures Ordered(log[i], e) {
      assert log[i] in log;
      if log[i].Returned? && log[i].ok && Effect(e) {
        assert Committed(s, log[i].generation);
      }
    }
  }

  lemma {:induction false} RunLog(actions: seq<Action>)
    ensures LogInv(Run(actions).0, Run(actions).1)
  {
    if actions != [] {
      RunLog(actions[..|actions| - 1]);
      var (s, log) := Run(actions[..|actions| - 1]);
      StepLog(s, log, actions[|actions| - 1]);
    }
  }

  // ----- what callers may rely on -----

  lemma BarrierHolds(s: State, log: seq<Event>)
    requires LogInv(s, log)
    ensures forall e <- log :: Effect(e) ==> e.generation <= s.generation
    ensures forall e <- log :: e.Returned? && e.ok ==> 0 < e.generation
  {
    hide Posted, Ordered;
  }

  lemma PostedAt(log: seq<Event>, g: int)
    requires Posted(log, g)
    ensures exists k :: 0 <= k < |log| && log[k].Requested? && log[k].generation == g
  {
  }

  /** The commit barrier: once a commit has returned true, every later action on
      the strip belongs to a request posted after it returned. */
  lemma CommitBarrier(actions: seq<Action>, i: nat, j: nat) returns (k: nat)
    requires i < j < |Run(actions).1|
    requires Run(actions).1[i].Returned? && Run(actions).1[i].ok && Effect(Run(actions).1[j])
    ensures i < k < j
    ensures Run(actions).1[k].Requested? && Run(actions).1[k].generation == Run(actions).1[j].generation
  {
    RunLog(actions);
    hide Run, Committed, Posted;
    var (s, log) := Run(actions);
    BarrierHolds(s, log);
    assert Ordered(log[i], log[j]);
    assert log[i] in log && log[j] in log;
    var g := log[j].generation;
    PostedAt(log, g);
    k :| 0 <= k < |log| && log[k].Requested? && log[k].generation == g;
  }

  /** Actions on the strip follow the order of the requests they serve. */
  lemma EffectsInOrder(actions: seq<Action>, i: nat, j: nat)
    requires i < j < |Run(actions).1| && Effect(Run(actions).1[i]) && Effect(Run(actions).1[j])
    ensures Run(actions).1[i].generation <= Run(actions).1[j].generation
  {
    RunLog(actions);
    assert Ordered(Run(actions).1[i], Run(actions).1[j]);
  }

  /** No commit returns true after a stop. */
  lemma NoCommitAfterStop(actions: seq<Action>, i: nat, j: nat)
    requires i < j < |Run(actions).1| && Run(actions).1[i].Closed? && Run(actions).1[j].Returned?
    ensures !Run(actions).1[j].ok
  {
    RunLog(actions);
    assert Ordered(Run(actions).1[i], Run(actions).1[j]);
  }

  // ----- the colour a commit leaves behind -----

  /** The strip was last written with this request's warning, or its write failed. */
  predicate Painted(log: seq<Event>, g: int, tier: nat) {
    || tier == 0
    || Faulted(g) in log
    || exists j :: 0 <= j < |log| && log[j] == Written(g, Warning(tier)) && Undisturbed(log, j)
  }

  predicate Undisturbed(log: seq<Event>, j: nat) {
    forall k :: j < k < |log| ==> !Effect(log[k])
  }

  /** The request being served is in the log, and once served it is painted. */
  ghost predicate PaintInv(s: State, log: seq<Event>) {
    && Inv(s)
    && (0 < s.generation ==> Requested(s.generation, s.tier, s.committing) in log)
    && (Served(s) ==> Painted(log, s.generation, s.tier))
    && forall i :: 0 <= i < |log| ==> Kept(log, i)
  }

  /** The worker is past the RGB calls of the newest commit. */
  predicate Served(s: State) {
    && !s.closed && s.committing && s.worker.generation == s.generation
    && (s.worker.place.Finishing? || s.completed == s.generation)
  }

  ghost predicate Kept(log: seq<Event>, i: nat)
    requires i < |log|
  {
    log[i].Returned? && log[i].ok ==>
      exists tier :: Requested(log[i].generation, tier, true) in log[..i] && Painted(log[..i], log[i].generation, tier)
  }

  lemma PaintedStays(log: seq<Event>, e: Event, g: int, tier: nat)
    requires Painted(log, g, tier) && !Effect(e)
    ensures Painted(log + [e], g, tier)
  {
    if tier != 0 && Faulted(g) !in log {
      var j :| 0 <= j < |log| && log[j] == Written(g, Warning(tier)) && Undisturbed(log, j);
      assert (log + [e])[j] == log[j] && Undisturbed(log + [e], j);
    }
  }

  lemma KeptStays(log: seq<Event>, e: Event)
    requires forall i :: 0 <= i < |log| ==> Kept(log, i)
    ensures forall i :: 0 <= i < |log| ==> Kept(log + [e], i)
  {
    forall i | 0 <= i < |log| ensures Kept(log + [e], i) {
      assert (log + [e])[..i] == log[..i];
      assert Kept(log, i);
    }
  }

  lemma StepPaint(s: State, log: seq<Event>, a: Action)
    requires PaintInv(s, log)
    ensures PaintInv(Step(s, a).0, log + Step(s, a).1)
  {
    InvStep(s, a);
    StepFits(s, a);
    var (t, es) := Step(s, a);
    if es == [] {
      assert log + es == log;
    } else {
      assert es == [es[0]];
      KeptStays(log, es[0]);
      if !Effect(es[0]) && Painted(log, s.generation, s.tier) {
        PaintedStays(log, es[0], s.generation, s.tier);
      }
      if es[0].Written? {
        assert (log + es)[|log|] == es[0] && Undisturbed(log + es, |log|);
      }
      assert (log + es)[..|log|] == log;
    }
  }

  lemma {:induction false} RunPaint(actions: seq<Action>)
    ensures PaintInv(Run(actions).0, Run(actions).1)
  {
    if actions != [] {
      RunPaint(actions[..|actions| - 1]);
      var (s, log) := Run(actions[..|actions| - 1]);
      StepPaint(s, log, actions[|actions| - 1]);
    }
  }

  /** When a commit returns true the strip shows its warning: it was the last
      colour written, unless the RGB call itself failed. */
  lemma CommitPaints(actions: seq<Action>, i: nat) returns (tier: nat)
    requires i < |Run(actions).1| && Run(actions).1[i].Returned? && Run(actions).1[i].ok
    ensures Requested(Run(actions).1[i].generation, tier, true) in Run(actions).1[..i]
    ensures Painted(Run(actions).1[..i], Run(actions).1[i].generation, tier)
  {
    RunPaint(actions);
    assert Kept(Run(actions).1, i);
    tier :| Requested(Run(actions).1[i].generation, tier, true) in Run(actions).1[..i]
            && Painted(Run(actions).1[..i], Run(actions).1[i].generation, tier);
  }

  // ----- progress -----

  /** Worker steps left before the newest request is completed. */
  function Left(s: State): nat {
    if s.completed == s.generation then 0
    else
      var newest := s.worker.generation == s.generation;
      match s.worker.place
      case Waiting => 6
      case Reading => 5
      case Stopping => if newest then 4 else 8
      case Checking => if newest then 3 else 7
      case Writing => if newest then 2 else 7
      case Finishing => if newest then 1 else 6
      case _ => 9
  }

  function Worked(s: State, faults: seq<bool>): State {
    if faults == [] then s else Work(Worked(s, faults[..|faults| - 1]), faults[|faults| - 1]).0
  }

  lemma LeftStep(s: State, fault: bool)
    requires Inv(s) && !s.closed && s.worker.place != Dead && 0 < Left(s)
    ensures Left(Work(s, fault).0) < Left(s)
    ensures Work(s, fault).0.worker.place != Dead
  {
  }

  lemma WorkKeeps(s: State, fault: bool)
    ensures Work(s, fault).0.generation == s.generation && Work(s, fault).0.commits == s.commits
    ensures Work(s, fault).0.closed == s.closed
  {
  }

  lemma {:induction false} LeftShrinks(s: State, faults: seq<bool>)
    requires Inv(s) && !s.closed && s.worker.place != Dead && |faults| <= Left(s)
    ensures Inv(Worked(s, faults)) && !Worked(s, faults).closed
    ensures |faults| < Left(s) ==> Worked(s, faults).worker.place != Dead
    ensures Left(Worked(s, faults)) <= Left(s) - |faults|
    ensures Worked(s, faults).generation == s.generation && Worked(s, faults).commits == s.commits
  {
    if faults != [] {
      LeftShrinks(s, faults[..|faults| - 1]);
      var before, fault := Worked(s, faults[..|faults| - 1]), faults[|faults| - 1];
      hide Inv, Left, Work;
      InvWork(before, fault);
      WorkKeeps(before, fault);
      if 0 < Left(before) {
        LeftStep(before, fault);
      }
    }
  }

  /** A commit never hangs on the strip: at most eight steps of the worker end
      its wait, whichever RGB calls fail on the way. */
  lemma CommitReturns(actions: seq<Action>, g: int, faults: seq<bool>)
    requires var s := Run(actions).0; !s.closed && s.worker.place != Dead && g in s.commits && |faults| == Left(s)
    ensures |faults| <= 8
    ensures Step(Worked(Run(actions).0, faults), Return(g)).1 == [Returned(g, Run(actions).0.generation == g)]
  {
    RunLog(actions);
    LeftShrinks(Run(actions).0, faults);
  }

  // ----- what the callers are answered -----

  /** A commit of this generation was posted and has not returned. */
  ghost predicate Awaits(log: seq<Event>, g: int) {
    (exists tier :: Requested(g, tier, true) in log) && forall ok :: Returned(g, ok) !in log
  }

  /** Who waits is told by the log alone. */
  ghost predicate CommitInv(s: State, log: seq<Event>) {
    && (forall e <- log :: (e.Requested? || e.Returned?) ==> e.generation <= s.generation)
    && (forall g <- s.commits :: g <= s.generation)
    && (forall g :: g in s.commits <==> Awaits(log, g))
    && (s.closed <==> Closed in log)
    && (0 < s.generation <==> exists g, tier, committing :: Requested(g, tier, committing) in log)
  }

  lemma AwaitsStep(log: seq<Event>, e: Event, g: int)
    ensures Awaits(log + [e], g) <==>
              if e.Requested? && e.committing && e.generation == g then forall ok :: Returned(g, ok) !in log
              else Awaits(log, g) && !(e.Returned? && e.generation == g)
  {
    if e.Requested? && e.committing && e.generation == g {
      assert Requested(g, e.tier, true) in log + [e];
    }
    if tier :| Requested(g, tier, true) in log {
      assert Requested(g, tier, true) in log + [e];
    }
  }

  /** What one entry says of the commits. */
  predicate Counts(s: State, t: State, e: Event) {
    && (t.closed <==> s.closed || e.Closed?)
    && (if e.Requested? then
          e.generation == s.generation + 1 == t.generation
          && t.commits == if e.committing then s.commits + {e.generation} else s.commits
        else if e.Returned? then
          e.generation in s.commits && t.commits == s.commits - {e.generation} && t.generation == s.generation
        else t.commits == s.commits && t.generation == s.generation)
  }

  lemma StepCounts(s: State, a: Action)
    ensures var (t, es) := Step(s, a);
            && |es| <= 1 && (es != [] ==> Counts(s, t, es[0]))
            && (es == [] ==> t.commits == s.commits && t.generation == s.generation && t.closed == s.closed)
  {
    hide Work;
    if a.Work? {
      WorkCommits(s, a.fault);
      var es := Work(s, a.fault).1;
      assert es != [] ==> es[0] in es;
    }
  }

  lemma CommitStep(s: State, log: seq<Event>, a: Action)
    requires CommitInv(s, log)
    ensures CommitInv(Step(s, a).0, log + Step(s, a).1)
  {
    hide Step, Awaits;
    var (t, es) := Step(s, a);
    StepCounts(s, a);
    if es == [] {
      assert log + es == log;
    } else {
      assert es == [es[0]];
      CommitEntry(s, t, log, es[0]);
    }
  }

  lemma CommitEntry(s: State, t: State, log: seq<Event>, e: Event)
    requires CommitInv(s, log) && Counts(s, t, e)
    ensures CommitInv(t, log + [e])
  {
    hide Awaits;
    forall g ensures g in t.commits <==> Awaits(log + [e], g) {
      AwaitsStep(log, e, g);
      if g == s.generation + 1 {
        assert forall ok :: Returned(g, ok) !in log;
      }
    }
    RequestedStep(log, e);
  }

  lemma RequestedStep(log: seq<Event>, e: Event)
    ensures (exists g, tier, committing :: Requested(g, tier, committing) in log + [e])
       <==> e.Requested? || exists g, tier, committing :: Requested(g, tier, committing) in log
  {
    if g, tier, committing :| Requested(g, tier, committing) in log {
      assert Requested(g, tier, committing) in log + [e];
    }
    if e.Requested? {
      assert Requested(e.generation, e.tier, e.committing) in log + [e];
    }
  }

  lemma WorkCommits(s: State, fault: bool)
    ensures var (t, es) := Work(s, fault);
            && t.commits == s.commits && t.generation == s.generation && t.closed == s.closed
            && |es| <= 1 && forall e <- es :: e.EffectStopped? || e.Written? || e.Faulted?
  {
  }

  lemma {:induction false} RunCommits(actions: seq<Action>)
    ensures CommitInv(Run(actions).0, Run(actions).1)
  {
    if actions == [] {
      NothingAwaits();
    } else {
      hide CommitInv, Step;
      var front := actions[..|actions| - 1];
      RunCommits(front);
      CommitStep(Run(front).0, Run(front).1, actions[|actions| - 1]);
    }
  }

  lemma NothingAwaits()
    ensures CommitInv(INITIAL, [])
  {
  }

  /** A tier, a commit or a release is posted under the next number exactly until
      the object is stopped, a release only after something was posted. */
  lemma PostsExactly(actions: seq<Action>, tier: nat)
    ensures var (s, log) := Run(actions);
            var open := Closed !in log;
            var begun := exists g, t, c :: Requested(g, t, c) in log;
            && Step(s, SetTier(tier)).1 == (if open then [Requested(s.generation + 1, tier, false)] else [])
            && Step(s, Commit(tier)).1 == (if open then [Requested(s.generation + 1, tier, true)] else [])
            && Step(s, Release).1 == (if open && begun then [Requested(s.generation + 1, 0, false)] else [])
  {
    RunCommits(actions);
    RunLog(actions);
    hide Run, Awaits;
  }

  /** The first post starts the worker; from then on nothing but its own steps and
      the end of its wait moves it. */
  lemma WorkerMovesItself(actions: seq<Action>, a: Action)
    requires !a.Work? && !a.Timeout?
    ensures var (s, log) := Run(actions); var (t, es) := Step(s, a);
            if exists g, tier, c :: Requested(g, tier, c) in log then t.worker == s.worker
            else t.worker.place == if exists g, tier, c :: Requested(g, tier, c) in es then Reading else Unstarted
  {
    RunCommits(actions);
    RunLog(actions);
    hide Run, Awaits;
    var s := Run(actions).0;
    var es := Step(s, a).1;
    if es != [] && es[0].Requested? {
      assert Requested(es[0].generation, es[0].tier, es[0].committing) in es;
    }
  }

  /** A waiting commit returns exactly once it was completed or all was stopped,
      and returns true exactly if nothing newer was posted and nothing stopped. */
  lemma ReturnsExactly(actions: seq<Action>, g: int)
    ensures var (s, log) := Run(actions);
            Step(s, Return(g)).1
            == if Awaits(log, g) && (Closed in log || s.completed >= g) then [Returned(g, Closed !in log && s.generation == g)]
               else []
  {
    RunCommits(actions);
    hide Run, Awaits;
  }

  // ----- what the worker does in a round -----

  function WorkLog(s: State, faults: seq<bool>): seq<Event> {
    if faults == [] then []
    else WorkLog(s, faults[..|faults| - 1]) + Work(Worked(s, faults[..|faults| - 1]), faults[|faults| - 1]).1
  }

  lemma WorkedOn(s: State, faults: seq<bool>, fault: bool)
    ensures Worked(s, faults + [fault]) == Work(Worked(s, faults), fault).0
    ensures WorkLog(s, faults + [fault]) == WorkLog(s, faults) + Work(Worked(s, faults), fault).1
  {
    assert (faults + [fault])[..|faults|] == faults;
  }

  /** The colour of the next round: a commit and the top tier warn steadily; a
      lower tier blinks, and begins each request with its warning. */
  function Colour(s: State): Color {
    if !s.committing && s.tier != 3 && s.worker.generation == s.generation && s.worker.blink then Dark else Warning(s.tier)
  }

  /** Nothing is left to do until something newer is posted. */
  predicate Rested(s: State, t: State) {
    t == s.(worker := t.worker, completed := s.generation)
    && t.worker.place.Waiting? && t.worker.generation == s.generation
    && t.worker.tier == s.tier && t.worker.committing == s.committing
  }

  lemma WorkedNone(s: State)
    ensures Worked(s, []) == s && WorkLog(s, []) == []
  {
  }

  /** An undisturbed round: tier 0 touches nothing. */
  lemma QuietRound(s: State)
    requires Inv(s) && !s.closed && s.worker.place.Reading? && s.tier == 0
    ensures var faults := [false, false];
            && WorkLog(s, faults) == [] && Rested(s, Worked(s, faults))
            && Worked(s, faults).worker.blink == (s.worker.generation == s.generation && s.worker.blink)
  {
    hide Worked, WorkLog;
    WorkedNone(s);
    WorkedOn(s, [], false);
    WorkedOn(s, [false], false);
    assert [] + [false] == [false] && [false] + [false] == [false, false];
  }

  /** A tier without a colour, or a failed stop of the effect, leaves a fault. */
  lemma FaultRound(s: State, stopFails: bool)
    requires Inv(s) && !s.closed && s.worker.place.Reading? && (s.tier > 3 || (s.tier > 0 && stopFails))
    ensures var faults := [false, stopFails, false];
            WorkLog(s, faults) == [Faulted(s.generation)] && Rested(s, Worked(s, faults))
  {
    hide Worked, WorkLog;
    WorkedNone(s);
    WorkedOn(s, [], false);
    WorkedOn(s, [false], stopFails);
    WorkedOn(s, [false, stopFails], false);
    assert [] + [false] == [false] && [false] + [stopFails] == [false, stopFails]
        && [false, stopFails] + [false] == [false, stopFails, false];
  }

  /** The first half of a round with a colour: the effect is stopped, and what is
      to be written is settled. */
  lemma ColourSettled(s: State)
    requires Inv(s) && !s.closed && s.worker.place.Reading? && 1 <= s.tier <= 3
    ensures var c := Worked(s, [false, false, false]);
            && WorkLog(s, [false, false, false]) == [EffectStopped(s.generation)]
            && c == s.(worker := Worker(Writing, s.generation, !(s.worker.generation == s.generation && s.worker.blink),
                                        s.tier, s.committing))
            && Shade(c.worker) == Colour(s)
  {
    hide Worked, WorkLog, Inv;
    WorkedNone(s);
    WorkedOn(s, [], false);
    WorkedOn(s, [false], false);
    WorkedOn(s, [false, false], false);
    assert [] + [false] == [false] && [false] + [false] == [false, false]
        && [false, false] + [false] == [false, false, false];
  }

  /** Any other tier stops the effect and writes its colour once, unless that call
      fails; either way the request is then completed. */
  lemma ColourRound(s: State, writeFails: bool)
    requires Inv(s) && !s.closed && s.worker.place.Reading? && 1 <= s.tier <= 3
    ensures var faults := [false, false, false, writeFails, false];
            && WorkLog(s, faults)
               == [EffectStopped(s.generation), if writeFails then Faulted(s.generation) else Written(s.generation, Colour(s))]
            && Rested(s, Worked(s, faults))
            && Worked(s, faults).worker.blink == !(s.worker.generation == s.generation && s.worker.blink)
  {
    hide Worked, WorkLog, Shade, Colour;
    ColourSettled(s);
    WorkedOn(s, [false, false, false], writeFails);
    WorkedOn(s, [false, false, false, writeFails], false);
    assert [false, false, false] + [writeFails] == [false, false, false, writeFails]
        && [false, false, false, writeFails] + [false] == [false, false, false, writeFails, false];
  }

  /** A round that was overtaken, by a newer request or a stop, writes no colour:
      the worker looks once more before it writes. */
  lemma OvertakenWritesNothing(s: State, fault: bool)
    requires s.worker.place.Checking?
    ensures Work(s, fault).1 == []
    ensures Work(s, fault).0.worker.place == if !s.closed && s.generation == s.worker.generation then Writing else Finishing
  {
  }

  /** A waiting worker reads again exactly if all was stopped, something newer was
      posted, or the blink period of a tier that blinks is over; and it dies exactly
      when it finds all stopped at the top or the bottom of a round. */
  lemma WakesExactly(s: State, fault: bool)
    requires s.worker.place.Waiting?
    ensures Work(s, fault).0.worker.place == if s.closed || s.generation != s.worker.generation then Reading else Waiting
    ensures Step(s, Timeout).0.worker.place
         == if s.closed || s.generation != s.worker.generation || (!s.worker.committing && (s.worker.tier == 1 || s.worker.tier == 2))
            then Reading else Waiting
  {
  }

  lemma DiesExactly(s: State, fault: bool)
    ensures Work(s, fault).0.worker.place.Dead? <==>
              s.worker.place.Dead? || (s.closed && (s.worker.place.Reading? || s.worker.place.Finishing?))
  {
  }

  // ----- the shared object -----

  /** The feedback object; each method is one section run under its lock. The
      callers inside a commit and the worker's locals are kept beside it. */
  class HoldLEDFeedback {
    var closed: bool
    var generation: nat
    var completed: nat
    var tier: nat
    var committing: bool
    ghost var commits: set<int>
    var worker: Worker

    ghost function View(): State
      reads this
    {
      State(closed, generation, completed, tier, committing, commits, worker)
    }

    constructor ()
      ensures View() == INITIAL
    {
      closed, generation, completed, tier, committing := false, 0, 0, 0, false;
      commits, worker := {}, Worker(Unstarted, -1, false, 0, false);
    }

    method Post(tier: nat, committing: bool) returns (posted: int)
      modifies this
      ensures View() == Request(old(View()), tier, committing).0
      ensures posted == if old(closed) then -1 else generation
    {
      if closed {
        return -1;
      }
      generation := generation + 1;
      this.tier := tier;
      this.committing := committing;
      if worker.place.Unstarted? {
        worker := worker.(place := Reading);
      }
      if committing {
        commits := commits + {generation};
      }
      return generation;
    }

    method SetTier(tier: nat)
      modifies this
      ensures View() == Step(old(View()), Action.SetTier(tier)).0
    {
      var posted := Post(tier, false);
    }

    method Release()
      modifies this
      ensures View() == Step(old(View()), Action.Release).0
    {
      if worker.place.Unstarted? {
        return;
      }
      var posted := Post(0, false);
    }

    /** The end of a commit's wait, which the lock admits only when it is over. */
    method FinishCommit(posted: int) returns (ok: bool)
      requires posted in commits && (closed || completed >= posted)
      modifies this`commits
      ensures View() == Step(old(View()), Return(posted)).0
      ensures Step(old(View()), Return(posted)).1 == [Returned(posted, ok)]
    {
      ok := !closed && generation == posted;
      commits := commits - {posted};
    }

    method Stop()
      modifies this
      ensures View() == Step(old(View()), Action.Stop).0
    {
      closed := true;
    }

    /** The worker's section at the top of its loop. */
    method Take()
      requires worker.place.Reading?
      modifies this`worker
      ensures View() == Read(old(View()))
    {
      if closed {
        worker := worker.(place := Dead);
        return;
      }
      var blink := worker.blink;
      if worker.generation != generation {
        blink := false;
      }
      worker := Worker(Finishing, generation, blink, tier, committing);
      if tier != 0 {
        worker := worker.(place := Stopping, blink := !blink);
      }
    }

    /** The check between the stop of the effect and the colour: whatever was
        posted or stopped meanwhile keeps the worker from writing. */
    method IsCurrent() returns (current: bool)
      requires worker.place.Checking?
      modifies this`worker
      ensures View() == Step(old(View()), Action.Work(false)).0
      ensures current <==> worker.place.Writing?
      ensures current <==> !closed && generation == worker.generation
    {
      current := !closed && generation == worker.generation;
      worker := worker.(place := if current then Writing else Finishing);
    }

    /** The worker's section at the bottom of its loop. */
    method Complete()
      requires worker.place.Finishing? && 0 <= worker.generation
      modifies this`worker, this`completed
      ensures View() == Finish(old(View()))
    {
      if completed < worker.generation {
        completed := worker.generation;
      }
      worker := worker.(place := if closed then Dead else if generation != worker.generation then Reading else Waiting);
    }
  }
}
