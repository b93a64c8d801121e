/** The camera flag under the privacy lock, and the guarded capture behind it. */
module CameraOverlay {
  import opened Common

  datatype File = File(disabled: bool, manual: bool)

  /** `attached` says that the module holds the capture object. */
  datatype State = State(
    disabled: bool,
    manual: bool,
    locked: bool,
    before: Option<bool>,
    running: bool,
    attached: bool,
    file: File)

  const BOOT := State(false, false, false, None, false, false, File(false, false))

  /** `fault` makes the capture call of the step fail. */
  datatype Action =
    | Apply(want: bool, fault: bool)
    | AutoOff(tracking: bool)
    | AutoOn
    | Disable
    | Enable
    | EndScene
    | Open
    | Attach
    | Start
    | Stop
    | Restart(lock: bool)

  /** The user's own choice, underneath the lock. */
  function Preference(s: State): bool {
    if s.locked && s.before.Some? then s.before.value else s.disabled
  }

  function Persist(s: State): State {
    s.(file := File(if s.locked && s.before.Some? then s.before.value else s.disabled, s.manual))
  }

  /** `GuardedCamera.start`: a locked camera does not start. */
  function Started(s: State): State {
    if s.locked then s else s.(running := true)
  }

  function Applied(s: State, want: bool, fault: bool): State {
    var before := if want && !s.locked then Some(s.disabled) else s.before;
    var t := s.(before := before, locked := want, disabled := want || s.disabled);
    Persist(
      if want then (if t.attached && !fault then t.(running := false) else t)
      else if before.None? then t
      else
        var u := t.(disabled := before.value, before := None);
        if !u.disabled && u.attached && !fault then Started(u) else u)
  }

  function TurnedOff(s: State, tracking: bool): State {
    if s.locked || s.manual || tracking || !s.attached || s.disabled then s
    else Persist(s.(disabled := true, running := false))
  }

  function TurnedOn(s: State): State {
    if s.locked || s.manual || !s.attached || !s.disabled then s
    else Persist(Started(s.(disabled := false)))
  }

  function Disabled(s: State): State {
    if !s.attached then s
    else if s.locked then Persist(s.(before := Some(true), manual := true))
    else if s.disabled then s
    else Persist(s.(disabled := true, manual := true, running := false))
  }

  function Enabled(s: State): State {
    if s.locked || !s.attached || !s.disabled then s
    else Persist(Started(s.(disabled := false, manual := false)))
  }

  function EndedScene(s: State): State {
    if !s.disabled then s
    else if s.locked then (if s.manual then s else Persist(s.(before := Some(false))))
    else TurnedOn(s)
  }

  /** Boot opens the capture before it attaches it. */
  function Opened(s: State): State {
    if s.attached || s.disabled then s else Started(s)
  }

  function Restarted(s: State, lock: bool): State {
    var t := State(s.file.disabled, s.file.manual, false, None, false, false, s.file);
    if lock then Applied(t, true, false) else t
  }

  function Step(s: State, a: Action): State {
    match a
    case Apply(want, fault) => Applied(s, want, fault)
    case AutoOff(tracking) => TurnedOff(s, tracking)
    case AutoOn => TurnedOn(s)
    case Disable => Disabled(s)
    case Enable => Enabled(s)
    case EndScene => EndedScene(s)
    case Open => Opened(s)
    case Attach => s.(attached := true)
    case Start => Started(s)
    case Stop => s.(running := false)
    case Restart(lock) => Restarted(s, lock)
  }

  function Run(actions: seq<Action>): State {
    if actions == [] then BOOT else Step(Run(actions[..|actions| - 1]), actions[|actions| - 1])
  }

  predicate Inv(s: State) {
    && (s.locked <==> s.before.Some?)
    && (s.locked ==> s.disabled)
    && s.file == File(Preference(s), s.manual)
  }

  lemma StepInv(s: State, a: Action)
    requires Inv(s)
    ensures Inv(Step(s, a))
  {
  }

  lemma {:induction false} RunInv(actions: seq<Action>)
    ensures Inv(Run(actions))
  {
    if actions != [] {
      RunInv(actions[..|actions| - 1]);
      StepInv(Run(actions[..|actions| - 1]), actions[|actions| - 1]);
    }
  }

  // ----- the preference over whole runs -----

  /** What a request asks for: `wish` is the preference and `manual` who set it. */
  function Wish(wish: File, s: State, a: Action): File {
    match a
    case AutoOff(tracking) =>
      if s.locked || wish.manual || tracking || !s.attached then wish else File(true, false)
    case AutoOn => if s.locked || wish.manual || !s.attached then wish else File(false, false)
    case Disable =>
      if !s.attached || (!s.locked && wish.disabled) then wish else File(true, true)
    case Enable => if s.locked || !s.attached || !wish.disabled then wish else File(false, false)
    case EndScene => if wish.manual || (!s.locked && !s.attached) then wish else File(false, false)
    case _ => wish
  }

  function Wished(actions: seq<Action>): File {
    if actions == [] then File(false, false)
    else
      var front := actions[..|actions| - 1];
      Wish(Wished(front), Run(front), actions[|actions| - 1])
  }

  lemma ApplyKeepsFile(s: State, want: bool, fault: bool)
    requires Inv(s)
    ensures Applied(s, want, fault).file == s.file
  {
  }

  lemma StepPreference(s: State, a: Action)
    requires Inv(s)
    ensures Step(s, a).file == Wish(s.file, s, a)
  {
    hide Applied;
    match a
    case Apply(want, fault) => ApplyKeepsFile(s, want, fault);
    case Restart(lock) => ApplyKeepsFile(Restarted(s, false), true, false);
    case _ =>
  }

  /** Through locks, unlocks and restarts, the preference and the sidecar are
      what was last asked for. */
  lemma {:induction false} PreferencePreserved(actions: seq<Action>)
    ensures Preference(Run(actions)) == Wished(actions).disabled
    ensures Run(actions).manual == Wished(actions).manual
    ensures Run(actions).file == Wished(actions)
  {
    hide Step, Wish;
    RunInv(actions);
    if actions != [] {
      var front := actions[..|actions| - 1];
      PreferencePreserved(front);
      RunInv(front);
      StepPreference(Run(front), actions[|front|]);
    }
  }

  /** Releasing the lock returns the camera to what was last asked for, running
      if that is on. */
  lemma UnlockRestores(actions: seq<Action>)
    requires Run(actions).locked
    ensures Step(Run(actions), Apply(false, false)).disabled == Wished(actions).disabled
    ensures Run(actions).attached && !Wished(actions).disabled ==> Step(Run(actions), Apply(false, false)).running
  {
    PreferencePreserved(actions);
    RunInv(actions);
  }

  // ----- who may start and stop the sensor -----

  predicate Starts(s: State, a: Action) {
    match a
    case Start => !s.locked
    case Open => !s.attached && !s.disabled && !s.locked
    case AutoOn => s.attached && s.disabled && !s.locked && !s.manual
    case EndScene => s.attached && s.disabled && !s.locked && !s.manual
    case Enable => s.attached && s.disabled && !s.locked
    case Apply(want, fault) => !want && !fault && s.attached && s.before == Some(false)
    case _ => false
  }

  predicate Stops(s: State, a: Action) {
    match a
    case Stop => true
    case Restart(_) => true
    case AutoOff(tracking) => s.attached && !s.disabled && !s.manual && !tracking
    case Disable => s.attached && !s.disabled
    case Apply(want, fault) => want && !fault && s.attached
    case _ => false
  }

  /** The sensor starts, and stops, at exactly these steps. */
  lemma StepRuns(s: State, a: Action)
    requires Inv(s)
    ensures !s.running ==> (Step(s, a).running <==> Starts(s, a))
    ensures s.running ==> (!Step(s, a).running <==> Stops(s, a))
  {
  }

  /** The lock follows the switch, and the capture is attached once per start. */
  lemma StepLock(s: State, a: Action)
    ensures Step(s, a).locked <==> (if a.Apply? then a.want else if a.Restart? then a.lock else s.locked)
    ensures Step(s, a).attached <==> a.Attach? || (s.attached && !a.Restart?)
  {
  }

  // ----- a locked camera -----

  /** The lock cannot stop a capture that is not attached yet, or fails to stop. */
  predicate Escapes(s: State, a: Action) {
    a.Apply? && a.want && s.running && (!s.attached || a.fault)
  }

  /** A locked camera comes to run only if it already ran when the lock closed on it. */
  lemma LockedStaysOff(s: State, a: Action)
    requires Inv(s) && !(s.locked && s.running)
    ensures Step(s, a).locked && Step(s, a).running <==> Escapes(s, a)
  {
  }

  predicate NeverEscapes(actions: seq<Action>) {
    forall n :: 0 <= n < |actions| ==> !EscapesAt(actions, n)
  }

  predicate EscapesAt(actions: seq<Action>, n: nat)
    requires n < |actions|
  {
    Escapes(Run(actions[..n]), actions[n])
  }

  lemma {:induction false} LockedNeverRuns(actions: seq<Action>)
    requires NeverEscapes(actions)
    ensures !(Run(actions).locked && Run(actions).running)
  {
    if actions != [] {
      var front := actions[..|actions| - 1];
      forall n | 0 <= n < |front| ensures !EscapesAt(front, n) {
        assert front[..n] == actions[..n] && !EscapesAt(actions, n);
      }
      LockedNeverRuns(front);
      RunInv(front);
      assert !EscapesAt(actions, |front|);
      LockedStaysOff(Run(front), actions[|front|]);
    }
  }

  /** A board that locks its camera is locked from the start, and opens the
      camera when the switch is first read as off. */
  const STARTED: seq<Action> := [Apply(true, false), Open, Attach, Apply(false, false)]

  lemma StartedRuns()
    ensures Run(STARTED) == State(false, false, false, None, true, true, File(false, false))
  {
    var a1 := [] + [Apply(true, false)];
    var a2 := a1 + [Open];
    var a3 := a2 + [Attach];
    RunOn([], Apply(true, false));
    RunOn(a1, Open);
    RunOn(a2, Attach);
    RunOn(a3, Apply(false, false));
    assert a3 + [Apply(false, false)] == STARTED;
  }

  /** Opening the capture comes before attaching it: a lock that closes in between
      leaves the sensor running. The switch is read only after start-up has waited
      ten seconds for the camera, so opening must take longer than that. */
  lemma LockDuringBoot()
    ensures var s := Run([Apply(true, false), Apply(false, false), Open, Apply(true, false), Attach]);
            s.locked && s.running
  {
    var a1 := [] + [Apply(true, false)];
    var a2 := a1 + [Apply(false, false)];
    var a3 := a2 + [Open];
    var a4 := a3 + [Apply(true, false)];
    RunOn([], Apply(true, false));
    RunOn(a1, Apply(false, false));
    RunOn(a2, Open);
    RunOn(a3, Apply(true, false));
    RunOn(a4, Attach);
    assert a4 + [Attach] == [Apply(true, false), Apply(false, false), Open, Apply(true, false), Attach];
  }

  /** A capture that fails to stop keeps the sensor running behind the lock. */
  lemma LockWithoutStop()
    ensures var s := Run(STARTED + [Apply(true, true)]); s.locked && s.attached && s.running
  {
    StartedRuns();
    RunOn(STARTED, Apply(true, true));
  }

  // ----- what a locked camera shows -----

  /** How the guard reads: a frame looks at the lock before the capture is asked
      and again afterwards, a response only before. */
  datatype Read = Frame | Response

  /** The guard hands over what it read: the read began after `n` steps of the
      others, and was over after `m`. */
  predicate Exposes(read: Read, actions: seq<Action>, n: nat, m: nat)
    requires n <= m <= |actions|
  {
    !Run(actions[..n]).locked && (read.Frame? ==> !Run(actions[..m]).locked)
  }

  predicate Releases(a: Action) {
    (a.Apply? && !a.want) || a.Restart?
  }

  lemma {:induction false} StaysLocked(actions: seq<Action>, k: nat, m: nat)
    requires k < m <= |actions|
    requires actions[k].Apply? && actions[k].want
    requires forall i :: k < i < m ==> !Releases(actions[i])
    ensures Run(actions[..m]).locked
    decreases m
  {
    var front := actions[..m - 1];
    assert actions[..m][..m - 1] == front;
    if k < m - 1 {
      StaysLocked(actions, k, m - 1);
    }
  }

  /** From the moment the lock closes until it is released, no read that ends
      hands anything over, except exactly a response that was asked for before,
      while the camera was unlocked. */
  lemma LockedExposesNothing(read: Read, actions: seq<Action>, k: nat, n: nat, m: nat)
    requires k < m <= |actions| && n <= m
    requires actions[k].Apply? && actions[k].want
    requires forall i :: k < i < m ==> !Releases(actions[i])
    ensures Exposes(read, actions, n, m) <==> read.Response? && n <= k && !Run(actions[..n]).locked
  {
    StaysLocked(actions, k, m);
    if k < n {
      StaysLocked(actions, k, n);
    }
  }

  /** Such a response: asked for just before the lock closes, over just after. */
  lemma ResponseOutlivesLock()
    ensures var run := STARTED + [Apply(true, false)];
            Exposes(Response, run, 4, 5) && Run(run[..5]).locked && !Exposes(Frame, run, 4, 5)
  {
    var run := STARTED + [Apply(true, false)];
    StartedRuns();
    RunOn(STARTED, Apply(true, false));
    assert run[..4] == STARTED && run[..5] == run;
  }

  /** A read that spans a lock and its release returns what it took while locked. */
  lemma ReadAcrossLock()
    ensures var run := STARTED + [Apply(true, true)] + [Apply(false, false)];
            Exposes(Frame, run, 4, 6) && Run(run[..5]).locked && Run(run[..5]).running
  {
    var closed := STARTED + [Apply(true, true)];
    var run := closed + [Apply(false, false)];
    StartedRuns();
    RunOn(STARTED, Apply(true, true));
    RunOn(closed, Apply(false, false));
    assert run[..4] == STARTED && run[..5] == closed && run[..6] == run;
  }

  lemma RunOn(actions: seq<Action>, a: Action)
    ensures Run(actions + [a]) == Step(Run(actions), a)
  {
    assert (actions + [a])[..|actions|] == actions;
  }

  // ----- the module state -----

  class Camera {
    var disabled: bool
    var manual: bool
    var locked: bool
    var before: Option<bool>
    var running: bool
    var attached: bool
    var file: File

    ghost function View(): State
      reads this
    {
      State(disabled, manual, locked, before, running, attached, file)
    }

    constructor ()
      ensures View() == BOOT
    {
      disabled, manual, locked, before, running, attached, file := false, false, false, None, false, false, File(false, false);
    }

    method PersistState()
      modifies this`file
      ensures View() == Persist(old(View()))
    {
      file := File(if locked && before.Some? then before.value else disabled, manual);
    }

    method StartCapture()
      modifies this`running
      ensures View() == Step(old(View()), Start)
    {
      if !locked {
        running := true;
      }
    }

    method ApplyPrivacy(want: bool, fault: bool)
      modifies this
      ensures View() == Step(old(View()), Apply(want, fault))
    {
      if want && !locked {
        before := Some(disabled);
      }
      locked := want;
      if locked {
        disabled := true;
      }
      if locked && attached {
        running := running && fault;
      } else if !locked && before.Some? {
        disabled := before.value;
        before := None;
        if !disabled && attached && !fault {
          StartCapture();
        }
      }
      PersistState();
    }

    method AutoOff(tracking: bool) returns (changed: bool)
      modifies this
      ensures View() == Step(old(View()), Action.AutoOff(tracking))
      ensures changed <==> View() != old(View())
    {
      if locked || manual || tracking || !attached || disabled {
        return false;
      }
      disabled := true;
      running := false;
      PersistState();
      return true;
    }

    method AutoOn() returns (changed: bool)
      modifies this
      ensures View() == Step(old(View()), Action.AutoOn)
      ensures changed <==> View() != old(View())
    {
      if locked || manual || !attached || !disabled {
        return false;
      }
      disabled := false;
      StartCapture();
      PersistState();
      return true;
    }

    method DisableByUser()
      modifies this
      ensures View() == Step(old(View()), Disable)
    {
      if !attached {
        return;
      }
      if locked {
        before := Some(true);
        manual := true;
        PersistState();
        return;
      }
      if !disabled {
        disabled := true;
        manual := true;
        running := false;
        PersistState();
      }
    }

    method EnableByUser()
      modifies this
      ensures View() == Step(old(View()), Enable)
    {
      if locked || !attached || !disabled {
        return;
      }
      disabled := false;
      manual := false;
      StartCapture();
      PersistState();
    }
  }
}
