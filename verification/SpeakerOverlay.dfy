/** The speaker flag and its three owners: the privacy lock, sleep's temporary
    mute, and the mutes users and scenes ask for. Drain threads mute later, and
    the service may restart within one boot. */
module SpeakerOverlay {
  import opened Common

  type Scene = nat

  /** What a scene's preset says of the speaker. */
  datatype Request = Off | On | Keep

  /** The two boot-scoped sidecar files. */
  datatype Files = Files(muted: bool, sleeping: bool, autoMuted: bool)

  /** The drains that wait and were not cancelled, and the threads that have seen
      that and will commit next. */
  datatype Drains = Drains(scene: Option<Scene>, passed: multiset<Scene>, sleep: bool, passedSleep: nat)

  const NO_DRAINS := Drains(None, multiset{}, false, 0)

  datatype State = State(
    muted: bool,
    autoMuted: bool,
    sleeping: bool,
    sleepy: bool,
    wakes: nat,
    locked: bool,
    before: Option<bool>,
    scene: Option<Scene>,
    drains: Drains,
    files: Files)

  const BOOT := State(false, false, false, false, 0, false, None, None, NO_DRAINS, Files(false, false, false))

  datatype Action =
    | EnterSleep
    | Finalize(mute: bool)
    | PassSleep
    | CommitSleep
    | BeginWake
    | FinishWake
    | Apply(want: bool)
    | Mute
    | Unmute
    | StartScene(scene: Scene, speaker: Request)
    | PassScene
    | CommitScene(scene: Scene)
    | EndScene
    | Restart(lock: bool, active: Option<Scene>)

  /** The user's own choice, underneath the lock and underneath sleep. */
  function Preference(s: State): bool {
    if s.autoMuted then false
    else if s.locked && s.before.Some? then s.before.value
    else s.muted
  }

  // ----- sidecars -----

  function PersistSpeaker(s: State): State {
    s.(files := s.files.(muted := if s.locked && s.before.Some? then s.before.value else s.muted))
  }

  function PersistSleep(s: State): State {
    s.(files := s.files.(sleeping := s.sleeping, autoMuted := s.autoMuted))
  }

  // ----- the privacy lock -----

  function Applied(s: State, want: bool): State {
    var before := if want && !s.locked then Some(s.muted) else s.before;
    var t := s.(before := before, locked := want);
    PersistSpeaker(if want then t.(muted := true)
                   else if before.Some? then t.(muted := before.value, before := None) else t)
  }

  // ----- sleep -----

  function EnteredSleep(s: State): State {
    PersistSleep(s.(sleeping := true, sleepy := true))
  }

  /** A scene's drain yields to sleep's own, which mutes the speaker later; `mute`
      is what the sleep preset says. */
  function Finalized(s: State, mute: bool): State {
    if !s.sleepy then s
    else PersistSleep(if !mute || s.muted then s else s.(drains := s.drains.(scene := None, sleep := true)))
  }

  function PassedSleep(s: State): State {
    if s.drains.sleep then s.(drains := s.drains.(passedSleep := s.drains.passedSleep + 1)) else s
  }

  /** The drain's deferred mute. */
  function CommittedSleep(s: State): State {
    if s.drains.passedSleep == 0 then s
    else
      var t := s.(drains := s.drains.(passedSleep := s.drains.passedSleep - 1));
      if !t.sleeping || !t.sleepy || t.muted then t
      else PersistSleep(t.(muted := true, autoMuted := true))
  }

  /** The waking request clears the sleep flag before it restores the speaker. */
  function BegunWake(s: State): State {
    if !s.sleeping then s
    else PersistSleep(s.(sleeping := false)).(sleepy := false, wakes := s.wakes + 1)
  }

  function FinishedWake(s: State): State {
    if s.wakes == 0 then s
    else
      var t := s.(wakes := s.wakes - 1, drains := s.drains.(sleep := false));
      PersistSleep(
        if !t.autoMuted then t
        else PersistSpeaker((if t.locked then t.(before := Some(false)) else t.(muted := false)).(autoMuted := false)))
  }

  // ----- users and scenes -----

  function Muted(s: State): State {
    var t := if s.locked then s.(before := Some(true)) else s;
    var u := if t.autoMuted then PersistSleep(t.(autoMuted := false)) else t;
    PersistSpeaker(u.(muted := true))
  }

  function CancelScene(s: State): State {
    s.(drains := s.drains.(scene := None))
  }

  function Unmuted(s: State): State {
    if s.locked then s
    else if !s.muted then CancelScene(s)
    else PersistSpeaker(CancelScene(s).(muted := false))
  }

  /** A scene that mutes lets its own line play first, and leaves the speaker to
      a sleep that owns it or is about to. */
  function StartedScene(s: State, scene: Scene, speaker: Request): State {
    var t := s.(scene := Some(scene));
    match speaker
    case Off =>
      if t.muted then t
      else t.(drains := t.drains.(scene := if t.sleeping || t.drains.sleep then None else Some(scene)))
    case On => if t.muted && !t.locked then PersistSpeaker(CancelScene(t).(muted := false)) else CancelScene(t)
    case Keep => t
  }

  function PassedScene(s: State): State {
    if s.drains.scene.Some? then s.(drains := s.drains.(passed := s.drains.passed + multiset{s.drains.scene.value})) else s
  }

  function CommittedScene(s: State, scene: Scene): State {
    if scene !in s.drains.passed then s
    else
      var t := s.(drains := s.drains.(passed := s.drains.passed - multiset{scene}));
      if t.scene != Some(scene) || t.sleeping || t.muted then t else PersistSpeaker(t.(muted := true))
  }

  function EndedScene(s: State): State {
    var t := CancelScene(s.(scene := None));
    if !t.muted then t
    else PersistSpeaker(if t.locked then t.(before := Some(false)) else t.(muted := false))
  }

  // ----- restart -----

  /** Import reads the sidecars back; `prepare` then closes what the board locks. */
  function Restarted(s: State, lock: bool, scene: Option<Scene>): State {
    var auto := s.files.sleeping && s.files.autoMuted;
    var t := State(s.files.muted || auto, auto, s.files.sleeping, false, 0, false, None, scene, NO_DRAINS, s.files);
    if lock then Applied(t, true) else t
  }

  function Step(s: State, a: Action): State {
    match a
    case EnterSleep => EnteredSleep(s)
    case Finalize(mute) => Finalized(s, mute)
    case PassSleep => PassedSleep(s)
    case CommitSleep => CommittedSleep(s)
    case BeginWake => BegunWake(s)
    case FinishWake => FinishedWake(s)
    case Apply(want) => Applied(s, want)
    case Mute => Muted(s)
    case Unmute => Unmuted(s)
    case StartScene(scene, speaker) => StartedScene(s, scene, speaker)
    case PassScene => PassedScene(s)
    case CommitScene(scene) => CommittedScene(s, scene)
    case EndScene => EndedScene(s)
    case Restart(lock, active) => Restarted(s, lock, active)
  }

  function RunFrom(s: State, actions: seq<Action>): State {
    if actions == [] then s else Step(RunFrom(s, actions[..|actions| - 1]), actions[|actions| - 1])
  }

  function Run(actions: seq<Action>): State {
    RunFrom(BOOT, actions)
  }

  // ----- invariants -----

  predicate Inv(s: State) {
    && (s.locked <==> s.before.Some?)
    && (s.locked ==> s.muted)
    && (s.autoMuted ==> s.sleeping || 0 < s.wakes)
    && s.files.sleeping == s.sleeping
    && (s.files.sleeping ==> s.files.autoMuted == s.autoMuted)
    && (!s.autoMuted ==> s.files.muted == Preference(s))
  }

  lemma SleepInv(s: State, mute: bool)
    requires Inv(s)
    ensures Inv(EnteredSleep(s)) && Inv(Finalized(s, mute)) && Inv(PassedSleep(s))
    ensures Inv(CommittedSleep(s))
  {
  }

  lemma WakeInv(s: State)
    requires Inv(s)
    ensures Inv(BegunWake(s)) && Inv(FinishedWake(s))
  {
  }

  lemma ApplyInv(s: State, want: bool)
    requires Inv(s)
    ensures Inv(Applied(s, want))
  {
  }

  lemma UserInv(s: State)
    requires Inv(s)
    ensures Inv(Muted(s)) && Inv(Unmuted(s)) && Inv(EndedScene(s))
  {
  }

  lemma SceneInv(s: State, scene: Scene, speaker: Request)
    requires Inv(s)
    ensures Inv(StartedScene(s, scene, speaker)) && Inv(PassedScene(s)) && Inv(CommittedScene(s, scene))
  {
  }

  lemma RestartInv(s: State, lock: bool, scene: Option<Scene>)
    requires Inv(s)
    ensures Inv(Restarted(s, lock, scene))
  {
    hide Applied;
    ApplyInv(Restarted(s, false, scene), true);
  }

  lemma StepInv(s: State, a: Action)
    requires Inv(s)
    ensures Inv(Step(s, a))
  {
    hide Inv, EnteredSleep, Finalized, PassedSleep, CommittedSleep, BegunWake, FinishedWake, Applied, Muted, Unmuted,
      StartedScene, PassedScene, CommittedScene, EndedScene, Restarted;
    match a
    case Apply(want) => ApplyInv(s, want);
    case BeginWake => WakeInv(s);
    case FinishWake => WakeInv(s);
    case Mute => UserInv(s);
    case Unmute => UserInv(s);
    case EndScene => UserInv(s);
    case StartScene(scene, speaker) => SceneInv(s, scene, speaker);
    case PassScene => SceneInv(s, 0, Keep);
    case CommitScene(scene) => SceneInv(s, scene, Keep);
    case Restart(lock, active) => RestartInv(s, lock, active);
    case Finalize(mute) => SleepInv(s, mute);
    case _ => SleepInv(s, true);
  }

  lemma {:induction false} RunInv(actions: seq<Action>)
    ensures Inv(Run(actions))
  {
    if actions != [] {
      RunInv(actions[..|actions| - 1]);
      StepInv(Run(actions[..|actions| - 1]), actions[|actions| - 1]);
    }
  }

  // ----- the preference over whole runs -----

  /** A restart that finds the sleep flag already cleared, and in the speaker's
      sidecar a mute that was sleep's. */
  predicate Forgets(s: State, a: Action) {
    a.Restart? && s.autoMuted && !s.sleeping && s.files.muted
  }

  /** A scene's drain may mute the speaker now. */
  predicate Lands(s: State, a: Action) {
    a.CommitScene? && a.scene in s.drains.passed && s.scene == Some(a.scene) && !s.sleeping && !s.muted
  }

  /** A scene mutes a speaker that sleep still claims, so the wake will undo it. */
  predicate Undone(s: State, a: Action) {
    Lands(s, a) && s.autoMuted
  }

  /** What the user or the scene last asked for. A locked speaker takes no unmute,
      and a scene asks for its mute when its drain lands. */
  function Wish(wish: bool, s: State, a: Action): bool {
    match a
    case Mute => true
    case Unmute => if s.locked then wish else false
    case StartScene(_, speaker) => if speaker == On && !s.locked then false else wish
    case CommitScene(_) => if Lands(s, a) then true else wish
    case EndScene => false
    case _ => wish
  }

  lemma SleepPreference(s: State, a: Action)
    requires Inv(s) && (a.EnterSleep? || a.Finalize? || a.PassSleep? || a.CommitSleep? || a.BeginWake? || a.FinishWake?)
    ensures Preference(Step(s, a)) == Preference(s)
  {
  }

  lemma ApplyPreference(s: State, want: bool)
    requires Inv(s)
    ensures Preference(Applied(s, want)) == Preference(s)
  {
  }

  lemma RestartPreference(s: State, lock: bool, scene: Option<Scene>)
    requires Inv(s)
    ensures Preference(Restarted(s, lock, scene)) == Preference(s) <==> !Forgets(s, Restart(lock, scene))
  {
    hide Applied;
    RestartInv(s, false, scene);
    ApplyPreference(Restarted(s, false, scene), true);
  }

  lemma AskedPreference(s: State, a: Action)
    requires Inv(s) && (a.Mute? || a.Unmute? || a.StartScene? || a.PassScene? || a.CommitScene? || a.EndScene?)
    ensures Preference(Step(s, a)) == Wish(Preference(s), s, a) <==> !Undone(s, a)
  {
  }

  /** Every step leaves the preference as wished, except exactly the two above. */
  lemma StepPreference(s: State, a: Action)
    requires Inv(s)
    ensures Preference(Step(s, a)) == Wish(Preference(s), s, a) <==> !Forgets(s, a) && !Undone(s, a)
  {
    hide Inv, EnteredSleep, Finalized, PassedSleep, CommittedSleep, BegunWake, FinishedWake, Applied, Muted, Unmuted,
      StartedScene, PassedScene, CommittedScene, EndedScene, Restarted, Preference;
    match a
    case Apply(want) => ApplyPreference(s, want);
    case Restart(lock, active) => RestartPreference(s, lock, active);
    case Mute => AskedPreference(s, a);
    case Unmute => AskedPreference(s, a);
    case StartScene(_, _) => AskedPreference(s, a);
    case PassScene => AskedPreference(s, a);
    case CommitScene(_) => AskedPreference(s, a);
    case EndScene => AskedPreference(s, a);
    case _ => SleepPreference(s, a);
  }

  /** What was last asked for in a run. */
  function Wished(actions: seq<Action>): bool {
    if actions == [] then false
    else
      var front := actions[..|actions| - 1];
      Wish(Wished(front), Run(front), actions[|actions| - 1])
  }

  /** No step of the run forgets or undoes a request. */
  predicate Kept(actions: seq<Action>) {
    forall n :: 0 <= n < |actions| ==> KeptAt(actions, n)
  }

  predicate KeptAt(actions: seq<Action>, n: nat)
    requires n < |actions|
  {
    !Forgets(Run(actions[..n]), actions[n]) && !Undone(Run(actions[..n]), actions[n])
  }

  /** Whatever sleep, drains, wakes, the lock and restarts do in between, the
      speaker's preference is what was last asked for. */
  lemma {:induction false} PreferencePreserved(actions: seq<Action>)
    requires Kept(actions)
    ensures Preference(Run(actions)) == Wished(actions)
  {
    hide Step, Forgets, Undone, Wish, Preference, Inv;
    if actions == [] {
      StartsUnmuted();
    } else {
      var front := actions[..|actions| - 1];
      forall n | 0 <= n < |front| ensures KeptAt(front, n) {
        assert front[..n] == actions[..n] && KeptAt(actions, n);
      }
      PreferencePreserved(front);
      RunInv(front);
      assert KeptAt(actions, |front|);
      StepPreference(Run(front), actions[|front|]);
    }
  }

  lemma StartsUnmuted()
    ensures !Preference(BOOT)
  {
  }

  /** An awake device with no wake in progress plays exactly what its user chose;
      a locked one is silent. */
  lemma AwakeIsNotSleepMuted(actions: seq<Action>)
    requires !Run(actions).sleeping && Run(actions).wakes == 0
    ensures !Run(actions).autoMuted
    ensures Run(actions).muted == (Run(actions).locked || Preference(Run(actions)))
  {
    RunInv(actions);
  }

  /** Releasing the lock keeps the preference and plays it again. While sleep owns
      the mute it returns to what was captured, and finishing the wake unmutes. */
  lemma UnlockRestores(actions: seq<Action>)
    requires Run(actions).locked
    ensures var s, t := Run(actions), Step(Run(actions), Apply(false));
            && Preference(t) == Preference(s) && Some(t.muted) == s.before
            && (!s.autoMuted ==> t.muted == Preference(s) == s.files.muted)
            && (s.autoMuted ==> t.sleeping || (0 < t.wakes && !Step(t, FinishWake).muted))
  {
    RunInv(actions);
    hide RunFrom;
    ApplyPreference(Run(actions), false);
  }

  /** The lock released during sleep writes sleep's mute into the speaker's own
      sidecar; a restart inside the wake then leaves a speaker muted that no one
      asked to mute. */
  lemma RestartInsideWakeForgets()
    ensures var run := [EnterSleep, Finalize(true), PassSleep, CommitSleep, Apply(false), BeginWake, Restart(false, None)];
            var s := Run(run);
            !Wished(run) && s.muted && !s.autoMuted && !s.sleeping && Preference(s)
  {
    var a4 := ToSleep();
    hide RunFrom, Wished;
    RunOn(a4, Apply(false));
    RunOn(a4 + [Apply(false)], BeginWake);
    RunOn(a4 + [Apply(false)] + [BeginWake], Restart(false, None));
    assert a4 + [Apply(false)] + [BeginWake] + [Restart(false, None)]
        == [EnterSleep, Finalize(true), PassSleep, CommitSleep, Apply(false), BeginWake, Restart(false, None)];
  }

  /** Falling asleep with an unmuted speaker. */
  lemma ToSleep() returns (run: seq<Action>)
    ensures run == [EnterSleep, Finalize(true), PassSleep, CommitSleep] && !Wished(run)
    ensures Run(run) == State(true, true, true, true, 0, false, None, None, Drains(None, multiset{}, true, 0),
                              Files(false, true, true))
  {
    var a1 := [] + [EnterSleep];
    var a2 := a1 + [Finalize(true)];
    var a3 := a2 + [PassSleep];
    run := a3 + [CommitSleep];
    RunOn([], EnterSleep);
    RunOn(a1, Finalize(true));
    RunOn(a2, PassSleep);
    RunOn(a3, CommitSleep);
  }

  /** After a restart, unmuting a sleeping speaker leaves sleep's claim on it. */
  lemma ToUnmutedSleep() returns (run: seq<Action>)
    ensures run == [EnterSleep, Finalize(true), PassSleep, CommitSleep, Restart(false, None), Unmute] && !Wished(run)
    ensures Run(run) == State(false, true, true, false, 0, false, None, None, NO_DRAINS, Files(false, true, true))
  {
    var asleep := ToSleep();
    hide RunFrom, Wished;
    RunOn(asleep, Restart(false, None));
    RunOn(asleep + [Restart(false, None)], Unmute);
    run := asleep + [Restart(false, None)] + [Unmute];
  }

  lemma ToSceneInsideWake() returns (run: seq<Action>)
    ensures run == [EnterSleep, Finalize(true), PassSleep, CommitSleep, Restart(false, None), Unmute, BeginWake,
                    StartScene(1, Off)]
    ensures !Wished(run)
    ensures Run(run) == State(false, true, false, false, 1, false, None, Some(1), NO_DRAINS.(scene := Some(1)),
                              Files(false, false, true))
  {
    var asleep := ToUnmutedSleep();
    hide RunFrom, Wished;
    RunOn(asleep, BeginWake);
    RunOn(asleep + [BeginWake], StartScene(1, Off));
    run := asleep + [BeginWake] + [StartScene(1, Off)];
  }

  /** A scene then mutes that speaker inside the wake; the wake undoes it. */
  lemma SceneInsideWakeUndone()
    ensures var run := [EnterSleep, Finalize(true), PassSleep, CommitSleep, Restart(false, None), Unmute, BeginWake,
                        StartScene(1, Off), PassScene, CommitScene(1), FinishWake];
            Wished(run) && !Run(run).muted && !Preference(Run(run)) && Run(run).scene == Some(1)
  {
    var waking := ToSceneInsideWake();
    hide RunFrom, Wished;
    RunOn(waking, PassScene);
    RunOn(waking + [PassScene], CommitScene(1));
    RunOn(waking + [PassScene] + [CommitScene(1)], FinishWake);
    assert waking + [PassScene] + [CommitScene(1)] + [FinishWake]
        == [EnterSleep, Finalize(true), PassSleep, CommitSleep, Restart(false, None), Unmute, BeginWake,
            StartScene(1, Off), PassScene, CommitScene(1), FinishWake];
  }

  lemma RunOn(actions: seq<Action>, a: Action)
    ensures Run(actions + [a]) == Step(Run(actions), a)
    ensures Wished(actions + [a]) == Wish(Wished(actions), Run(actions), a)
  {
    assert (actions + [a])[..|actions|] == actions;
  }

  // ----- who may change what -----

  /** The steps that silence a speaker that plays. */
  predicate Silences(s: State, a: Action) {
    match a
    case Apply(want) => want
    case Mute => true
    case CommitSleep => 0 < s.drains.passedSleep && s.sleeping && s.sleepy
    case CommitScene(scene) => scene in s.drains.passed && s.scene == Some(scene) && !s.sleeping
    case Restart(lock, _) => lock || s.files.muted || (s.files.sleeping && s.files.autoMuted)
    case _ => false
  }

  /** The steps that let a muted speaker play. */
  predicate Sounds(s: State, a: Action) {
    match a
    case Apply(want) => !want && s.before == Some(false)
    case Unmute => !s.locked
    case StartScene(_, speaker) => speaker == On && !s.locked
    case EndScene => !s.locked
    case FinishWake => 0 < s.wakes && s.autoMuted && !s.locked
    case Restart(_, _) => !Silences(s, a)
    case _ => false
  }

  /** A speaker is silenced, and let play, by exactly these steps. */
  lemma StepMutes(s: State, a: Action)
    requires Inv(s)
    ensures !s.muted ==> (Step(s, a).muted <==> Silences(s, a))
    ensures s.muted ==> (!Step(s, a).muted <==> Sounds(s, a))
  {
    hide Applied, Inv;
    if a.Apply? {
      ApplyMutes(s, a.want);
    } else if a.Restart? {
      RestartInv(s, false, a.active);
      ApplyMutes(Restarted(s, false, a.active), true);
    } else {
      OtherMutes(s, a);
    }
  }

  lemma ApplyMutes(s: State, want: bool)
    requires Inv(s)
    ensures want ==> Applied(s, want).muted
    ensures !want ==> Applied(s, want).muted == (if s.before.Some? then s.before.value else s.muted)
    ensures !s.muted ==> s.before.None?
    ensures Applied(s, want).autoMuted == s.autoMuted
  {
  }

  lemma OtherMutes(s: State, a: Action)
    requires Inv(s) && !a.Apply? && !a.Restart?
    ensures !s.muted ==> (Step(s, a).muted <==> Silences(s, a))
    ensures s.muted ==> (!Step(s, a).muted <==> Sounds(s, a))
  {
  }

  /** Sleep comes to own a mute exactly when its drain silences the speaker; it
      gives it up to a user's mute, and when a wake finishes. */
  lemma StepClaims(s: State, a: Action)
    requires Inv(s)
    ensures Step(s, a).autoMuted ==
              match a
              case CommitSleep => s.autoMuted || (Silences(s, a) && !s.muted)
              case FinishWake => s.autoMuted && s.wakes == 0
              case Mute => false
              case Restart(_, _) => s.files.sleeping && s.files.autoMuted
              case _ => s.autoMuted
  {
    hide Applied;
    if a.Apply? {
      ApplyMutes(s, a.want);
    } else if a.Restart? {
      RestartInv(s, false, a.active);
      ApplyMutes(Restarted(s, false, a.active), true);
    }
  }

  /** In every run a sleep drain that has passed its check leaves a sleeping
      device silent, whatever scene is on, and owns the mute if it made it. */
  lemma SleepSilences(actions: seq<Action>)
    requires var s := Run(actions); 0 < s.drains.passedSleep && s.sleeping && s.sleepy
    ensures var s, t := Run(actions), Step(Run(actions), CommitSleep);
            t.muted && (t.autoMuted <==> s.autoMuted || !s.muted)
  {
    RunInv(actions);
    hide RunFrom, Inv;
    StepMutes(Run(actions), CommitSleep);
    StepClaims(Run(actions), CommitSleep);
  }

  /** The steps that write sleep's mute into the speaker's own sidecar, where a
      restart inside the wake takes it for the user's. */
  predicate Leaks(s: State, a: Action) {
    match a
    case Apply(_) => s.autoMuted && (if s.locked then s.before == Some(true) else s.muted)
    case CommitScene(_) => Undone(s, a)
    case Restart(lock, _) => lock && s.files.sleeping && s.files.autoMuted
    case _ => false
  }

  lemma StepLeaks(s: State, a: Action)
    requires Inv(s) && !(s.autoMuted && s.files.muted)
    ensures Step(s, a).autoMuted && Step(s, a).files.muted <==> Leaks(s, a)
  {
    hide Applied, Inv;
    if a.Apply? {
      ApplyLeaks(s, a.want);
    } else if a.Restart? {
      RestartInv(s, false, a.active);
      RestartLeaks(s, a.active);
      if a.lock {
        ApplyLeaks(Restarted(s, false, a.active), true);
      }
    } else {
      OtherLeaks(s, a);
    }
  }

  lemma ApplyLeaks(s: State, want: bool)
    requires Inv(s)
    ensures Applied(s, want).autoMuted && Applied(s, want).files.muted
       <==> s.autoMuted && (if s.locked then s.before == Some(true) else s.muted)
  {
  }

  lemma RestartLeaks(s: State, active: Option<Scene>)
    requires Inv(s) && !(s.autoMuted && s.files.muted)
    ensures var t := Restarted(s, false, active);
            !(t.autoMuted && t.files.muted) && !t.locked && (t.autoMuted ==> t.muted)
            && (t.autoMuted <==> s.files.sleeping && s.files.autoMuted)
  {
  }

  lemma OtherLeaks(s: State, a: Action)
    requires Inv(s) && !(s.autoMuted && s.files.muted) && !a.Apply? && !a.Restart?
    ensures Step(s, a).autoMuted && Step(s, a).files.muted <==> Leaks(s, a)
  {
  }

  /** The scene whose mute waits after a step. */
  function Waits(s: State, a: Action): Option<Scene> {
    match a
    case StartScene(scene, Off) =>
      if s.muted then s.drains.scene else if s.sleeping || s.drains.sleep then None else Some(scene)
    case StartScene(_, On) => None
    case Finalize(mute) => if s.sleepy && mute && !s.muted then None else s.drains.scene
    case Unmute => if s.locked then s.drains.scene else None
    case EndScene => None
    case Restart(_, _) => None
    case _ => s.drains.scene
  }

  /** What becomes of the drains: one of sleep's waits from a finalized sleep that
      mutes until the wake finishes, one of a scene's as told above, and each that
      has passed its check commits once. */
  predicate Drained(s: State, a: Action, e: Drains) {
    var d := s.drains;
    && e.scene == Waits(s, a)
    && (e.sleep <==> if a.Finalize? && s.sleepy && a.mute && !s.muted then true
                     else d.sleep && !(a.FinishWake? && 0 < s.wakes) && !a.Restart?)
    && e.passedSleep == (if a.Restart? then 0 else if a.PassSleep? && d.sleep then d.passedSleep + 1
                         else if a.CommitSleep? && 0 < d.passedSleep then d.passedSleep - 1 else d.passedSleep)
    && e.passed == (if a.Restart? then multiset{}
                    else if a.PassScene? && d.scene.Some? then d.passed + multiset{d.scene.value}
                    else if a.CommitScene? then d.passed - multiset{a.scene} else d.passed)
  }

  /** The device's own flags: who sleeps, wakes, locks and shows a scene. */
  predicate Flagged(s: State, a: Action, t: State) {
    && (t.sleeping <==> a.EnterSleep? || (s.sleeping && !a.BeginWake? && !a.Restart?) || (a.Restart? && s.files.sleeping))
    && (t.sleepy <==> a.EnterSleep? || (s.sleepy && !a.Restart? && !(a.BeginWake? && s.sleeping)))
    && t.wakes == (if a.Restart? then 0 else if a.BeginWake? && s.sleeping then s.wakes + 1
                   else if a.FinishWake? && 0 < s.wakes then s.wakes - 1 else s.wakes)
    && (t.locked <==> if a.Apply? then a.want else if a.Restart? then a.lock else s.locked)
    && t.scene == (match a case StartScene(scene, _) => Some(scene) case EndScene => None
                           case Restart(_, active) => active case _ => s.scene)
  }

  lemma SleepFields(s: State, a: Action)
    requires a.EnterSleep? || a.Finalize? || a.PassSleep? || a.CommitSleep? || a.BeginWake? || a.FinishWake?
    ensures Drained(s, a, Step(s, a).drains) && Flagged(s, a, Step(s, a))
  {
  }

  lemma StartFields(s: State, a: Action)
    requires a.StartScene?
    ensures Drained(s, a, Step(s, a).drains) && Flagged(s, a, Step(s, a))
  {
  }

  /** Persisting writes the sidecar and nothing else. */
  lemma Persisted(s: State)
    ensures PersistSpeaker(s) == s.(files := PersistSpeaker(s).files)
  {
  }

  lemma CommitFields(s: State, scene: Scene)
    ensures var a := CommitScene(scene); Drained(s, a, Step(s, a).drains) && Flagged(s, a, Step(s, a))
  {
    hide PersistSpeaker;
    if scene !in s.drains.passed {
      assert s.drains.passed - multiset{scene} == s.drains.passed;
    }
    Persisted(s.(drains := s.drains.(passed := s.drains.passed - multiset{scene}), muted := true));
  }

  lemma SceneFields(s: State, a: Action)
    requires a.PassScene? || a.EndScene?
    ensures Drained(s, a, Step(s, a).drains) && Flagged(s, a, Step(s, a))
  {
  }

  lemma AppliedFields(s: State, want: bool)
    ensures var a := Apply(want); Drained(s, a, Step(s, a).drains) && Flagged(s, a, Step(s, a))
  {
  }

  lemma UserFields(s: State, a: Action)
    requires a.Mute? || a.Unmute?
    ensures Drained(s, a, Step(s, a).drains) && Flagged(s, a, Step(s, a))
  {
  }

  lemma RestartFields(s: State, a: Action)
    requires a.Restart?
    ensures Drained(s, a, Step(s, a).drains) && Flagged(s, a, Step(s, a))
  {
    hide Applied;
    AppliedFields(Restarted(s, false, a.active), true);
  }

  /** In every state the drains and the flags change by exactly these rules. */
  lemma StepFields(s: State, a: Action)
    ensures Drained(s, a, Step(s, a).drains) && Flagged(s, a, Step(s, a))
  {
    hide Drained, Flagged, Step;
    match a
    case Restart(_, _) => RestartFields(s, a);
    case StartScene(_, _) => StartFields(s, a);
    case PassScene => SceneFields(s, a);
    case CommitScene(scene) => CommitFields(s, scene);
    case EndScene => SceneFields(s, a);
    case Mute => UserFields(s, a);
    case Unmute => UserFields(s, a);
    case Apply(want) => AppliedFields(s, want);
    case _ => SleepFields(s, a);
  }

  // ----- cancelled drains -----

  /** No scene is about to mute the speaker. */
  predicate NoSceneDrain(s: State) {
    s.drains.scene.None? && s.drains.passed == multiset{}
  }

  predicate AsksToMute(a: Action) {
    a.Mute? || (a.StartScene? && a.speaker == Off)
  }

  /** No request to mute, and no restart that forgets. */
  predicate Unasked(s: State, actions: seq<Action>) {
    forall n :: 0 <= n < |actions| ==> UnaskedAt(s, actions, n)
  }

  predicate UnaskedAt(s: State, actions: seq<Action>, n: nat)
    requires n < |actions|
  {
    !AsksToMute(actions[n]) && !Forgets(RunFrom(s, actions[..n]), actions[n])
  }

  lemma DrainStep(s: State, a: Action)
    requires NoSceneDrain(s) && !AsksToMute(a)
    ensures NoSceneDrain(Step(s, a)) && !Lands(s, a)
  {
  }

  lemma {:induction false} StaysUnmuted(s: State, actions: seq<Action>)
    requires Inv(s) && NoSceneDrain(s) && !Preference(s) && Unasked(s, actions)
    ensures var t := RunFrom(s, actions); Inv(t) && NoSceneDrain(t) && !Preference(t)
  {
    hide Step, Forgets, Preference, Inv, NoSceneDrain, Lands;
    if actions != [] {
      var front, a := actions[..|actions| - 1], actions[|actions| - 1];
      forall n | 0 <= n < |front| ensures UnaskedAt(s, front, n) {
        assert front[..n] == actions[..n] && UnaskedAt(s, actions, n);
      }
      StaysUnmuted(s, front);
      assert UnaskedAt(s, actions, |front|);
      StepInv(RunFrom(s, front), a);
      DrainStep(RunFrom(s, front), a);
      StepPreference(RunFrom(s, front), a);
    }
  }

  /** An unmute, or the end of a scene, also cancels the mute still waiting: unless
      a drain had passed its check, the speaker stays wanted on until someone asks
      to mute it. */
  lemma CancelledMuteStaysAway(actions: seq<Action>, cancel: Action, more: seq<Action>)
    requires (cancel.Unmute? && !Run(actions).locked) || cancel.EndScene?
    requires Run(actions).drains.passed == multiset{}
    requires Unasked(Step(Run(actions), cancel), more)
    ensures !Preference(RunFrom(Step(Run(actions), cancel), more))
  {
    RunInv(actions);
    CancelCancels(Run(actions), cancel);
    StepInv(Run(actions), cancel);
    StaysUnmuted(Step(Run(actions), cancel), more);
  }

  lemma CancelCancels(s: State, cancel: Action)
    requires Inv(s) && s.drains.passed == multiset{} && ((cancel.Unmute? && !s.locked) || cancel.EndScene?)
    ensures NoSceneDrain(Step(s, cancel)) && !Preference(Step(s, cancel))
  {
  }

  /** A drain mutes an awake speaker just unmuted exactly if it had passed its
      check, and its scene is still the active one. */
  lemma UnmuteRaces(actions: seq<Action>, scene: Scene)
    requires !Run(actions).locked && !Run(actions).sleeping
    ensures Step(Step(Run(actions), Unmute), CommitScene(scene)).muted
       <==> scene in Run(actions).drains.passed && Run(actions).scene == Some(scene)
  {
    hide RunFrom;
  }

  // ----- the module state -----

  class Speaker {
    var muted: bool
    var autoMuted: bool
    var sleeping: bool
    var sleepy: bool
    var wakes: nat
    var locked: bool
    var before: Option<bool>
    var scene: Option<Scene>
    var drains: Drains
    var files: Files

    ghost function View(): State
      reads this
    {
      State(muted, autoMuted, sleeping, sleepy, wakes, locked, before, scene, drains, files)
    }

    constructor ()
      ensures View() == BOOT
    {
      muted, autoMuted, sleeping, sleepy, wakes := false, false, false, false, 0;
      locked, before, scene, drains, files := false, None, None, NO_DRAINS, Files(false, false, false);
    }

    method PersistSpeakerState()
      modifies this`files
      ensures View() == PersistSpeaker(old(View()))
    {
      files := files.(muted := if locked && before.Some? then before.value else muted);
    }

    method PersistSleepState()
      modifies this`files
      ensures View() == PersistSleep(old(View()))
    {
      files := files.(sleeping := sleeping, autoMuted := autoMuted);
    }

    method ApplyPrivacy(want: bool)
      modifies this
      ensures View() == Step(old(View()), Apply(want))
    {
      if want && !locked {
        before := Some(muted);
      }
      locked := want;
      if locked {
        muted := true;
      } else if before.Some? {
        muted := before.value;
        before := None;
      }
      PersistSpeakerState();
    }

    method FinalizeSleep(mute: bool)
      modifies this`drains, this`files
      ensures View() == Step(old(View()), Finalize(mute))
    {
      if !sleepy {
        return;
      }
      if mute && !muted {
        CancelSceneDrain();
        drains := drains.(sleep := true);
      }
      PersistSleepState();
    }

    method MuteForSleep()
      requires 0 < drains.passedSleep
      modifies this
      ensures View() == Step(old(View()), CommitSleep)
    {
      drains := drains.(passedSleep := drains.passedSleep - 1);
      if !sleeping || !sleepy || muted {
        return;
      }
      muted := true;
      autoMuted := true;
      PersistSleepState();
    }

    method WakePeripherals()
      requires 0 < wakes
      modifies this
      ensures View() == Step(old(View()), FinishWake)
    {
      wakes := wakes - 1;
      drains := drains.(sleep := false);
      if autoMuted {
        if locked {
          before := Some(false);
        } else {
          muted := false;
        }
        autoMuted := false;
        PersistSpeakerState();
      }
      PersistSleepState();
    }

    method CancelSceneDrain()
      modifies this`drains
      ensures View() == CancelScene(old(View()))
    {
      if drains.scene.Some? {
        drains := drains.(scene := None);
      }
    }

    method StartSceneDrain(active: Scene)
      modifies this`drains
      ensures View() == old(View()).(drains := drains)
      ensures drains == old(drains).(scene := if sleeping || drains.sleep then None else Some(active))
    {
      CancelSceneDrain();
      if sleeping || drains.sleep {
        return;
      }
      drains := drains.(scene := Some(active));
    }

    method ActivateScene(active: Scene, speaker: Request)
      modifies this`scene, this`drains, this`muted, this`files
      ensures View() == Step(old(View()), StartScene(active, speaker))
    {
      scene := Some(active);
      if speaker == Off && !muted {
        StartSceneDrain(active);
      } else if speaker == On {
        CancelSceneDrain();
        if muted && !locked {
          muted := false;
          PersistSpeakerState();
        }
      }
    }

    method MuteForScene(active: Scene)
      requires active in drains.passed
      modifies this`drains, this`muted, this`files
      ensures View() == Step(old(View()), CommitScene(active))
    {
      drains := drains.(passed := drains.passed - multiset{active});
      if scene != Some(active) || sleeping || muted {
        return;
      }
      muted := true;
      PersistSpeakerState();
    }

    method MuteSpeaker()
      modifies this
      ensures View() == Step(old(View()), Mute)
    {
      if locked {
        before := Some(true);
      }
      if autoMuted {
        autoMuted := false;
        PersistSleepState();
      }
      if muted {
        PersistSpeakerState();
        return;
      }
      muted := true;
      PersistSpeakerState();
    }

    method UnmuteSpeaker() returns (refused: bool)
      modifies this
      ensures View() == Step(old(View()), Unmute)
      ensures refused == old(locked)
    {
      if locked {
        return true;
      }
      refused := false;
      CancelSceneDrain();
      if muted {
        muted := false;
        PersistSpeakerState();
      }
    }

    method EndCurrentScene()
      modifies this
      ensures View() == Step(old(View()), EndScene)
    {
      scene := None;
      CancelSceneDrain();
      if muted {
        if locked {
          before := Some(false);
        } else {
          muted := false;
        }
        PersistSpeakerState();
      }
    }

    /** A new process on the same boot: memory is lost, the sidecars are read back. */
    method LoadSidecars(active: Option<Scene>)
      modifies this
      ensures View() == Step(old(View()), Restart(false, active))
    {
      sleepy, wakes, locked, before, scene, drains := false, 0, false, None, active, NO_DRAINS;
      sleeping := files.sleeping;
      autoMuted := sleeping && files.autoMuted;
      muted := files.muted || autoMuted;
    }

    /** `prepare` closes the lock at start-up if the board's switch says so. */
    method Prepare(lock: bool, active: Option<Scene>)
      modifies this
      ensures View() == Step(old(View()), Restart(lock, active))
    {
      hide Applied;
      LoadSidecars(active);
      if lock {
        ApplyPrivacy(true);
      }
    }
  }
}
