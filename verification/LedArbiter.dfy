/** Who owns the LED strip: sleep, speech, music, the mic-muted indicator, a
    thinking cue, harness mode, an emotion, or the user's saved look. Every
    handler is one step; timers and callbacks may fire in any order. */
module LedArbiter {
  import opened Common

  datatype Mood = Neutral | Sleepy | Idle | Thinking | Listening | Greeting | Stretching | Feeling(name: nat)

  /** What a preset paints; a colour may be black. */
  datatype Look = Missing | Colourless | Plain(lit: bool) | Animated

  datatype Saved = Solid(lit: bool) | Paint(lit: bool) | Moving | Scenic(known: bool, lit: bool)

  datatype Effect = SpeakingWave | MusicWave | MicRed | Ambient | HarnessMode | Emotion(mood: Mood) | Restored

  datatype Device = Device(look: Mood -> Look, restingDark: bool)

  datatype Strip = Strip(
    sleeping: bool,
    mood: Mood,
    lit: bool,
    effect: Option<Effect>,
    tts: bool,
    music: bool,
    micLed: bool,
    scene: bool,
    saved: Option<Saved>,
    thinking: bool,
    pending: bool,
    harness: bool)

  datatype Action =
    | Begin(mood: Mood)
    | Display(mood: Mood, force: bool)
    | Finalize
    | TtsStart
    | TtsEnd(reply: bool)
    | MusicStart
    | MusicEnd
    | ApplyMic(force: bool)
    | ClearMic(force: bool)
    | DismissMic
    | ShowPending
    | ClearPending(restore: bool)
    | ClearListening
    | RestoreTimer
    | SetHarness(on: bool)

  // ----- painting -----

  function Stop(s: Strip): Strip {
    s.(effect := None)
  }

  function Cleared(s: Strip): Strip {
    s.(effect := None, lit := false)
  }

  function Play(s: Strip, e: Effect): Strip {
    s.(effect := Some(e), lit := true)
  }

  predicate Dark(s: Strip) {
    !s.lit && s.effect.None?
  }

  predicate MicOwns(s: Strip) {
    s.micLed && !s.scene && !(s.saved.Some? && s.saved.value.Scenic?)
  }

  function MicMuted(s: Strip): Strip {
    if s.sleeping || !MicOwns(s) then s else Play(s, MicRed)
  }

  predicate Background(m: Mood) {
    m == Idle || m == Thinking
  }

  function Displayed(d: Device, s: Strip, m: Mood, force: bool): Strip {
    if d.look(m).Missing? || (s.sleeping && m != Sleepy) || s.tts then s
    else if !force && Background(m) && s.saved.Some? then s
    else
      match d.look(m)
      case Animated => Play(s, Emotion(m))
      case Plain(lit) => s.(lit := lit)
      case _ => s
  }

  /** Back to the saved look. */
  function SavedLook(d: Device, s: Strip): Strip {
    match s.saved
    case None => if d.restingDark then Cleared(s) else s
    case Some(Solid(lit)) => Stop(s).(lit := lit)
    case Some(Paint(lit)) => Stop(s).(lit := lit)
    case Some(Moving) => Play(s, Restored)
    case Some(Scenic(known, lit)) => if known then Stop(s).(lit := lit) else s
  }

  /** Whatever just ended hands the strip to its next owner. */
  function Restore(d: Device, s: Strip): Strip {
    if s.sleeping then Cleared(s)
    else if s.tts || s.music then s
    else if MicOwns(s) then MicMuted(s)
    else if s.thinking then Displayed(d, s, Thinking, true)
    else if s.harness then (if s.effect == Some(HarnessMode) then s else Play(s, HarnessMode))
    else SavedLook(d, s)
  }

  // ----- handlers -----

  predicate Admitted(s: Strip, m: Mood) {
    s.sleeping ==> m == Sleepy || m == Greeting || m == Stretching
  }

  /** An emotion request takes over the state; sleeping devices admit few. */
  function Begun(s: Strip, m: Mood): Strip {
    if !Admitted(s, m) then s
    else s.(pending := false, sleeping := m == Sleepy, mood := m, thinking := s.thinking && m == Thinking)
  }

  function Express(d: Device, s: Strip, m: Mood): Strip {
    if Admitted(s, m) then Displayed(d, Begun(s, m), m, false) else s
  }

  function Finalized(s: Strip): Strip {
    if s.mood == Sleepy then Cleared(s) else s
  }

  function TtsStarted(s: Strip): Strip {
    if s.sleeping then s else Play(s.(tts := true), SpeakingWave)
  }

  function TtsEnded(d: Device, s: Strip, reply: bool): Strip {
    if !s.tts then s
    else
      var t := s.(tts := false);
      var u := if t.mood == Thinking && reply then Express(d, t.(thinking := false), Idle) else t;
      Restore(d, Stop(u))
  }

  function MusicStarted(s: Strip): Strip {
    if s.sleeping || s.tts || s.music then s else Play(s.(music := true), MusicWave)
  }

  function MusicEnded(d: Device, s: Strip): Strip {
    if !s.music then s
    else if s.tts then s.(music := false)
    else Restore(d, Stop(s.(music := false)))
  }

  function MicApplied(s: Strip, force: bool): Strip {
    if s.micLed && !force then s
    else if !force && (s.tts || s.music) then s.(micLed := true)
    else MicMuted(s.(micLed := true))
  }

  function MicCleared(d: Device, s: Strip, force: bool): Strip {
    if !s.micLed && !force then s
    else
      var t := s.(micLed := false);
      if t.tts || t.music then (if force && t.effect == Some(MicRed) then Stop(t) else t)
      else if t.effect != Some(MicRed) then Restore(d, t)
      else if t.saved.Some? then Restore(d, Stop(t))
      else if d.restingDark then Stop(t).(lit := false)
      else Play(t, Ambient)
  }

  function PendingShown(d: Device, s: Strip): Strip {
    if s.sleeping || s.tts || (s.mood != Neutral && s.mood != Idle) then s
    else Displayed(d, s.(pending := true), Listening, true)
  }

  function PendingCleared(d: Device, s: Strip, restore: bool): Strip {
    if !s.pending then s
    else
      var t := s.(pending := false);
      if restore && (t.mood == Neutral || t.mood == Idle) then Restore(d, t) else t
  }

  function HarnessSet(d: Device, s: Strip, on: bool): Strip {
    if s.harness == on then s
    else
      var t := s.(harness := on);
      Restore(d, if !on && t.effect == Some(HarnessMode) then Cleared(t) else t)
  }

  function Step(d: Device, s: Strip, a: Action): Strip {
    match a
    case Begin(m) => Begun(s, m)
    case Display(m, force) => Displayed(d, s, m, force)
    case Finalize => Finalized(s)
    case TtsStart => TtsStarted(s)
    case TtsEnd(reply) => TtsEnded(d, s, reply)
    case MusicStart => MusicStarted(s)
    case MusicEnd => MusicEnded(d, s)
    case ApplyMic(force) => MicApplied(s, force)
    case ClearMic(force) => MicCleared(d, s, force)
    case DismissMic => s.(micLed := false)
    case ShowPending => PendingShown(d, s)
    case ClearPending(restore) => PendingCleared(d, s, restore)
    case ClearListening => if s.mood == Listening then Restore(d, s.(mood := Idle)) else s
    case RestoreTimer => Restore(d, s)
    case SetHarness(on) => HarnessSet(d, s, on)
  }

  function Run(d: Device, s: Strip, actions: seq<Action>): Strip {
    if actions == [] then s else Step(d, Run(d, s, actions[..|actions| - 1]), actions[|actions| - 1])
  }

  // ----- sleep keeps the strip dark -----

  /** The base presets paint sleep black. */
  predicate SleepIsBlack(d: Device) {
    d.look(Sleepy) == Plain(false)
  }

  lemma DisplayDark(d: Device, s: Strip, m: Mood, force: bool)
    requires SleepIsBlack(d) && s.sleeping && Dark(s)
    ensures Dark(Displayed(d, s, m, force)) && Displayed(d, s, m, force).sleeping
  {
  }

  lemma RestoreDark(d: Device, s: Strip)
    requires s.sleeping
    ensures Restore(d, s) == Cleared(s)
  {
  }

  lemma TtsEndDark(d: Device, s: Strip, reply: bool)
    requires SleepIsBlack(d) && s.sleeping && Dark(s) && TtsEnded(d, s, reply).sleeping
    ensures Dark(TtsEnded(d, s, reply))
  {
    hide Displayed, Restore;
    if s.tts {
      var t := s.(tts := false);
      var u := if t.mood == Thinking && reply then Express(d, t.(thinking := false), Idle) else t;
      RestoreDark(d, Stop(u));
    }
  }

  lemma ClearMicDark(d: Device, s: Strip, force: bool)
    requires s.sleeping && Dark(s)
    ensures Dark(MicCleared(d, s, force))
  {
    hide Restore;
    RestoreDark(d, s.(micLed := false));
  }

  lemma PendingDark(d: Device, s: Strip, restore: bool)
    requires s.sleeping && Dark(s)
    ensures Dark(PendingCleared(d, s, restore)) && Dark(PendingShown(d, s))
  {
    hide Restore, Displayed;
    RestoreDark(d, s.(pending := false));
  }

  lemma HarnessDark(d: Device, s: Strip, on: bool)
    requires s.sleeping && Dark(s)
    ensures Dark(HarnessSet(d, s, on))
  {
    hide Restore;
    RestoreDark(d, s.(harness := on));
  }

  lemma StepDark(d: Device, s: Strip, a: Action)
    requires SleepIsBlack(d) && s.sleeping && Dark(s) && Step(d, s, a).sleeping
    ensures Dark(Step(d, s, a))
  {
    hide Displayed, Restore, TtsEnded, MicCleared, PendingCleared, PendingShown, HarnessSet;
    match a
    case Display(m, force) => DisplayDark(d, s, m, force);
    case TtsEnd(reply) => TtsEndDark(d, s, reply);
    case MusicEnd => RestoreDark(d, Stop(s.(music := false)));
    case ClearMic(force) => ClearMicDark(d, s, force);
    case ShowPending => PendingDark(d, s, false);
    case ClearPending(restore) => PendingDark(d, s, restore);
    case ClearListening => RestoreDark(d, s.(mood := Idle));
    case RestoreTimer => RestoreDark(d, s);
    case SetHarness(on) => HarnessDark(d, s, on);
    case _ =>
  }

  predicate SleepsThrough(d: Device, s: Strip, actions: seq<Action>) {
    forall n :: 0 <= n <= |actions| ==> SleepsAt(d, s, actions, n)
  }

  predicate SleepsAt(d: Device, s: Strip, actions: seq<Action>, n: nat)
    requires n <= |actions|
  {
    Run(d, s, actions[..n]).sleeping
  }

  /** From the moment sleep is finalized until the sleep flag clears, the strip is
      dark and no effect runs, whatever else happens. */
  lemma {:induction false} SleepStaysDark(d: Device, s: Strip, actions: seq<Action>)
    requires SleepIsBlack(d) && s.sleeping && s.mood == Sleepy
    requires SleepsThrough(d, Step(d, s, Finalize), actions)
    ensures Dark(Run(d, Step(d, s, Finalize), actions))
  {
    if actions != [] {
      var t, front := Step(d, s, Finalize), actions[..|actions| - 1];
      forall n | 0 <= n <= |front| ensures SleepsAt(d, t, front, n) {
        assert front[..n] == actions[..n] && SleepsAt(d, t, actions, n);
      }
      SleepStaysDark(d, s, front);
      assert SleepsAt(d, t, actions, |front|) && SleepsAt(d, t, actions, |actions|);
      assert actions[..|actions|] == actions;
      StepDark(d, Run(d, t, front), actions[|front|]);
    }
  }

  /** Before it is finalized sleep may still be lit: speech that was playing keeps
      its wave until something settles the strip. */
  lemma LitUntilFinalized(d: Device, s: Strip)
    requires !s.sleeping && s.tts && s.effect == Some(SpeakingWave)
    ensures var t := Step(d, Step(d, s, Begin(Sleepy)), Display(Sleepy, false));
            t.sleeping && !Dark(t) && Dark(Step(d, t, Finalize))
  {
  }

  // ----- speech keeps its wave -----

  /** A physical mute throw paints over the wave unless a scene is lit. */
  predicate Overrides(s: Strip, a: Action) {
    || a.TtsEnd?
    || (a.ApplyMic? && a.force && MicOwns(s.(micLed := true)))
    || (a.Finalize? && s.mood == Sleepy)
  }

  /** While an awake device speaks, exactly the end of speech, a forced mute and a
      finalized sleep take the strip from its wave. */
  lemma SpeechKeepsWave(d: Device, s: Strip, a: Action)
    requires !s.sleeping && s.tts && s.effect == Some(SpeakingWave)
    ensures Step(d, s, a).tts && Step(d, s, a).effect == Some(SpeakingWave) <==> !Overrides(s, a)
  {
    hide Displayed, Restore, TtsEnded, PendingCleared, PendingShown, HarnessSet, MicApplied, MicCleared, TtsStarted,
      MusicStarted, MusicEnded, Begun;
    match a
    case Begin(m) => MusicSpeaking(d, s, m);
    case TtsStart => MusicSpeaking(d, s, Neutral);
    case MusicStart => MusicSpeaking(d, s, Neutral);
    case MusicEnd => MusicSpeaking(d, s, Neutral);
    case ApplyMic(force) => MicSpeaking(d, s, force);
    case ClearMic(force) => MicSpeaking(d, s, force);
    case Display(m, force) => DisplayTts(d, s, m, force);
    case TtsEnd(reply) => SpeechEnds(d, s, reply);
    case ClearPending(restore) => PendingSpeaking(d, s, restore);
    case ShowPending => PendingSpeaking(d, s, false);
    case ClearListening => RestoreTts(d, s.(mood := Idle));
    case RestoreTimer => RestoreTts(d, s);
    case SetHarness(on) => HarnessSpeaking(d, s, on);
    case _ =>
  }

  lemma MusicSpeaking(d: Device, s: Strip, m: Mood)
    requires !s.sleeping && s.tts && s.effect == Some(SpeakingWave)
    ensures var t := Begun(s, m); t.tts && t.effect == s.effect
    ensures var t := TtsStarted(s); t.tts && t.effect == s.effect
    ensures MusicStarted(s) == s && MusicEnded(d, s) == s.(music := false)
  {
    hide Restore;
  }

  lemma MicSpeaking(d: Device, s: Strip, force: bool)
    requires !s.sleeping && s.tts && s.effect == Some(SpeakingWave)
    ensures MicApplied(s, force).tts
    ensures MicApplied(s, force).effect == s.effect <==> !(force && MicOwns(s.(micLed := true)))
    ensures MicCleared(d, s, force) == if s.micLed || force then s.(micLed := false) else s
  {
    hide Restore;
  }

  lemma ExpressTts(d: Device, s: Strip, m: Mood)
    ensures Express(d, s, m).tts == s.tts
  {
    hide Displayed;
    DisplayTts(d, Begun(s, m), m, false);
  }

  lemma SpeechEnds(d: Device, s: Strip, reply: bool)
    requires s.tts
    ensures !TtsEnded(d, s, reply).tts
  {
    hide Express, Restore;
    var t := s.(tts := false);
    ExpressTts(d, t.(thinking := false), Idle);
    RestoreTts(d, Stop(if t.mood == Thinking && reply then Express(d, t.(thinking := false), Idle) else t));
  }

  lemma PendingSpeaking(d: Device, s: Strip, restore: bool)
    requires !s.sleeping && s.tts
    ensures PendingCleared(d, s, restore) == s.(pending := false)
    ensures PendingShown(d, s) == s
  {
    hide Restore;
    RestoreTts(d, s.(pending := false));
  }

  lemma HarnessSpeaking(d: Device, s: Strip, on: bool)
    requires !s.sleeping && s.tts && s.effect == Some(SpeakingWave)
    ensures HarnessSet(d, s, on) == s.(harness := on)
  {
    hide Restore;
    RestoreTts(d, s.(harness := on));
  }

  lemma DisplayTts(d: Device, s: Strip, m: Mood, force: bool)
    ensures Displayed(d, s, m, force).tts == s.tts
    ensures s.tts ==> Displayed(d, s, m, force) == s
  {
  }

  lemma RestoreTts(d: Device, s: Strip)
    ensures Restore(d, s).tts == s.tts
    ensures !s.sleeping && s.tts ==> Restore(d, s) == s
  {
  }

  // ----- settling forgets what was painted -----

  /** Some owner decides the resting look by itself. */
  predicate Owned(d: Device, s: Strip) {
    || s.sleeping
    || (!s.tts && !s.music
        && (if MicOwns(s) then true
            else if s.thinking then d.look(Thinking).Animated?
            else if s.harness then true
            else match s.saved
                 case None => d.restingDark
                 case Some(Scenic(known, _)) => known
                 case _ => true))
  }

  predicate Paintable(lit: bool, e: Option<Effect>) {
    e.Some? ==> lit
  }

  function Painted(s: Strip, lit: bool, e: Option<Effect>): Strip {
    s.(lit := lit, effect := e)
  }

  /** The look after settling depends on the owners alone exactly when there is
      one; otherwise the last frame of whatever ended stays on the strip. */
  lemma SettlingForgets(d: Device, s: Strip)
    ensures (forall lit, e, lit', e' | Paintable(lit, e) && Paintable(lit', e') ::
               Restore(d, Painted(s, lit, e)) == Restore(d, Painted(s, lit', e'))) <==> Owned(d, s)
  {
    if Owned(d, s) {
      forall lit, e, lit', e' | Paintable(lit, e) && Paintable(lit', e')
        ensures Restore(d, Painted(s, lit, e)) == Restore(d, Painted(s, lit', e'))
      {
        OwnerDecides(d, s, lit, e);
        OwnerDecides(d, s, lit', e');
      }
    } else {
      FrameStays(d, s, Some(SpeakingWave));
      FrameStays(d, s, Some(MusicWave));
      hide Restore, Owned;
      assert Restore(d, Painted(s, true, Some(SpeakingWave))) != Restore(d, Painted(s, true, Some(MusicWave)));
    }
  }

  lemma OwnerDecides(d: Device, s: Strip, lit: bool, e: Option<Effect>)
    requires Owned(d, s) && Paintable(lit, e)
    ensures Restore(d, Painted(s, lit, e)) == Restore(d, Painted(s, false, None))
  {
    hide Displayed, SavedLook;
    if !s.sleeping && !MicOwns(s) {
      if s.thinking {
        ThinkingDecides(d, s, lit, e);
      } else if !s.harness {
        SavedDecides(d, s, lit, e);
      }
    }
  }

  lemma ThinkingDecides(d: Device, s: Strip, lit: bool, e: Option<Effect>)
    requires !s.sleeping && !s.tts && d.look(Thinking).Animated?
    ensures Displayed(d, Painted(s, lit, e), Thinking, true) == Displayed(d, Painted(s, false, None), Thinking, true)
  {
  }

  lemma SavedDecides(d: Device, s: Strip, lit: bool, e: Option<Effect>)
    requires match s.saved
             case None => d.restingDark
             case Some(Scenic(known, _)) => known
             case _ => true
    ensures SavedLook(d, Painted(s, lit, e)) == SavedLook(d, Painted(s, false, None))
  {
  }

  lemma FrameStays(d: Device, s: Strip, e: Option<Effect>)
    requires !Owned(d, s)
    ensures Restore(d, Painted(s, true, e)).effect == e
  {
  }

  /** The mute indicator comes back: whatever spoke, played or was shown over it,
      once an awake device settles in silence the strip is red again. */
  lemma RedComesBack(d: Device, s: Strip, a: Action)
    requires !s.sleeping && MicOwns(s)
    requires || (a.RestoreTimer? && !s.tts && !s.music)
             || (a.TtsEnd? && s.tts && !s.music)
             || (a.MusicEnd? && s.music && !s.tts)
             || (a.ClearListening? && s.mood == Listening && !s.tts && !s.music)
    ensures Step(d, s, a).effect == Some(MicRed) && Step(d, s, a).lit
  {
    hide Restore, Displayed, MicOwns;
    match a
    case TtsEnd(reply) => RedAfterSpeech(d, s, reply);
    case MusicEnd => SettleRed(d, Stop(s.(music := false)), s);
    case ClearListening => SettleRed(d, s.(mood := Idle), s);
    case _ => SettleRed(d, s, s);
  }

  lemma SettleRed(d: Device, s: Strip, before: Strip)
    requires MicOwns(before) && s.micLed == before.micLed && s.scene == before.scene && s.saved == before.saved
    requires !s.sleeping && !s.tts && !s.music
    ensures Restore(d, s) == Play(s, MicRed)
  {
    hide SavedLook, Displayed;
  }

  lemma RedAfterSpeech(d: Device, s: Strip, reply: bool)
    requires !s.sleeping && MicOwns(s) && s.tts && !s.music
    ensures TtsEnded(d, s, reply) == Play(TtsEnded(d, s, reply), MicRed)
  {
    hide Displayed, Restore;
    var t := s.(tts := false);
    DisplayKeepsOwner(d, Begun(t.(thinking := false), Idle), Idle);
    SettleRed(d, Stop(if t.mood == Thinking && reply then Express(d, t.(thinking := false), Idle) else t), s);
  }

  lemma PlayKeepsOwner(s: Strip, e: Effect, lit: bool)
    ensures SameOwner(Play(s, e), s) && SameOwner(s.(lit := lit), s)
  {
  }

  predicate SameOwner(t: Strip, s: Strip) {
    && t.micLed == s.micLed && t.scene == s.scene && t.saved == s.saved
    && t.sleeping == s.sleeping && t.tts == s.tts && t.music == s.music
  }

  lemma DisplayKeepsOwner(d: Device, s: Strip, m: Mood)
    ensures SameOwner(Displayed(d, s, m, false), s)
  {
    assert SameOwner(s, s);
    hide Play, SameOwner;
    PlayKeepsOwner(s, Emotion(m), false);
    PlayKeepsOwner(s, Emotion(m), true);
  }

  // ----- who owns the strip, and what it then shows -----

  datatype Owner = Asleep | Speech | Music | Muted | Thought | Worked | Look(saved: Saved) | Nobody

  /** The most urgent of those who want the strip. */
  function OwnerOf(s: Strip): Owner {
    if s.sleeping then Asleep
    else if s.tts then Speech
    else if s.music then Music
    else if s.micLed && !s.scene && (s.saved.None? || !s.saved.value.Scenic?) then Muted
    else if s.thinking then Thought
    else if s.harness then Worked
    else if s.saved.Some? then Look(s.saved.value)
    else Nobody
  }

  /** What an owner makes of a strip that showed `s`. */
  predicate Shows(d: Device, o: Owner, s: Strip, lit: bool, effect: Option<Effect>) {
    match o
    case Asleep => !lit && effect == None
    case Speech => lit == s.lit && effect == s.effect
    case Music => lit == s.lit && effect == s.effect
    case Muted => lit && effect == Some(MicRed)
    case Thought => if d.look(Thinking) == Animated then lit && effect == Some(Emotion(Thinking))
                    else effect == s.effect && lit == if d.look(Thinking).Plain? then d.look(Thinking).lit else s.lit
    case Worked => effect == Some(HarnessMode) && (lit || s.effect == Some(HarnessMode))
                   && (s.effect == Some(HarnessMode) ==> lit == s.lit)
    case Look(Solid(on)) => effect == None && lit == on
    case Look(Paint(on)) => effect == None && lit == on
    case Look(Moving) => lit && effect == Some(Restored)
    case Look(Scenic(known, on)) => if known then effect == None && lit == on else lit == s.lit && effect == s.effect
    case Nobody => if d.restingDark then !lit && effect == None else lit == s.lit && effect == s.effect
  }

  /** Settling hands the strip to its owner, and changes nothing but the look. */
  lemma RestoreShows(d: Device, s: Strip)
    ensures var t := Restore(d, s); Shows(d, OwnerOf(s), s, t.lit, t.effect) && t == s.(lit := t.lit, effect := t.effect)
  {
    hide Displayed, SavedLook;
    if OwnerOf(s).Thought? {
      ThoughtShows(d, s);
    } else if OwnerOf(s).Look? || OwnerOf(s).Nobody? {
      SavedShows(d, s);
    }
  }

  lemma ThoughtShows(d: Device, s: Strip)
    requires OwnerOf(s).Thought?
    ensures var t := Displayed(d, s, Thinking, true);
            Shows(d, Thought, s, t.lit, t.effect) && t == s.(lit := t.lit, effect := t.effect)
  {
  }

  lemma SavedShows(d: Device, s: Strip)
    requires OwnerOf(s).Look? || OwnerOf(s).Nobody?
    ensures var t := SavedLook(d, s); Shows(d, OwnerOf(s), s, t.lit, t.effect) && t == s.(lit := t.lit, effect := t.effect)
  {
  }

  /** The frame left on the strip when `s` settles after `a`: the effect that ended
      is stopped, and an idle face the reply left behind may have been painted. */
  function Frame(d: Device, s: Strip, a: Action): Strip {
    match a
    case MusicEnd => s.(effect := None)
    case SetHarness(on) => if !on && s.effect == Some(HarnessMode) then s.(effect := None, lit := false) else s
    case TtsEnd(reply) =>
      s.(effect := None,
         lit := if reply && s.mood == Thinking && !s.sleeping && s.saved.None?
                then match d.look(Idle) case Plain(on) => on case Animated => true case _ => s.lit
                else s.lit)
    case _ => s
  }

  /** The steps that settle the strip: speech or music that ends, a listening cue or
      a pending one that is dropped, a harness that comes or goes, the timer. */
  predicate Settles(s: Strip, a: Action) {
    match a
    case RestoreTimer => true
    case TtsEnd(_) => s.tts
    case MusicEnd => s.music && !s.tts
    case ClearListening => s.mood == Listening
    case ClearPending(restore) => s.pending && restore && (s.mood == Neutral || s.mood == Idle)
    case SetHarness(on) => on != s.harness
    case _ => false
  }

  /** Whatever settles the strip, it then shows what its owner wants. */
  lemma SettlesToOwner(d: Device, s: Strip, a: Action)
    requires Settles(s, a)
    ensures var t := Step(d, s, a); Shows(d, OwnerOf(t), Frame(d, s, a), t.lit, t.effect)
  {
    hide Restore, Shows, TtsEnded;
    match a
    case RestoreTimer => SettleFrame(d, s, s);
    case MusicEnd => SettleFrame(d, Stop(s.(music := false)), Frame(d, s, a));
    case ClearListening => SettleFrame(d, s.(mood := Idle), s);
    case ClearPending(_) => SettleFrame(d, s.(pending := false), s);
    case SetHarness(on) =>
      var t := s.(harness := on);
      SettleFrame(d, if !on && t.effect == Some(HarnessMode) then Cleared(t) else t, Frame(d, s, a));
    case TtsEnd(reply) => SpeechSettles(d, s, reply);
  }

  lemma SettleFrame(d: Device, s: Strip, frame: Strip)
    requires s.lit == frame.lit && s.effect == frame.effect
    ensures var t := Restore(d, s); Shows(d, OwnerOf(t), frame, t.lit, t.effect)
  {
    hide Restore;
    RestoreShows(d, s);
  }

  lemma SpeechSettles(d: Device, s: Strip, reply: bool)
    requires s.tts
    ensures var t := TtsEnded(d, s, reply); Shows(d, OwnerOf(t), Frame(d, s, TtsEnd(reply)), t.lit, t.effect)
  {
    hide Restore, Shows, Displayed, OwnerOf;
    var frame := Frame(d, s, TtsEnd(reply));
    var t := s.(tts := false);
    if s.mood == Thinking && reply {
      var asked := t.(thinking := false);
      var u := Express(d, asked, Idle);
      IdlePainted(d, Begun(asked, Idle));
      assert Stop(u).lit == frame.lit && Stop(u).effect == frame.effect;
      SettleFrame(d, Stop(u), frame);
    } else {
      SettleFrame(d, Stop(t), frame);
    }
  }

  lemma IdlePainted(d: Device, s: Strip)
    requires !s.tts
    ensures var t := Displayed(d, s, Idle, false);
            t.lit == if s.saved.Some? || s.sleeping then s.lit
                     else match d.look(Idle) case Plain(on) => on case Animated => true case _ => s.lit
  {
  }

  // ----- what the other handlers paint, and whose flags they move -----

  /** An emotion paints exactly if a preset gives it a look, an awake device or
      sleep's own asks, nobody speaks, and it is no background face over a saved
      look unless forced. */
  lemma DisplayExactly(d: Device, s: Strip, m: Mood, force: bool)
    ensures var t := Step(d, s, Display(m, force));
            var paints := (s.sleeping ==> m == Sleepy) && !s.tts && (force || (m != Idle && m != Thinking) || s.saved == None);
            t == match d.look(m)
                 case Animated => if paints then s.(lit := true, effect := Some(Emotion(m))) else s
                 case Plain(on) => if paints then s.(lit := on) else s
                 case _ => s
  {
  }

  /** Speech takes the strip of an awake device, music only from silence, and
      sleep's finalization darkens it while the device looks sleepy. */
  lemma SoundsExactly(d: Device, s: Strip)
    ensures Step(d, s, TtsStart) == if s.sleeping then s else s.(tts := true, lit := true, effect := Some(SpeakingWave))
    ensures Step(d, s, MusicStart)
         == if s.sleeping || s.tts || s.music then s else s.(music := true, lit := true, effect := Some(MusicWave))
    ensures Step(d, s, Finalize) == if s.mood == Sleepy then s.(lit := false, effect := None) else s
    ensures s.music && s.tts ==> Step(d, s, MusicEnd) == s.(music := false)
  {
  }

  /** The mute indicator is raised at once if forced, else once, in silence; it
      paints red where it owns the strip of an awake device. */
  lemma MicExactly(d: Device, s: Strip, force: bool)
    ensures var t := Step(d, s, ApplyMic(force));
            var owns := !s.scene && (s.saved.None? || !s.saved.value.Scenic?);
            t == if (force || (!s.micLed && !s.tts && !s.music)) && owns && !s.sleeping
                 then s.(micLed := true, lit := true, effect := Some(MicRed)) else s.(micLed := true)
  {
  }

  /** Dropping it leaves speech and music alone, but for red it forced on them; a
      strip that shows something else settles; red itself gives way to the saved
      look, to darkness, or to the ambient breath. */
  lemma MicDropsExactly(d: Device, s: Strip, force: bool)
    requires s.micLed || force
    ensures var t := Step(d, s, ClearMic(force)); var u := s.(micLed := false);
            t == if s.tts || s.music then (if force && s.effect == Some(MicRed) then u.(effect := None) else u)
                 else if s.effect != Some(MicRed) then Restore(d, u)
                 else if s.saved.Some? then Restore(d, u.(effect := None))
                 else if d.restingDark then u.(effect := None, lit := false)
                 else u.(effect := Some(Ambient), lit := true)
  {
    hide Restore;
  }

  /** A pending cue shows the listening face on an awake, silent device whose face
      is at rest. */
  lemma PendingExactly(d: Device, s: Strip)
    ensures Step(d, s, ShowPending)
         == if !s.sleeping && !s.tts && (s.mood == Neutral || s.mood == Idle)
            then Step(d, s.(pending := true), Display(Listening, true)) else s
  {
    hide Displayed;
  }

  /** What ends nothing repaints nothing. */
  lemma EndsNothing(d: Device, s: Strip, a: Action)
    requires a.TtsEnd? || a.MusicEnd? || a.ClearListening? || a.ClearPending? || a.SetHarness? || a.DismissMic?
             || (a.ClearMic? && !a.force && !s.micLed)
    requires !Settles(s, a)
    ensures Step(d, s, a).lit == s.lit && Step(d, s, a).effect == s.effect
  {
    hide Restore, Displayed, TtsEnded, MusicEnded, PendingCleared, HarnessSet, MicCleared, MicOwns, Express;
    match a
    case TtsEnd(reply) => assert !s.tts && TtsEnded(d, s, reply) == s by { SilentEnd(d, s, reply); }
    case MusicEnd => MusicNothing(d, s);
    case ClearPending(restore) => PendingNothing(d, s, restore);
    case SetHarness(on) => SameHarness(d, s);
    case ClearMic(force) => UnmutedNothing(d, s);
    case _ =>
  }

  lemma SilentEnd(d: Device, s: Strip, reply: bool)
    requires !s.tts
    ensures TtsEnded(d, s, reply) == s
  {
  }

  lemma MusicNothing(d: Device, s: Strip)
    requires !(s.music && !s.tts)
    ensures MusicEnded(d, s).lit == s.lit && MusicEnded(d, s).effect == s.effect
  {
    hide Restore;
  }

  lemma PendingNothing(d: Device, s: Strip, restore: bool)
    requires !(s.pending && restore && (s.mood == Neutral || s.mood == Idle))
    ensures PendingCleared(d, s, restore).lit == s.lit && PendingCleared(d, s, restore).effect == s.effect
  {
    hide Restore;
  }

  lemma SameHarness(d: Device, s: Strip)
    ensures HarnessSet(d, s, s.harness) == s
  {
  }

  lemma UnmutedNothing(d: Device, s: Strip)
    requires !s.micLed
    ensures MicCleared(d, s, false) == s
  {
  }

  /** An emotion request is admitted by an awake device; a sleeping one admits only
      what wakes it or sleep itself. */
  lemma BeginExactly(d: Device, s: Strip, m: Mood)
    ensures Step(d, s, Begin(m))
         == if s.sleeping && m != Sleepy && m != Greeting && m != Stretching then s
            else s.(pending := false, sleeping := m == Sleepy, mood := m, thinking := s.thinking && m == Thinking)
  {
  }

  /** The flags after a step: who speaks, plays, mutes, thinks, waits and works. */
  predicate Flagged(s: Strip, a: Action, t: Strip) {
    var answered := a.TtsEnd? && a.reply && s.tts && s.mood == Thinking;
    var idled := answered && !s.sleeping;
    && t.sleeping == s.sleeping && t.scene == s.scene && t.saved == s.saved
    && (t.tts <==> (s.tts && !a.TtsEnd?) || (a.TtsStart? && !s.sleeping))
    && (t.music <==> (s.music && !a.MusicEnd?) || (a.MusicStart? && !s.sleeping && !s.tts))
    && (t.micLed <==> a.ApplyMic? || (s.micLed && !a.ClearMic? && !a.DismissMic?))
    && (t.harness <==> if a.SetHarness? then a.on else s.harness)
    && (t.thinking <==> s.thinking && !answered)
    && t.mood == (if idled || (a.ClearListening? && s.mood == Listening) then Idle else s.mood)
    && (t.pending <==> (s.pending && !a.ClearPending? && !idled)
                       || (a.ShowPending? && !s.sleeping && !s.tts && (s.mood == Neutral || s.mood == Idle)))
  }

  /** Painting moves no flag. */
  predicate SameFlags(t: Strip, s: Strip) {
    && t.sleeping == s.sleeping && t.mood == s.mood && t.tts == s.tts && t.music == s.music && t.micLed == s.micLed
    && t.scene == s.scene && t.saved == s.saved && t.thinking == s.thinking && t.pending == s.pending
    && t.harness == s.harness
  }

  lemma RestoreSame(d: Device, s: Strip)
    ensures SameFlags(Restore(d, s), s)
  {
    hide Restore, Shows;
    RestoreShows(d, s);
  }

  lemma PaintsOnly(d: Device, s: Strip, m: Mood, force: bool)
    ensures SameFlags(Displayed(d, s, m, force), s)
  {
    assert SameFlags(s, s);
    hide Play, SameFlags;
    PlayedSame(s, Emotion(m), false);
    PlayedSame(s, Emotion(m), true);
  }

  lemma PlayedSame(s: Strip, e: Effect, lit: bool)
    ensures SameFlags(Play(s, e), s) && SameFlags(s.(lit := lit), s)
  {
  }

  lemma PaintedFlags(s: Strip, a: Action, u: Strip, t: Strip)
    requires Flagged(s, a, u) && SameFlags(t, u)
    ensures Flagged(s, a, t)
  {
  }

  lemma SpeechFlags(d: Device, s: Strip, reply: bool)
    ensures Flagged(s, TtsEnd(reply), TtsEnded(d, s, reply))
  {
    hide Restore, Displayed, Flagged;
    if s.tts {
      var t := s.(tts := false);
      if s.mood == Thinking && reply {
        var asked := Begun(t.(thinking := false), Idle);
        AnsweredFlags(s);
        PaintsOnly(d, asked, Idle, false);
        var u := Express(d, t.(thinking := false), Idle);
        assert u == (if s.sleeping then t.(thinking := false) else Displayed(d, asked, Idle, false));
        StoppedSame(u);
        RestoreSame(d, Stop(u));
        SpokenFlags(d, s, asked, u, Restore(d, Stop(u)));
      } else {
        UnansweredFlags(s, reply);
        RestoreSame(d, Stop(t));
        PaintedFlags(s, TtsEnd(reply), Stop(t), Restore(d, Stop(t)));
      }
    } else {
      SilentFlags(s, reply);
    }
  }

  lemma SilentFlags(s: Strip, reply: bool)
    requires !s.tts
    ensures Flagged(s, TtsEnd(reply), s)
  {
  }

  lemma AnsweredFlags(s: Strip)
    requires s.tts && s.mood == Thinking
    ensures var t := s.(tts := false).(thinking := false);
            Flagged(s, TtsEnd(true), if s.sleeping then t else Begun(t, Idle))
  {
  }

  lemma UnansweredFlags(s: Strip, reply: bool)
    requires s.tts && !(s.mood == Thinking && reply)
    ensures Flagged(s, TtsEnd(reply), Stop(s.(tts := false)))
  {
  }

  lemma StoppedSame(s: Strip)
    ensures SameFlags(Stop(s), s) && SameFlags(s, s)
  {
  }

  lemma SpokenFlags(d: Device, s: Strip, asked: Strip, u: Strip, t: Strip)
    requires s.tts && s.mood == Thinking && asked == Begun(s.(tts := false).(thinking := false), Idle)
    requires SameFlags(u, if s.sleeping then s.(tts := false).(thinking := false) else asked)
    requires SameFlags(Stop(u), u) && SameFlags(t, Stop(u))
    ensures Flagged(s, TtsEnd(true), t)
  {
    AnsweredFlags(s);
    var v := if s.sleeping then s.(tts := false).(thinking := false) else asked;
    hide Flagged, Begun;
    PaintedFlags(s, TtsEnd(true), v, u);
    PaintedFlags(s, TtsEnd(true), u, Stop(u));
    PaintedFlags(s, TtsEnd(true), Stop(u), t);
  }

  lemma ApplyMicFlags(s: Strip, force: bool)
    ensures Flagged(s, ApplyMic(force), MicApplied(s, force))
  {
    hide Play;
    PlayedSame(s.(micLed := true), MicRed, false);
  }

  lemma ClearMicFlags(d: Device, s: Strip, force: bool)
    ensures Flagged(s, ClearMic(force), MicCleared(d, s, force))
  {
    hide Restore, Play;
    var t := s.(micLed := false);
    RestoreSame(d, t);
    RestoreSame(d, Stop(t));
    PlayedSame(t, Ambient, false);
  }

  lemma PendingFlags(d: Device, s: Strip, restore: bool)
    ensures Flagged(s, ShowPending, PendingShown(d, s))
    ensures Flagged(s, ClearPending(restore), PendingCleared(d, s, restore))
  {
    hide Restore, Displayed;
    PaintsOnly(d, s.(pending := true), Listening, true);
    RestoreSame(d, s.(pending := false));
  }

  lemma FaceFlags(d: Device, s: Strip, m: Mood, force: bool)
    ensures Flagged(s, Display(m, force), Displayed(d, s, m, force))
  {
    hide Displayed;
    PaintsOnly(d, s, m, force);
  }

  lemma TimerFlags(d: Device, s: Strip)
    ensures Flagged(s, RestoreTimer, Restore(d, s))
  {
    hide Restore;
    RestoreSame(d, s);
  }

  lemma ListeningFlags(d: Device, s: Strip)
    ensures Flagged(s, ClearListening, Step(d, s, ClearListening))
  {
    hide Restore;
    RestoreSame(d, s.(mood := Idle));
  }

  lemma MusicFlags(d: Device, s: Strip)
    ensures Flagged(s, MusicEnd, MusicEnded(d, s))
  {
    hide Restore;
    RestoreSame(d, Stop(s.(music := false)));
  }

  lemma StartFlags(s: Strip)
    ensures Flagged(s, MusicStart, MusicStarted(s)) && Flagged(s, TtsStart, TtsStarted(s))
  {
  }

  lemma FinalizeFlags(s: Strip)
    ensures Flagged(s, Finalize, Finalized(s))
  {
    assert Flagged(s, Finalize, s);
    ClearedSame(s);
    hide Flagged, SameFlags, Cleared;
    if s.mood == Sleepy {
      PaintedFlags(s, Finalize, s, Cleared(s));
    }
  }

  lemma ClearedSame(s: Strip)
    ensures SameFlags(Cleared(s), s)
  {
  }

  lemma DismissFlags(s: Strip)
    ensures Flagged(s, DismissMic, s.(micLed := false))
  {
  }

  lemma HarnessFlags(d: Device, s: Strip, on: bool)
    ensures Flagged(s, SetHarness(on), HarnessSet(d, s, on))
  {
    hide Restore;
    var t := s.(harness := on);
    RestoreSame(d, t);
    RestoreSame(d, Cleared(t));
  }

  lemma StepFlags(d: Device, s: Strip, a: Action)
    requires !a.Begin?
    ensures Flagged(s, a, Step(d, s, a))
  {
    hide Flagged, TtsEnded, MicApplied, MicCleared, Displayed, Restore, PendingShown, PendingCleared, HarnessSet,
      TtsStarted, MusicStarted, MusicEnded, Finalized;
    match a
    case TtsEnd(reply) => SpeechFlags(d, s, reply);
    case ApplyMic(force) => ApplyMicFlags(s, force);
    case ClearMic(force) => ClearMicFlags(d, s, force);
    case ShowPending => PendingFlags(d, s, false);
    case ClearPending(restore) => PendingFlags(d, s, restore);
    case ClearListening => ListeningFlags(d, s);
    case RestoreTimer => TimerFlags(d, s);
    case Display(m, force) => FaceFlags(d, s, m, force);
    case TtsStart => StartFlags(s);
    case MusicStart => StartFlags(s);
    case MusicEnd => MusicFlags(d, s);
    case Finalize => FinalizeFlags(s);
    case DismissMic => DismissFlags(s);
    case SetHarness(on) => HarnessFlags(d, s, on);
  }

  // ----- the module state -----

  class LedState {
    const device: Device
    var sleeping: bool
    var mood: Mood
    var lit: bool
    var effect: Option<Effect>
    var tts: bool
    var music: bool
    var micLed: bool
    var scene: bool
    var saved: Option<Saved>
    var thinking: bool
    var pending: bool
    var harness: bool

    ghost function View(): Strip
      reads this
    {
      Strip(sleeping, mood, lit, effect, tts, music, micLed, scene, saved, thinking, pending, harness)
    }

    constructor (device: Device)
      ensures this.device == device
      ensures View() == Strip(false, Neutral, false, None, false, false, false, false, None, false, false, false)
    {
      this.device := device;
      sleeping, mood, lit, effect, tts, music := false, Neutral, false, None, false, false;
      micLed, scene, saved, thinking, pending, harness := false, false, None, false, false, false;
    }

    predicate MicOwnsStrip()
      reads this
      ensures MicOwnsStrip() == MicOwns(View())
    {
      micLed && !scene && !(saved.Some? && saved.value.Scenic?)
    }

    method StopEffect()
      modifies this`effect
      ensures View() == Stop(old(View()))
    {
      effect := None;
    }

    method Clear()
      modifies this`effect, this`lit
      ensures View() == Cleared(old(View()))
    {
      StopEffect();
      lit := false;
    }

    method StartEffect(e: Effect)
      modifies this`effect, this`lit
      ensures View() == Play(old(View()), e)
    {
      StopEffect();
      effect := Some(e);
      lit := true;
    }

    method StartMicMuted()
      modifies this`effect, this`lit
      ensures View() == MicMuted(old(View()))
    {
      if !sleeping && MicOwnsStrip() {
        StartEffect(MicRed);
      }
    }

    method DisplayEmotion(m: Mood, force: bool)
      modifies this`effect, this`lit
      ensures View() == Step(device, old(View()), Display(m, force))
    {
      var look := device.look(m);
      if look.Missing? || (sleeping && m != Sleepy) || tts || (!force && Background(m) && saved.Some?) {
        return;
      }
      match look {
        case Animated => StartEffect(Emotion(m));
        case Plain(on) => lit := on;
        case _ =>
      }
    }

    method PaintSaved()
      modifies this`effect, this`lit
      ensures View() == SavedLook(device, old(View()))
    {
      match saved {
        case None =>
          if device.restingDark {
            Clear();
          }
        case Some(Solid(on)) => StopEffect(); lit := on;
        case Some(Paint(on)) => StopEffect(); lit := on;
        case Some(Moving) => StartEffect(Restored);
        case Some(Scenic(known, on)) =>
          if known {
            StopEffect();
            lit := on;
          }
      }
    }

    method RestoreUserLed()
      modifies this`effect, this`lit
      ensures View() == Step(device, old(View()), RestoreTimer)
    {
      if sleeping {
        Clear();
      } else if tts || music {
        return;
      } else if MicOwnsStrip() {
        StartMicMuted();
      } else if thinking {
        DisplayEmotion(Thinking, true);
      } else if harness {
        if effect != Some(HarnessMode) {
          StartEffect(HarnessMode);
        }
      } else {
        PaintSaved();
      }
    }

    method FinalizeSleep()
      modifies this`effect, this`lit
      ensures View() == Step(device, old(View()), Finalize)
    {
      if mood == Sleepy {
        Clear();
      }
    }

    method OnTtsStart()
      modifies this
      ensures View() == Step(device, old(View()), TtsStart)
    {
      if !sleeping {
        tts := true;
        StartEffect(SpeakingWave);
      }
    }

    method OnMusicStart()
      modifies this
      ensures View() == Step(device, old(View()), MusicStart)
    {
      if sleeping || tts || music {
        return;
      }
      music := true;
      StartEffect(MusicWave);
    }

    method OnMusicEnd()
      modifies this
      ensures View() == Step(device, old(View()), MusicEnd)
    {
      hide Restore;
      if !music {
        return;
      }
      music := false;
      if !tts {
        StopEffect();
        RestoreUserLed();
      }
    }

    method ApplyMicMuted(force: bool)
      modifies this
      ensures View() == Step(device, old(View()), ApplyMic(force))
    {
      if micLed && !force {
        return;
      }
      micLed := true;
      if force || !(tts || music) {
        StartMicMuted();
      }
    }

    /** Nothing is saved: rest dark, or on the ambient look. */
    method SettleWithoutLook()
      modifies this`effect, this`lit
      ensures View() == if device.restingDark then Cleared(old(View())) else Play(old(View()), Ambient)
    {
      if device.restingDark {
        Clear();
      } else {
        StartEffect(Ambient);
      }
    }

    method ClearMicMuted(force: bool)
      modifies this
      ensures View() == Step(device, old(View()), ClearMic(force))
    {
      hide Restore;
      if !micLed && !force {
        return;
      }
      micLed := false;
      if tts || music {
        if force && effect == Some(MicRed) {
          StopEffect();
        }
      } else if effect == Some(MicRed) && saved.None? {
        SettleWithoutLook();
      } else {
        if effect == Some(MicRed) {
          StopEffect();
        }
        RestoreUserLed();
      }
    }
  }
}
