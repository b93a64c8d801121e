/** The timed button recognizer: debounce, multi-click bursts, hold tiers.
    Times are milliseconds. */
module TouchButton {
  import opened Common

  /** Quiet time after the last short release that ends a burst. */
  const DOUBLE_CLICK_WINDOW := 400
  const SLEEP_HOLD := 2000
  const LONG_PRESS := 5000

  datatype Kind = Invalidate | Press | Release | Hold | Single | HoldTier | Cue | Triple | Swipe

  datatype Event = Event(kind: Kind, id: nat, count: nat, held: int, direction: int)

  function Plain(kind: Kind, id: nat): Event {
    Event(kind, id, 0, 0, 0)
  }

  datatype Config = Config(delay: nat, thresholds: seq<int>, multiClick: bool, holdOnThreshold: bool)

  type ButtonConfig = c: Config | c.thresholds != [] witness Config(0, [SLEEP_HOLD, LONG_PRESS], true, false)

  /** The physical-control button, and the one used in harness mode. */
  function StandardButton(delay: nat): ButtonConfig {
    Config(delay, [SLEEP_HOLD, LONG_PRESS], true, false)
  }

  function HarnessButton(delay: nat): ButtonConfig {
    Config(delay, [2000], false, true)
  }

  datatype State = State(
    stable: Option<bool>,
    candidate: bool,
    since: int,
    armed: bool,
    pressStart: Option<int>,
    clicks: nat,
    deadline: Option<int>,
    id: nat,
    tier: nat)

  const INITIAL := State(None, false, 0, false, None, 0, None, 0, 0)

  /** How many thresholds a hold of this length has reached. */
  function Tier(thresholds: seq<int>, held: int): nat {
    if thresholds == [] then 0
    else (if held >= thresholds[0] then 1 else 0) + Tier(thresholds[1..], held)
  }

  lemma {:induction false} TierMonotone(thresholds: seq<int>, held: int, longer: int)
    requires held <= longer
    ensures Tier(thresholds, held) <= Tier(thresholds, longer)
  {
    if thresholds != [] {
      TierMonotone(thresholds[1..], held, longer);
    }
  }

  /** The tier is the number of thresholds the held time has reached. */
  lemma {:induction false} TierCounts(thresholds: seq<int>, held: int)
    ensures Tier(thresholds, held) == |set i | 0 <= i < |thresholds| && held >= thresholds[i]|
  {
    var reached := set i | 0 <= i < |thresholds| && held >= thresholds[i];
    if thresholds == [] {
      assert reached == {};
    } else {
      var front, last := thresholds[..|thresholds| - 1], |thresholds| - 1;
      var before := set i | 0 <= i < |front| && held >= front[i];
      assert reached == before + if held >= thresholds[last] then {last} else {};
      TierCounts(front, held);
      assert front + [thresholds[last]] == thresholds;
      TierLast(front, thresholds[last], held);
    }
  }

  lemma {:induction false} TierLast(front: seq<int>, last: int, held: int)
    ensures Tier(front + [last], held) == Tier(front, held) + if held >= last then 1 else 0
  {
    if front != [] {
      TierLast(front[1..], last, held);
      assert (front + [last])[1..] == front[1..] + [last];
    }
  }

  // ----- one sample -----

  function Seed(s: State, touched: bool, now: int): State {
    s.(stable := Some(touched), candidate := touched, since := now, armed := !touched)
  }

  /** A raw change restarts the debounce clock; a raw touch also cancels queued outcomes. */
  function Candidate(s: State, touched: bool, now: int): (State, seq<Event>) {
    if touched == s.candidate then (s, [])
    else (s.(candidate := touched, since := now), if touched then [Plain(Invalidate, s.id)] else [])
  }

  function AcceptPress(s: State): (State, seq<Event>) {
    var late := s.deadline.Some? && s.since >= s.deadline.value;
    var ready := if late then s.(clicks := 0, deadline := None) else s;
    var id := if ready.clicks == 0 then ready.id + 1 else ready.id;
    (ready.(id := id, pressStart := Some(ready.since), tier := 0), [Event(Press, id, ready.clicks, 0, 0)])
  }

  function AcceptRelease(cfg: ButtonConfig, s: State, now: int): (State, seq<Event>) {
    if s.pressStart.None? then (s.(armed := true), [])
    else
      var held := s.since - s.pressStart.value;
      var release := [Event(Release, s.id, s.clicks, held, 0)];
      if held >= cfg.thresholds[0] then
        (s.(clicks := 0, deadline := None, pressStart := None, armed := true),
         release + [Plain(Invalidate, s.id), Event(Hold, s.id, 0, held, 0)])
      else
        var clicks := (if cfg.multiClick then s.clicks else 0) + 1;
        (s.(clicks := if cfg.multiClick then clicks else 0,
            deadline := if cfg.multiClick then Some(now + DOUBLE_CLICK_WINDOW) else None,
            pressStart := None, armed := true),
         release + if clicks == 1 then [Event(Single, s.id, clicks, held, 0)] else [])
  }

  function Accept(cfg: ButtonConfig, s: State, touched: bool, now: int): (State, seq<Event>) {
    if s.stable == Some(touched) || now - s.since < cfg.delay then (s, [])
    else
      var accepted := s.(stable := Some(touched));
      if touched then (if s.armed then AcceptPress(accepted) else (accepted, []))
      else AcceptRelease(cfg, accepted, now)
  }

  function Cancelled(s: State): State {
    s.(pressStart := None, clicks := 0, deadline := None, armed := false)
  }

  function Tiers(cfg: ButtonConfig, s: State, touched: bool, now: int): (State, seq<Event>) {
    if s.pressStart.None? then (s, [])
    else
      var held := (if touched then now else s.since) - s.pressStart.value;
      var tier := Tier(cfg.thresholds, held);
      if tier <= s.tier then (s, [])
      else if cfg.holdOnThreshold then
        (Cancelled(s.(tier := tier)),
         [Event(HoldTier, s.id, tier, held, 0), Plain(Invalidate, s.id), Event(Hold, s.id, 0, held, 0)])
      else (s.(tier := tier), [Event(HoldTier, s.id, tier, held, 0)])
  }

  function Resolve(s: State, touched: bool, now: int): (State, seq<Event>) {
    if touched || s.stable != Some(false) || s.deadline.None? || now < s.deadline.value then (s, [])
    else (s.(clicks := 0, deadline := None), [Event(if s.clicks == 3 then Triple else Cue, s.id, s.clicks, 0, 0)])
  }

  function Step(cfg: ButtonConfig, s: State, touched: bool, now: int): (State, seq<Event>) {
    if s.stable.None? then (Seed(s, touched, now), [])
    else
      var (s1, e1) := Candidate(s, touched, now);
      var (s2, e2) := Accept(cfg, s1, touched, now);
      var (s3, e3) := Tiers(cfg, s2, touched, now);
      var (s4, e4) := Resolve(s3, touched, now);
      (s4, e1 + e2 + e3 + e4)
  }

  // ----- the recognizer object -----

  class GestureRecognizer {
    const cfg: ButtonConfig
    var stable: Option<bool>
    var candidate: bool
    var since: int
    var armed: bool
    var pressStart: Option<int>
    var clicks: nat
    var deadline: Option<int>
    var id: nat
    var tier: nat

    ghost function View(): State
      reads this
    {
      State(stable, candidate, since, armed, pressStart, clicks, deadline, id, tier)
    }

    constructor (cfg: ButtonConfig)
      ensures this.cfg == cfg && View() == INITIAL
    {
      this.cfg := cfg;
      stable, candidate, since, armed := None, false, 0, false;
      pressStart, clicks, deadline, id, tier := None, 0, None, 0, 0;
    }

    method Cancel()
      modifies this
      ensures View() == Cancelled(old(View()))
    {
      pressStart := None;
      clicks := 0;
      deadline := None;
      armed := false;
    }

    method AcceptEdge(touched: bool, now: int) returns (events: seq<Event>)
      requires stable.Some?
      modifies this
      ensures (View(), events) == Accept(cfg, old(View()), touched, now)
    {
      events := [];
      if Some(touched) == stable || now - since < cfg.delay {
        return;
      }
      stable := Some(touched);
      if touched && armed {
        if deadline.Some? && since >= deadline.value {
          clicks := 0;
          deadline := None;
        }
        if clicks == 0 {
          id := id + 1;
        }
        pressStart := Some(since);
        tier := 0;
        events := [Event(Press, id, clicks, 0, 0)];
      } else if !touched {
        if pressStart.Some? {
          var held := since - pressStart.value;
          events := [Event(Release, id, clicks, held, 0)];
          assert events + [] == events;
          if held >= cfg.thresholds[0] {
            clicks := 0;
            deadline := None;
            events := events + [Plain(Invalidate, id), Event(Hold, id, 0, held, 0)];
          } else {
            if !cfg.multiClick {
              clicks := 0;
            }
            clicks := clicks + 1;
            if clicks == 1 {
              events := events + [Event(Single, id, clicks, held, 0)];
            }
            deadline := if cfg.multiClick then Some(now + DOUBLE_CLICK_WINDOW) else None;
            if !cfg.multiClick {
              clicks := 0;
            }
          }
          pressStart := None;
        }
        armed := true;
      }
    }

    method Update(touched: bool, now: int) returns (events: seq<Event>)
      modifies this
      ensures (View(), events) == Step(cfg, old(View()), touched, now)
    {
      hide Accept;
      events := [];
      if stable.None? {
        stable, candidate, since, armed := Some(touched), touched, now, !touched;
        return;
      }
      var raw, held, resolved: seq<Event> := [], [], [];
      if touched != candidate {
        candidate := touched;
        since := now;
        if touched {
          raw := [Plain(Invalidate, id)];
        }
      }
      var edge := AcceptEdge(touched, now);
      if pressStart.Some? {
        var duration := (if touched then now else since) - pressStart.value;
        var reached := Tier(cfg.thresholds, duration);
        if reached > tier {
          tier := reached;
          held := [Event(HoldTier, id, reached, duration, 0)];
          if cfg.holdOnThreshold {
            held := [Event(HoldTier, id, reached, duration, 0), Plain(Invalidate, id), Event(Hold, id, 0, duration, 0)];
            Cancel();
          }
        }
      }
      if !touched && stable == Some(false) && deadline.Some? && now >= deadline.value {
        resolved := [Event(if clicks == 3 then Triple else Cue, id, clicks, 0, 0)];
        clicks := 0;
        deadline := None;
      }
      events := raw + edge + held + resolved;
    }
  }
}
