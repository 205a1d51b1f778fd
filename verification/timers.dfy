/**
 The four condition timers. Each accumulates elapsed frame time while its raw
 condition holds and drops straight back to zero when it does not; an alarm
 is raised once a timer is strictly past the configured trigger time. The
 seatbelt alarm has no timer: the sensed boolean is the alarm.
 */
module Timers {
  import opened Types

  datatype ConditionTimers = ConditionTimers(drowsy: real, yawn: real, distract: real, posture: real)

  const Cleared := ConditionTimers(0.0, 0.0, 0.0, 0.0)

  /** Raw (untimed) conditions of one frame. */
  predicate EyesClosed(s: Signals, cfg: DetectionConfig) {
    s.ear < cfg.earThreshold
  }

  predicate MouthOpen(s: Signals, cfg: DetectionConfig) {
    s.mar > cfg.marThreshold
  }

  predicate HeadTurned(s: Signals, cfg: DetectionConfig) {
    Abs(s.yaw) > cfg.yawThreshold
  }

  predicate HeadDown(s: Signals, cfg: DetectionConfig) {
    Abs(s.pitch) > cfg.pitchThreshold
  }

  /** Increment-or-reset: the one rule every timer follows. */
  function Accumulate(t: real, holds: bool, dt: real): real {
    if holds then t + dt else 0.0
  }

  predicate NonNegative(ts: ConditionTimers) {
    ts.drowsy >= 0.0 && ts.yawn >= 0.0 && ts.distract >= 0.0 && ts.posture >= 0.0
  }

  /** Advances all four timers by one frame of `dt` seconds. */
  function Tick(ts: ConditionTimers, s: Signals, cfg: DetectionConfig, dt: real): (r: ConditionTimers)
    ensures r.drowsy == if s.ear < cfg.earThreshold then ts.drowsy + dt else 0.0
    ensures r.yawn == if s.mar > cfg.marThreshold then ts.yawn + dt else 0.0
    ensures r.distract == if Abs(s.yaw) > cfg.yawThreshold then ts.distract + dt else 0.0
    ensures r.posture == if Abs(s.pitch) > cfg.pitchThreshold then ts.posture + dt else 0.0
    ensures NonNegative(ts) && dt >= 0.0 ==> NonNegative(r)
  {
    ConditionTimers(
      Accumulate(ts.drowsy, EyesClosed(s, cfg), dt),
      Accumulate(ts.yawn, MouthOpen(s, cfg), dt),
      Accumulate(ts.distract, HeadTurned(s, cfg), dt),
      Accumulate(ts.posture, HeadDown(s, cfg), dt))
  }

  /** A timer's alarm: strictly past the trigger time. */
  predicate Fires(t: real, timeToTrigger: real) {
    t > timeToTrigger
  }

  /** The five alarm flags of a frame from its timers and the seatbelt sensor. */
  function AlarmFlags(ts: ConditionTimers, cfg: DetectionConfig, seatbeltOff: bool): (r: Flags)
    ensures r.isDrowsy <==> ts.drowsy > cfg.timeToTrigger
    ensures r.isYawning <==> ts.yawn > cfg.timeToTrigger
    ensures r.isDistracted <==> ts.distract > cfg.timeToTrigger
    ensures r.isAsleepPosture <==> ts.posture > cfg.timeToTrigger
    ensures r.isSeatbeltOff == seatbeltOff
  {
    Flags(
      Fires(ts.drowsy, cfg.timeToTrigger),
      Fires(ts.yawn, cfg.timeToTrigger),
      Fires(ts.distract, cfg.timeToTrigger),
      Fires(ts.posture, cfg.timeToTrigger),
      seatbeltOff)
  }

  /** A timer after `k` consecutive frames of `dt` seconds during which its condition held. */
  function Sustain(t: real, dt: real, k: nat): real {
    if k == 0 then t else Accumulate(Sustain(t, dt, k - 1), true, dt)
  }

  /** A condition held for k frames adds exactly k frames' worth of time. */
  lemma {:induction false} SustainAddsUp(t: real, dt: real, k: nat)
    ensures Sustain(t, dt, k) == t + (k as real) * dt
  {
    if k > 0 {
      SustainAddsUp(t, dt, k - 1);
    }
  }

  /** With non-negative frame times, a sustained condition never un-fires. */
  lemma SustainedAlarmStays(dt: real, timeToTrigger: real, j: nat, k: nat)
    requires dt >= 0.0
    requires j <= k
    requires Fires(Sustain(0.0, dt, j), timeToTrigger)
    ensures Fires(Sustain(0.0, dt, k), timeToTrigger)
  {
    SustainAddsUp(0.0, dt, j);
    SustainAddsUp(0.0, dt, k);
    assert (j as real) * dt <= (k as real) * dt by {
      assert ((k - j) as real) * dt >= 0.0;
    }
  }

  /** With 0.2-second frames and a 1.5-second trigger, a closure starting from
      a cleared timer raises its alarm on the eighth frame and not before. */
  lemma EighthFrameAlarm(k: nat)
    ensures Fires(Sustain(0.0, 0.2, k), 1.5) <==> k >= 8
  {
    SustainAddsUp(0.0, 0.2, k);
  }
}
