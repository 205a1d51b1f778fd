/**
 The per-frame detection engine. One call of `Frame` is one animation-frame
 callback: it measures the frame's elapsed time, and if a face was detected it
 runs `Step`, which updates the rolling windows, the condition timers, the
 alarm flags, the critical timer and dispatch bookkeeping, and produces the
 frame's report (snapshot, logged events, banner message, sound on/off).
 All engine state is threaded explicitly through `EngineState`.
 */
module Engine {
  import opened Types
  import opened Wrappers
  import opened Timers
  import opened RollingWindow
  import opened Alarms
  import opened Sos

  datatype EngineState = EngineState(
    lastTime: real,            // animation-frame time of the previous callback, in ms
    timers: ConditionTimers,   // the four condition timers, in seconds
    critical: real,            // the critical (escalation) timer, in seconds
    lastSms: int,              // wall-clock ms of the last dispatch
    blinks: seq<int>,          // blink timestamps of the rolling window
    yawns: seq<int>,           // yawn timestamps of the rolling window
    wasClosed: bool,           // eyes closed at the previous frame with a face
    wasYawning: bool,          // mouth open at the previous frame with a face
    prev: Flags                // alarm flags of the previous frame with a face
  )

  /** The state when the page loads: every clock at zero, nothing recorded. */
  const Initial := EngineState(0.0, Cleared, 0.0, 0, [], [], false, false, AllClear)

  /** One callback's inputs: the animation-frame time (ms), the wall clock (ms),
      the signals of the detected face if there is one, and the seatbelt sensor. */
  datatype FrameInput = FrameInput(time: real, now: int, face: Option<Signals>, seatbeltOff: bool)

  /** What a frame with a face hands to the outside: the snapshot, the events
      to append to history, the banner message, whether the alarm sound should
      play, and the emergency message to send, if any. */
  datatype Report = Report(
    state: DetectionState,
    events: seq<HistoryEvent>,
    alert: Option<string>,
    alarmOn: bool,
    dispatch: Option<SosDispatch>
  )

  datatype FrameResult = FrameResult(engine: EngineState, report: Option<Report>)

  /** The outcome of a frame with a face, which always reports. */
  datatype Stepped = Stepped(engine: EngineState, report: Report)

  /** Timestamps a frame's event types with the frame's wall-clock time. */
  function Stamp(kinds: seq<EventType>, now: int): (r: seq<HistoryEvent>)
    ensures |r| == |kinds|
    ensures forall i :: 0 <= i < |r| ==> r[i] == HistoryEvent(kinds[i], now)
  {
    seq(|kinds|, i requires 0 <= i < |kinds| => HistoryEvent(kinds[i], now))
  }

  /** The analytics half of a frame: both rolling windows after this frame,
      the observations that the next frame's edges are measured against, and
      the stress score. */
  datatype Analytics = Analytics(blinks: seq<int>, yawns: seq<int>, closed: bool, mouthOpen: bool, stress: int)

  function Analyze(e: EngineState, cfg: DetectionConfig, s: Signals, now: int): (a: Analytics)
    ensures a.closed == (s.ear < cfg.earThreshold) && a.mouthOpen == (s.mar > cfg.marThreshold)
    ensures forall t :: multiset(a.blinks)[t] ==
                          if t > now - WindowMs
                          then multiset(e.blinks)[t] + (if t == now && s.ear < cfg.earThreshold && !e.wasClosed then 1 else 0)
                          else 0
    ensures forall t :: multiset(a.yawns)[t] ==
                          if t > now - WindowMs
                          then multiset(e.yawns)[t] + (if t == now && s.mar > cfg.marThreshold && !e.wasYawning then 1 else 0)
                          else 0
    ensures Ready(e.blinks, now) ==> WindowInv(a.blinks, now)
    ensures Ready(e.yawns, now) ==> WindowInv(a.yawns, now)
    ensures 0 <= a.stress <= 100
    ensures a.stress == Min(100, 15 * |a.yawns| + (3 * |a.blinks| + 1) / 2)
  {
    var closed := s.ear < cfg.earThreshold;
    var mouthOpen := s.mar > cfg.marThreshold;
    var blinks := UpdateWindow(e.blinks, e.wasClosed, closed, now);
    var yawns := UpdateWindow(e.yawns, e.wasYawning, mouthOpen, now);
    Analytics(blinks, yawns, closed, mouthOpen, StressLevel(|blinks|, |yawns|))
  }

  /** The escalation half of a frame: the new critical timer and the outcome
      of a dispatch request, if the frame made one. */
  datatype Escalated = Escalated(critical: real, sos: SosStep)

  function EscalateFrame(e: EngineState, ecfg: EmergencyConfig, flags: Flags, dt: real, now: int): (x: Escalated)
    ensures x.critical == if Critical(flags, ecfg) && e.critical + dt <= EscalationSeconds then e.critical + dt else 0.0
    ensures x.critical <= EscalationSeconds
    ensures e.critical >= 0.0 && dt >= 0.0 ==> x.critical >= 0.0
    ensures x.sos.dispatch.Some? <==>
      && Critical(flags, ecfg)
      && e.critical + dt > EscalationSeconds
      && ((now - e.lastSms) as real) >= ecfg.cooldown * 1000.0
    ensures x.sos.events == if x.sos.dispatch.Some? then [HistoryEvent(EventType.Sos, now)] else []
    ensures x.sos.lastSms == if x.sos.dispatch.Some? then now else e.lastSms
    ensures x.sos.dispatch.Some? ==> x.sos.dispatch.value == SosDispatch(DigitsOnly(ecfg.contactNumber), EmergencyText)
  {
    var esc := Escalate(e.critical, Critical(flags, ecfg), dt);
    var sos := if esc.fire then TriggerSos(e.lastSms, ecfg, now) else SosStep(e.lastSms, [], None);
    Escalated(esc.timer, sos)
  }

  /** One frame with a detected face, `dt` seconds after the previous callback. */
  function Step(e: EngineState, cfg: DetectionConfig, ecfg: EmergencyConfig, s: Signals,
                seatbeltOff: bool, dt: real, now: int): (r: Stepped)
    ensures r.engine.lastTime == e.lastTime
    // condition timers: increment while the raw condition holds, reset otherwise
    ensures r.engine.timers.drowsy == if s.ear < cfg.earThreshold then e.timers.drowsy + dt else 0.0
    ensures r.engine.timers.yawn == if s.mar > cfg.marThreshold then e.timers.yawn + dt else 0.0
    ensures r.engine.timers.distract == if Abs(s.yaw) > cfg.yawThreshold then e.timers.distract + dt else 0.0
    ensures r.engine.timers.posture == if Abs(s.pitch) > cfg.pitchThreshold then e.timers.posture + dt else 0.0
    // alarm flags: strictly past the trigger time; the seatbelt flag is the sensor
    ensures var f := r.report.state.flags;
      && (f.isDrowsy <==> r.engine.timers.drowsy > cfg.timeToTrigger)
      && (f.isYawning <==> r.engine.timers.yawn > cfg.timeToTrigger)
      && (f.isDistracted <==> r.engine.timers.distract > cfg.timeToTrigger)
      && (f.isAsleepPosture <==> r.engine.timers.posture > cfg.timeToTrigger)
      && f.isSeatbeltOff == seatbeltOff
    // rolling windows: each takes the frame's rising edge and drops what is a
    // minute old, as `UpdateWindow` states; the edge observations are kept
    ensures r.engine.wasClosed == (s.ear < cfg.earThreshold)
    ensures r.engine.wasYawning == (s.mar > cfg.marThreshold)
    ensures r.engine.blinks == UpdateWindow(e.blinks, e.wasClosed, s.ear < cfg.earThreshold, now)
    ensures r.engine.yawns == UpdateWindow(e.yawns, e.wasYawning, s.mar > cfg.marThreshold, now)
    ensures r.report.state.blinkRate == |r.engine.blinks|
    ensures r.report.state.yawnRate == |r.engine.yawns|
    ensures var st := r.report.state;
      st.ear == s.ear && st.mar == s.mar && st.yaw == s.yaw && st.pitch == s.pitch
    ensures 0 <= r.report.state.stressLevel <= 100
    // the previous flags are replaced wholesale; logging and escalation are
    // stated on `StepLogs` and `StepEscalates`
    ensures r.engine.prev == r.report.state.flags
    // banner and sound: the banner is the highest-priority active alarm's message
    ensures r.report.alert == AlertMessage(r.engine.prev)
    ensures r.report.alert.None? <==> !r.engine.prev.Any()
    ensures r.report.alarmOn <==> r.engine.prev.Any()
  {
    var a := Analyze(e, cfg, s, now);
    var timers := Tick(e.timers, s, cfg, dt);
    var flags := AlarmFlags(timers, cfg, seatbeltOff);
    var x := EscalateFrame(e, ecfg, flags, dt, now);
    var edges := RisingEdges(flags, e.prev);
    var state := DetectionState(flags, s.ear, s.mar, s.yaw, s.pitch, |a.blinks|, |a.yawns|, a.stress);
    Stepped(
      EngineState(e.lastTime, timers, x.critical, x.sos.lastSms, a.blinks, a.yawns, a.closed, a.mouthOpen, flags),
      Report(state, x.sos.events + Stamp(edges, now), AlertMessage(flags), flags.Any(), x.sos.dispatch))
  }

  /** The history a frame with a face logs: each alarm that switched on at
      this frame once, `sos` once if it dispatched, all stamped with its
      wall-clock time. */
  lemma StepLogs(e: EngineState, cfg: DetectionConfig, ecfg: EmergencyConfig, s: Signals,
                 seatbeltOff: bool, dt: real, now: int)
    ensures var r := Step(e, cfg, ecfg, s, seatbeltOff, dt, now);
      LogsExactly(r.report.events, r.engine.prev, e.prev, r.report.dispatch.Some?, now)
  {
    var flags := AlarmFlags(Tick(e.timers, s, cfg, dt), cfg, seatbeltOff);
    var x := EscalateFrame(e, ecfg, flags, dt, now);
    StepEvents(x.sos.events, x.sos.dispatch.Some?, RisingEdges(flags, e.prev), flags, e.prev, now);
  }

  /** Escalation within a frame with a face: the critical timer runs while the
      driver is drowsy or slumped and emergencies are on, and restarts past five
      seconds or when that stops; a dispatch goes out only when it restarts that
      way and the cooldown has run out, and it goes to the contact's digits. */
  lemma StepEscalates(e: EngineState, cfg: DetectionConfig, ecfg: EmergencyConfig, s: Signals,
                      seatbeltOff: bool, dt: real, now: int)
    ensures var r := Step(e, cfg, ecfg, s, seatbeltOff, dt, now);
      && r.engine.critical ==
           (if Critical(r.engine.prev, ecfg) && e.critical + dt <= EscalationSeconds then e.critical + dt else 0.0)
      && r.engine.critical <= EscalationSeconds
      && (e.critical >= 0.0 && dt >= 0.0 ==> r.engine.critical >= 0.0)
      && (r.report.dispatch.Some? <==>
            && Critical(r.engine.prev, ecfg)
            && e.critical + dt > EscalationSeconds
            && ((now - e.lastSms) as real) >= ecfg.cooldown * 1000.0)
      && (r.report.dispatch.Some? ==>
            r.report.dispatch.value == SosDispatch(DigitsOnly(ecfg.contactNumber), EmergencyText))
      && r.engine.lastSms == (if r.report.dispatch.Some? then now else e.lastSms)
  {
  }

  /** Stamping neither adds nor loses an event: a type occurs among the
      stamped events exactly as often as among the types. */
  lemma {:induction false} StampCount(kinds: seq<EventType>, now: int, k: EventType)
    ensures multiset(Stamp(kinds, now))[HistoryEvent(k, now)] == multiset(kinds)[k]
    decreases |kinds|
  {
    if |kinds| > 0 {
      StampCount(kinds[1..], now, k);
      assert Stamp(kinds, now) == [HistoryEvent(kinds[0], now)] + Stamp(kinds[1..], now);
      assert kinds == [kinds[0]] + kinds[1..];
    }
  }

  /** `evs` is exactly what a frame logs: every event carries the frame's
      wall-clock time, each condition whose flag rose from `prev` to `cur` is
      logged once and no other condition is, and `sos` is logged once if the
      frame dispatched and never otherwise. */
  predicate LogsExactly(evs: seq<HistoryEvent>, cur: Flags, prev: Flags, dispatched: bool, now: int) {
    && (forall i :: 0 <= i < |evs| ==> evs[i].timestamp == now)
    && (forall c :: multiset(evs)[HistoryEvent(EventOf(c), now)] == if cur.Get(c) && !prev.Get(c) then 1 else 0)
    && multiset(evs)[HistoryEvent(EventType.Sos, now)] == if dispatched then 1 else 0
  }

  /** The events of a frame, the dispatch event (if any) first and then the
      rising edges, are exactly what the frame should log. */
  lemma StepEvents(sosEvents: seq<HistoryEvent>, dispatched: bool, edges: seq<EventType>, cur: Flags, prev: Flags, now: int)
    requires sosEvents == if dispatched then [HistoryEvent(EventType.Sos, now)] else []
    requires edges == RisingEdges(cur, prev)
    ensures LogsExactly(sosEvents + Stamp(edges, now), cur, prev, dispatched, now)
  {
    EventsStamped(sosEvents, edges, now);
    EventsCounted(sosEvents, edges, cur, prev, now);
  }

  lemma EventsStamped(sosEvents: seq<HistoryEvent>, edges: seq<EventType>, now: int)
    requires sosEvents == [] || sosEvents == [HistoryEvent(EventType.Sos, now)]
    ensures var evs := sosEvents + Stamp(edges, now);
      forall i :: 0 <= i < |evs| ==> evs[i].timestamp == now
  {
    var stamped := Stamp(edges, now);
    var evs := sosEvents + stamped;
    forall i | 0 <= i < |evs|
      ensures evs[i].timestamp == now
    {
      if i >= |sosEvents| {
        assert evs[i] == stamped[i - |sosEvents|];
      }
    }
  }

  lemma EventsCounted(sosEvents: seq<HistoryEvent>, edges: seq<EventType>, cur: Flags, prev: Flags, now: int)
    requires sosEvents == [] || sosEvents == [HistoryEvent(EventType.Sos, now)]
    requires edges == RisingEdges(cur, prev)
    ensures forall c :: multiset(sosEvents + Stamp(edges, now))[HistoryEvent(EventOf(c), now)] ==
                          if cur.Get(c) && !prev.Get(c) then 1 else 0
    ensures multiset(sosEvents + Stamp(edges, now))[HistoryEvent(EventType.Sos, now)] ==
              if sosEvents != [] then 1 else 0
  {
    var stamped := Stamp(edges, now);
    var evs := sosEvents + stamped;
    assert multiset(evs) == multiset(sosEvents) + multiset(stamped);
    forall c
      ensures multiset(evs)[HistoryEvent(EventOf(c), now)] == if cur.Get(c) && !prev.Get(c) then 1 else 0
    {
      assert multiset(sosEvents)[HistoryEvent(EventOf(c), now)] == 0;
      StampCount(edges, now, EventOf(c));
      assert multiset(stamped)[HistoryEvent(EventOf(c), now)] == multiset(edges)[EventOf(c)];
    }
    assert multiset(stamped)[HistoryEvent(EventType.Sos, now)] == 0 by {
      StampCount(edges, now, EventType.Sos);
      assert multiset(edges)[EventType.Sos] == 0;
    }
  }

  /** One animation-frame callback. The frame's elapsed time is measured and the
      frame time stored whether or not a face is seen; a frame without a face
      changes nothing else and reports nothing, so its elapsed time is lost to
      the timers rather than counted or cleared. */
  function Frame(e: EngineState, cfg: DetectionConfig, ecfg: EmergencyConfig, inp: FrameInput): (r: FrameResult)
    ensures r.engine.lastTime == inp.time
    ensures inp.face.None? ==> r.report.None? && r.engine == e.(lastTime := inp.time)
    ensures inp.face.Some? ==> r.report.Some?
    ensures inp.face.Some? ==>
              r.engine.timers == Tick(e.timers, inp.face.value, cfg, (inp.time - e.lastTime) / 1000.0)
  {
    var dt := (inp.time - e.lastTime) / 1000.0;
    var e' := e.(lastTime := inp.time);
    if inp.face.None? then FrameResult(e', None)
    else
      var st := Step(e', cfg, ecfg, inp.face.value, inp.seatbeltOff, dt, inp.now);
      assert st.engine.timers == Tick(e.timers, inp.face.value, cfg, dt);
      FrameResult(st.engine, Some(st.report))
  }

  /** The engine's frame transition, as a value. */
  function Next(cfg: DetectionConfig, ecfg: EmergencyConfig): (EngineState, FrameInput) -> EngineState {
    (x, f) => Frame(x, cfg, ecfg, f).engine
  }

  /** The state after a run of frames under some transition. */
  function RunWith(e: EngineState, next: (EngineState, FrameInput) -> EngineState, frames: seq<FrameInput>): EngineState
    decreases |frames|
  {
    if |frames| == 0 then e
    else RunWith(next(e, frames[0]), next, frames[1..])
  }

  /** The transition `next`, applied to any state at frame `f`, adds the
      frame's elapsed time to the drowsy timer and records the frame time. */
  ghost predicate AddsElapsed(next: (EngineState, FrameInput) -> EngineState, f: FrameInput) {
    forall x :: && next(x, f).timers.drowsy == x.timers.drowsy + (f.time - x.lastTime) / 1000.0
                && next(x, f).lastTime == f.time
  }

  /** Telescoping: if every frame of the run adds its own elapsed time to the
      drowsy timer, the run adds the total elapsed time. */
  lemma {:induction false} ElapsedAccumulates(e: EngineState, next: (EngineState, FrameInput) -> EngineState,
                                              frames: seq<FrameInput>)
    requires |frames| > 0
    requires forall f :: f in frames ==> AddsElapsed(next, f)
    ensures RunWith(e, next, frames).timers.drowsy
      == e.timers.drowsy + (frames[|frames| - 1].time - e.lastTime) / 1000.0
    decreases |frames|
  {
    var rest := frames[1..];
    var e' := next(e, frames[0]);
    assert AddsElapsed(next, frames[0]);
    assert e'.timers.drowsy == e.timers.drowsy + (frames[0].time - e.lastTime) / 1000.0;
    assert e'.lastTime == frames[0].time;
    assert RunWith(e, next, frames) == RunWith(e', next, rest);
    if |rest| == 0 {
      assert RunWith(e', next, rest) == e';
    } else {
      TailOfRun(frames);
      ElapsedAccumulates(e', next, rest);
    }
  }

  /** The frames after the first are frames of the run, and the run ends where they end. */
  lemma TailOfRun(frames: seq<FrameInput>)
    requires |frames| > 1
    ensures frames[1..][|frames| - 2] == frames[|frames| - 1]
    ensures forall f :: f in frames[1..] ==> f in frames
  {
  }

  /** While a face with closed eyes is seen at every frame, the drowsy timer
      grows by exactly the animation-frame time that has passed since the last
      callback before the run, however the frames were spaced. */
  lemma DrowsyTimerTracksElapsed(e: EngineState, cfg: DetectionConfig, ecfg: EmergencyConfig,
                                 frames: seq<FrameInput>)
    requires |frames| > 0
    requires forall i :: 0 <= i < |frames| ==>
      frames[i].face.Some? && frames[i].face.value.ear < cfg.earThreshold
    ensures RunWith(e, Next(cfg, ecfg), frames).timers.drowsy
      == e.timers.drowsy + (frames[|frames| - 1].time - e.lastTime) / 1000.0
  {
    ClosedEyesFrames(cfg, ecfg, frames);
    EngineElapsedAccumulates(e, cfg, ecfg, frames);
  }

  /** The telescoping law at the engine's own transition, stated apart from
      the frames' contents so that the engine's frame need not be unfolded. */
  lemma EngineElapsedAccumulates(e: EngineState, cfg: DetectionConfig, ecfg: EmergencyConfig,
                                 frames: seq<FrameInput>)
    requires |frames| > 0
    requires forall f :: f in frames ==> AddsElapsed(Next(cfg, ecfg), f)
    ensures RunWith(e, Next(cfg, ecfg), frames).timers.drowsy
      == e.timers.drowsy + (frames[|frames| - 1].time - e.lastTime) / 1000.0
  {
    ElapsedAccumulates(e, Next(cfg, ecfg), frames);
  }

  /** Every frame of such a run adds its own elapsed time to the drowsy timer. */
  lemma ClosedEyesFrames(cfg: DetectionConfig, ecfg: EmergencyConfig, frames: seq<FrameInput>)
    requires forall i :: 0 <= i < |frames| ==>
      frames[i].face.Some? && frames[i].face.value.ear < cfg.earThreshold
    ensures forall f :: f in frames ==> AddsElapsed(Next(cfg, ecfg), f)
  {
    forall f | f in frames
      ensures AddsElapsed(Next(cfg, ecfg), f)
    {
      forall x
        ensures Next(cfg, ecfg)(x, f).timers.drowsy == x.timers.drowsy + (f.time - x.lastTime) / 1000.0
        ensures Next(cfg, ecfg)(x, f).lastTime == f.time
      {
        ClosedEyesFrame(x, cfg, ecfg, f);
      }
    }
  }

  /** A single frame of the run above. */
  lemma ClosedEyesFrame(e: EngineState, cfg: DetectionConfig, ecfg: EmergencyConfig, f: FrameInput)
    requires f.face.Some? && f.face.value.ear < cfg.earThreshold
    ensures Frame(e, cfg, ecfg, f).engine.timers.drowsy == e.timers.drowsy + (f.time - e.lastTime) / 1000.0
    ensures Frame(e, cfg, ecfg, f).engine.lastTime == f.time
  {
  }

  /** The frame clock starts at zero and the elapsed time is not clamped, so
      the first frame counts the whole time since the page loaded: a first
      frame with closed eyes later than the trigger time raises the drowsy
      alarm at once. */
  lemma FirstFrameCountsPageAge(cfg: DetectionConfig, ecfg: EmergencyConfig, inp: FrameInput)
    requires inp.face.Some? && inp.face.value.ear < cfg.earThreshold
    ensures var r := Frame(Initial, cfg, ecfg, inp);
      && r.engine.timers.drowsy == inp.time / 1000.0
      && (r.report.value.state.flags.isDrowsy <==> inp.time / 1000.0 > cfg.timeToTrigger)
  {
    ClosedEyesFrame(Initial, cfg, ecfg, inp);
  }

  /** What holds between frames, given a wall clock that has reached `clock`. */
  ghost predicate Inv(e: EngineState, clock: int) {
    && Sorted(e.blinks) && (forall i :: 0 <= i < |e.blinks| ==> e.blinks[i] <= clock)
    && Sorted(e.yawns) && (forall i :: 0 <= i < |e.yawns| ==> e.yawns[i] <= clock)
    && NonNegative(e.timers)
    && 0.0 <= e.critical <= EscalationSeconds
  }

  lemma InitialInv()
    ensures Inv(Initial, 0)
  {
  }

  /** Every frame keeps the invariant, provided neither clock runs backwards;
      after a frame with a face both windows hold exactly the last minute. */
  lemma FrameKeepsInv(e: EngineState, cfg: DetectionConfig, ecfg: EmergencyConfig, inp: FrameInput, clock: int)
    requires Inv(e, clock)
    requires clock <= inp.now
    requires e.lastTime <= inp.time
    ensures Inv(Frame(e, cfg, ecfg, inp).engine, inp.now)
    ensures inp.face.Some? ==>
      && WindowInv(Frame(e, cfg, ecfg, inp).engine.blinks, inp.now)
      && WindowInv(Frame(e, cfg, ecfg, inp).engine.yawns, inp.now)
  {
    var e' := e.(lastTime := inp.time);
    assert Inv(e', inp.now);
    if inp.face.Some? {
      var dt := (inp.time - e.lastTime) / 1000.0;
      StepKeepsInv(e', cfg, ecfg, inp.face.value, inp.seatbeltOff, dt, inp.now);
    }
  }

  lemma StepKeepsInv(e: EngineState, cfg: DetectionConfig, ecfg: EmergencyConfig, s: Signals,
                     seatbeltOff: bool, dt: real, now: int)
    requires Inv(e, now)
    requires dt >= 0.0
    ensures var r := Step(e, cfg, ecfg, s, seatbeltOff, dt, now).engine;
      Inv(r, now) && WindowInv(r.blinks, now) && WindowInv(r.yawns, now)
  {
    assert Ready(e.blinks, now) && Ready(e.yawns, now);
  }
}
