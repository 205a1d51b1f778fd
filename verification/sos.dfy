/**
 Escalation to an emergency dispatch: a critical timer that runs while the
 driver is drowsy or slumped (and emergencies are enabled), and the
 cooldown-gated dispatch it requests once the timer passes five seconds.
 */
module Sos {
  import opened Types
  import opened Wrappers
  import opened Seqs

  /** Seconds of continuous critical alarm before a dispatch is requested. */
  const EscalationSeconds := 5.0

  /** The prefilled emergency text (the location in it is a fixed placeholder). */
  const EmergencyText := "EMERGENCY: Driver is unresponsive/drowsy. Current Location: https://maps.google.com/?q=40.7128,-74.0060"

  predicate IsDigit(c: char) {
    '0' <= c <= '9'
  }

  /** The destination number with every character other than 0-9 removed
      (the messaging service wants bare digits including the country code). */
  function DigitsOnly(s: string): (r: string)
    ensures forall i :: 0 <= i < |r| ==> IsDigit(r[i])
    ensures forall c :: multiset(r)[c] == if IsDigit(c) then multiset(s)[c] else 0
  {
    Filter(s, IsDigit)
  }

  /** Stripping works character by character: the digits of a concatenation are
      the digits of each part, in order. */
  lemma DigitsOnlyConcat(a: string, b: string)
    ensures DigitsOnly(a + b) == DigitsOnly(a) + DigitsOnly(b)
  {
    FilterConcat(a, b, IsDigit);
  }

  /** A digit is kept and any other character is dropped. */
  lemma DigitsOnlyChar(c: char)
    ensures DigitsOnly([c]) == if IsDigit(c) then [c] else []
  {
    FilterSingleton(c, IsDigit);
  }

  /** Stripping an already stripped number changes nothing. */
  lemma DigitsOnlyIdempotent(s: string)
    ensures DigitsOnly(DigitsOnly(s)) == DigitsOnly(s)
  {
    FilterNarrowing(s, IsDigit, IsDigit);
  }

  /** What is handed to the messaging collaborator. */
  datatype SosDispatch = SosDispatch(destination: string, text: string)

  /** The outcome of one dispatch request: the new last-dispatch time, the
      events to log and the outbound message, if any. */
  datatype SosStep = SosStep(lastSms: int, events: seq<HistoryEvent>, dispatch: Option<SosDispatch>)

  /** A request is suppressed while less than `cooldown` seconds have passed
      since the last dispatch. */
  predicate CoolingDown(lastSms: int, cooldown: real, now: int) {
    ((now - lastSms) as real) < cooldown * 1000.0
  }

  /** A dispatch request at wall-clock `now` (milliseconds). */
  function TriggerSos(lastSms: int, ecfg: EmergencyConfig, now: int): (r: SosStep)
    ensures r.dispatch.Some? <==> ((now - lastSms) as real) >= ecfg.cooldown * 1000.0
    ensures r.dispatch.None? ==> r.lastSms == lastSms && r.events == []
    ensures r.dispatch.Some? ==>
      && r.lastSms == now
      && r.events == [HistoryEvent(EventType.Sos, now)]
      && r.dispatch.value.destination == DigitsOnly(ecfg.contactNumber)
      && r.dispatch.value.text == EmergencyText
  {
    if CoolingDown(lastSms, ecfg.cooldown, now) then
      SosStep(lastSms, [], None)
    else
      SosStep(now, [HistoryEvent(EventType.Sos, now)], Some(SosDispatch(DigitsOnly(ecfg.contactNumber), EmergencyText)))
  }

  /** The times at which a sequence of dispatch requests actually dispatched. */
  function DispatchTimes(lastSms: int, ecfg: EmergencyConfig, requests: seq<int>): seq<int>
    decreases |requests|
  {
    if |requests| == 0 then []
    else
      var step := TriggerSos(lastSms, ecfg, requests[0]);
      (if step.dispatch.Some? then [requests[0]] else []) + DispatchTimes(step.lastSms, ecfg, requests[1..])
  }

  /** However often dispatch is requested, successive dispatches (and the first
      one, measured from the previous dispatch) are at least `cooldown` seconds
      apart. So two critical episodes closer than the cooldown dispatch once. */
  lemma {:induction false} DispatchesSpaced(lastSms: int, ecfg: EmergencyConfig, requests: seq<int>)
    ensures var d := DispatchTimes(lastSms, ecfg, requests);
      && (|d| > 0 ==> ((d[0] - lastSms) as real) >= ecfg.cooldown * 1000.0)
      && forall i :: 0 < i < |d| ==> ((d[i] - d[i - 1]) as real) >= ecfg.cooldown * 1000.0
    decreases |requests|
  {
    if |requests| > 0 {
      var step := TriggerSos(lastSms, ecfg, requests[0]);
      DispatchesSpaced(step.lastSms, ecfg, requests[1..]);
    }
  }

  /** The critical condition: drowsy or head down, with emergencies enabled. */
  predicate Critical(f: Flags, ecfg: EmergencyConfig) {
    (f.isDrowsy || f.isAsleepPosture) && ecfg.enabled
  }

  /** The critical timer after a frame, and whether the frame requests a dispatch. */
  datatype Escalation = Escalation(timer: real, fire: bool)

  /** One frame of the critical timer: it accumulates while critical, requests a
      dispatch once strictly past five seconds and then restarts from zero. */
  function Escalate(timer: real, critical: bool, dt: real): (r: Escalation)
    ensures r.fire <==> critical && timer + dt > EscalationSeconds
    ensures r.timer <= EscalationSeconds
    ensures !critical || r.fire ==> r.timer == 0.0
    ensures critical && !r.fire ==> r.timer == timer + dt
  {
    if critical then
      var t := timer + dt;
      if t > EscalationSeconds then Escalation(0.0, true) else Escalation(t, false)
    else
      Escalation(0.0, false)
  }

  function Sum(xs: seq<real>): real
    decreases |xs|
  {
    if |xs| == 0 then 0.0 else xs[0] + Sum(xs[1..])
  }

  /** The critical timer over a run of frames that are all critical; the
      result is the last frame's escalation (no request for an empty run). */
  function EscalateRun(timer: real, dts: seq<real>): Escalation
    decreases |dts|
  {
    if |dts| == 0 then Escalation(timer, false)
    else if |dts| == 1 then Escalate(timer, true, dts[0])
    else EscalateRun(Escalate(timer, true, dts[0]).timer, dts[1..])
  }

  /** Over a critical run with non-negative frame times the timer never gets
      ahead of the time elapsed, so a request at the run's last frame means
      more than five seconds have passed since the timer stood at `timer`. */
  lemma {:induction false} EscalationBound(timer: real, dts: seq<real>)
    requires timer >= 0.0
    requires forall i :: 0 <= i < |dts| ==> dts[i] >= 0.0
    ensures 0.0 <= EscalateRun(timer, dts).timer <= timer + Sum(dts)
    ensures EscalateRun(timer, dts).fire ==> timer + Sum(dts) > EscalationSeconds
    decreases |dts|
  {
    if |dts| == 1 {
      assert Sum(dts) == dts[0] + Sum(dts[1..]);
      assert Sum(dts[1..]) == 0.0;
    } else if |dts| > 1 {
      var t := Escalate(timer, true, dts[0]).timer;
      assert forall i :: 0 <= i < |dts| - 1 ==> dts[1..][i] == dts[i + 1];
      EscalationBound(t, dts[1..]);
      assert Sum(dts) == dts[0] + Sum(dts[1..]);
    }
  }

  /** After a dispatch request the critical timer restarts from zero, so the
      next request of a driver who stays critical needs more than five seconds
      of frames: requests are spaced by the escalation time as well as by the
      cooldown. */
  lemma NextRequestAfterFiveSeconds(dts: seq<real>)
    requires forall i :: 0 <= i < |dts| ==> dts[i] >= 0.0
    ensures EscalateRun(0.0, dts).fire ==> Sum(dts) > EscalationSeconds
  {
    EscalationBound(0.0, dts);
  }
}
