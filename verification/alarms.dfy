/**
 The alarm decision: which history events a frame logs (rising edges of the
 five alarm flags against the previous frame's flags) and which single
 message is shown when several alarms are active at once.
 */
module Alarms {
  import opened Types
  import opened Wrappers
  import opened Edges

  /** Position of an event type in the order a frame logs it. */
  function LogRank(e: EventType): nat {
    match e
    case Sos => 0
    case Drowsy => 1
    case Yawn => 2
    case Distraction => 3
    case Posture => 4
    case Seatbelt => 5
  }

  /** The event logged for one condition at this frame, if its flag rose. */
  function Edge(c: Condition, cur: Flags, prev: Flags): seq<EventType> {
    if cur.Get(c) && !prev.Get(c) then [EventOf(c)] else []
  }

  /** The event types whose alarm is on now and was off at the previous frame,
      each at most once, in the fixed logging order. */
  function RisingEdges(cur: Flags, prev: Flags): (r: seq<EventType>)
    ensures forall c :: multiset(r)[EventOf(c)] == if cur.Get(c) && !prev.Get(c) then 1 else 0
    ensures Sos !in r
    ensures forall i, j :: 0 <= i < j < |r| ==> LogRank(r[i]) < LogRank(r[j])
  {
    var r := Edge(Condition.Drowsy, cur, prev) + Edge(Yawning, cur, prev) + Edge(Distracted, cur, prev)
      + Edge(AsleepPosture, cur, prev) + Edge(SeatbeltOff, cur, prev);
    RisingEdgesCount(cur, prev, r);
    RisingEdgesOrdered(cur, prev, r);
    r
  }

  ghost predicate Ascending(r: seq<EventType>) {
    forall i, j :: 0 <= i < j < |r| ==> LogRank(r[i]) < LogRank(r[j])
  }

  /** Every event of `r` logs before a condition at rank `bound`. */
  ghost predicate RankedBelow(r: seq<EventType>, bound: nat) {
    forall i :: 0 <= i < |r| ==> LogRank(r[i]) < bound
  }

  lemma ExtendAscending(r: seq<EventType>, d: Condition, cur: Flags, prev: Flags)
    requires Ascending(r) && RankedBelow(r, LogRank(EventOf(d)))
    requires Sos !in r
    ensures Ascending(r + Edge(d, cur, prev))
    ensures RankedBelow(r + Edge(d, cur, prev), LogRank(EventOf(d)) + 1)
    ensures Sos !in r + Edge(d, cur, prev)
  {
  }

  lemma RisingEdgesOrdered(cur: Flags, prev: Flags, r: seq<EventType>)
    requires r == Edge(Condition.Drowsy, cur, prev) + Edge(Yawning, cur, prev) + Edge(Distracted, cur, prev)
      + Edge(AsleepPosture, cur, prev) + Edge(SeatbeltOff, cur, prev)
    ensures Sos !in r
    ensures Ascending(r)
  {
    var r0: seq<EventType> := [];
    ExtendAscending(r0, Condition.Drowsy, cur, prev);
    var r1 := r0 + Edge(Condition.Drowsy, cur, prev);
    ExtendAscending(r1, Yawning, cur, prev);
    var r2 := r1 + Edge(Yawning, cur, prev);
    ExtendAscending(r2, Distracted, cur, prev);
    var r3 := r2 + Edge(Distracted, cur, prev);
    ExtendAscending(r3, AsleepPosture, cur, prev);
    var r4 := r3 + Edge(AsleepPosture, cur, prev);
    ExtendAscending(r4, SeatbeltOff, cur, prev);
    assert r == r4 + Edge(SeatbeltOff, cur, prev);
  }

  lemma EdgeCount(d: Condition, c: Condition, cur: Flags, prev: Flags)
    ensures multiset(Edge(d, cur, prev))[EventOf(c)] == if d == c && cur.Get(c) && !prev.Get(c) then 1 else 0
  {
    EventOfInjective(d, c);
  }

  lemma RisingEdgesCount(cur: Flags, prev: Flags, r: seq<EventType>)
    requires r == Edge(Condition.Drowsy, cur, prev) + Edge(Yawning, cur, prev) + Edge(Distracted, cur, prev)
      + Edge(AsleepPosture, cur, prev) + Edge(SeatbeltOff, cur, prev)
    ensures forall c :: multiset(r)[EventOf(c)] == if cur.Get(c) && !prev.Get(c) then 1 else 0
  {
    forall c
      ensures multiset(r)[EventOf(c)] == if cur.Get(c) && !prev.Get(c) then 1 else 0
    {
      EdgeCount(Condition.Drowsy, c, cur, prev);
      EdgeCount(Yawning, c, cur, prev);
      EdgeCount(Distracted, c, cur, prev);
      EdgeCount(AsleepPosture, c, cur, prev);
      EdgeCount(SeatbeltOff, c, cur, prev);
    }
  }

  /** The events logged over a run of frames; each frame's flags replace the
      stored previous flags wholesale. */
  function EdgeLog(prev: Flags, run: seq<Flags>): seq<EventType>
    decreases |run|
  {
    if |run| == 0 then []
    else RisingEdges(run[0], prev) + EdgeLog(run[0], run[1..])
  }

  /** One condition's flag, frame by frame. */
  function Track(run: seq<Flags>, c: Condition): (r: seq<bool>)
    ensures |r| == |run|
    ensures forall i :: 0 <= i < |run| ==> r[i] == run[i].Get(c)
  {
    seq(|run|, i requires 0 <= i < |run| => run[i].Get(c))
  }

  /** Over any run, a condition is logged exactly as many times as its flag rises. */
  lemma {:induction false} EdgeLogCountsRises(prev: Flags, run: seq<Flags>, c: Condition)
    ensures multiset(EdgeLog(prev, run))[EventOf(c)] == RisingCount(prev.Get(c), Track(run, c))
    decreases |run|
  {
    if |run| > 0 {
      EdgeLogCountsRises(run[0], run[1..], c);
      assert Track(run, c)[1..] == Track(run[1..], c);
    }
  }

  /** A flag held true for k consecutive frames is logged once (or not at all,
      if it was already on before the run). */
  lemma HeldAlarmLogsOnce(prev: Flags, run: seq<Flags>, c: Condition)
    requires |run| > 0
    requires forall i :: 0 <= i < |run| ==> run[i].Get(c)
    ensures multiset(EdgeLog(prev, run))[EventOf(c)] == if prev.Get(c) then 0 else 1
  {
    EdgeLogCountsRises(prev, run, c);
    SustainedRisesOnce(prev.Get(c), Track(run, c));
  }

  /** Display priority, most safety-critical first. */
  function Priority(c: Condition): nat {
    match c
    case SeatbeltOff => 0
    case Drowsy => 1
    case AsleepPosture => 2
    case Distracted => 3
    case Yawning => 4
  }

  /** The condition whose message is shown: none when no alarm is on, otherwise
      the active one of highest priority. */
  function AlertFor(f: Flags): (r: Option<Condition>)
    ensures r.None? <==> forall c :: !f.Get(c)
    ensures r.Some? ==> f.Get(r.value) && forall c :: f.Get(c) ==> Priority(r.value) <= Priority(c)
  {
    NoneActive(f);
    if f.isSeatbeltOff then Some(SeatbeltOff)
    else if f.isDrowsy then Some(Condition.Drowsy)
    else if f.isAsleepPosture then Some(AsleepPosture)
    else if f.isDistracted then Some(Distracted)
    else if f.isYawning then Some(Yawning)
    else None
  }

  lemma NoneActive(f: Flags)
    ensures (forall c :: !f.Get(c)) <==> !f.Any()
  {
    assert f.Get(Condition.Drowsy) == f.isDrowsy;
    assert f.Get(Yawning) == f.isYawning;
    assert f.Get(Distracted) == f.isDistracted;
    assert f.Get(AsleepPosture) == f.isAsleepPosture;
    assert f.Get(SeatbeltOff) == f.isSeatbeltOff;
  }

  /** Priorities are distinct, so the displayed condition is determined. */
  lemma PriorityInjective(c: Condition, d: Condition)
    ensures Priority(c) == Priority(d) <==> c == d
  {
  }

  /** The banner text for each alarm. */
  function AlertText(c: Condition): string {
    match c
    case SeatbeltOff => "SEATBELT NOT DETECTED!"
    case Drowsy => "WAKE UP! EYES CLOSED"
    case AsleepPosture => "HEAD DOWN DETECTED"
    case Distracted => "DISTRACTED! LOOK AHEAD"
    case Yawning => "YAWNING DETECTED"
  }

  /** The message shown after a frame; `None` clears the banner. */
  function AlertMessage(f: Flags): (r: Option<string>)
    ensures r.None? <==> !f.Any()
    ensures f.isSeatbeltOff ==> r == Some("SEATBELT NOT DETECTED!")
  {
    match AlertFor(f)
    case None => None
    case Some(c) => Some(AlertText(c))
  }
}
