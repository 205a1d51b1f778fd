/**
 The records shared by the detection engine: the user-editable configurations,
 the per-frame signals, the five alarm flags and the history events.
 Numbers that the source keeps as JavaScript doubles are `real` here;
 millisecond wall-clock timestamps are `int`.
 */
module Types {

  /** Detection thresholds. The engine takes them as an input of each frame;
      the app itself keeps the values it had at its first render. */
  datatype DetectionConfig = DetectionConfig(
    earThreshold: real,    // eye aspect ratio below which the eyes count as closed
    marThreshold: real,    // mouth aspect ratio above which the mouth counts as open
    yawThreshold: real,    // head turn, in degrees
    pitchThreshold: real,  // head down, in degrees
    timeToTrigger: real    // seconds a condition must persist before its alarm
  )

  /** Emergency contact settings; `cooldown` is in seconds. */
  datatype EmergencyConfig = EmergencyConfig(
    enabled: bool,
    contactName: string,
    contactNumber: string,
    cooldown: real
  )

  /** The four scalar signals derived from one detected face. */
  datatype Signals = Signals(ear: real, mar: real, pitch: real, yaw: real)

  /** The kinds of history event, one per alarm plus the emergency dispatch. */
  datatype EventType = Drowsy | Yawn | Distraction | Posture | Seatbelt | Sos

  /** A logged event. The source also gives each event a random string id,
      which is not part of this model. */
  datatype HistoryEvent = HistoryEvent(kind: EventType, timestamp: int)

  /** The five alarm conditions, in the order the engine logs their rising edges. */
  datatype Condition = Drowsy | Yawning | Distracted | AsleepPosture | SeatbeltOff

  /** The history event logged when a condition's alarm starts. */
  function EventOf(c: Condition): (e: EventType)
    ensures e != EventType.Sos
  {
    match c
    case Drowsy => EventType.Drowsy
    case Yawning => Yawn
    case Distracted => Distraction
    case AsleepPosture => Posture
    case SeatbeltOff => Seatbelt
  }

  /** Distinct conditions are logged as distinct event types. */
  lemma EventOfInjective(c: Condition, d: Condition)
    ensures EventOf(c) == EventOf(d) <==> c == d
  {
  }

  /** The five alarm flags of one frame (also the record of the previous frame's flags). */
  datatype Flags = Flags(
    isDrowsy: bool,
    isYawning: bool,
    isDistracted: bool,
    isAsleepPosture: bool,
    isSeatbeltOff: bool
  ) {
    function Get(c: Condition): bool {
      match c
      case Drowsy => isDrowsy
      case Yawning => isYawning
      case Distracted => isDistracted
      case AsleepPosture => isAsleepPosture
      case SeatbeltOff => isSeatbeltOff
    }

    predicate Any() {
      isDrowsy || isYawning || isDistracted || isAsleepPosture || isSeatbeltOff
    }
  }

  const AllClear := Flags(false, false, false, false, false)

  /** The snapshot handed to the presentation layer after each frame with a face. */
  datatype DetectionState = DetectionState(
    flags: Flags,
    ear: real,
    mar: real,
    yaw: real,
    pitch: real,
    blinkRate: nat,
    yawnRate: nat,
    stressLevel: int
  )

  function Abs(x: real): real {
    if x < 0.0 then -x else x
  }
}
