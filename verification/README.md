# Driver drowsiness engine — a Dafny model

This project models the per-frame detection engine of the driver-monitoring
web app (`App.tsx`). The engine runs once per animation frame. It takes four
signals measured from the driver's face:

- the eye aspect ratio (EAR);
- the mouth aspect ratio (MAR);
- head pitch;
- head yaw.

It also reads a seatbelt sensor boolean. From these it maintains:

- **rolling blink and yawn windows**: sixty seconds of millisecond timestamps,
  one per rising edge of "eyes closed" / "mouth open". The window sizes are the
  blink and yawn rates, and they give a 0–100 stress score;
- **four condition timers** (eyes closed, yawning, head turned, head down).
  Each adds the frame's elapsed time while its condition holds and resets to
  zero otherwise. A condition's alarm is on when its timer is strictly past the
  trigger time. The seatbelt alarm is the sensor value itself;
- **escalation**: a critical timer that runs while the driver is drowsy or
  slumped and emergencies are enabled. Past five seconds it requests an
  emergency dispatch (`triggerSOS`), and then it restarts. A dispatch goes out
  only when the cooldown since the last one has run out. It carries the
  contact number stripped to digits and a fixed emergency text;
- **history logging**: one event per alarm that switched on at this frame,
  measured against the previous frame's flags. A dispatch adds an `sos` event,
  which is logged first;
- **the banner**: no message when every alarm is off. Otherwise the message of
  the active alarm that comes first in the order seatbelt > drowsy > head down
  > distracted > yawning.

Modules:

- `Types`: the records of `types.ts`.
- `Seqs`: order-preserving filter.
- `Edges`: rising edges.
- `RollingWindow`: the windows and the stress score.
- `Timers`: the condition timers and alarm flags.
- `Alarms`: edge logging and banner priority.
- `Sos`: the digit filter, dispatch and escalation.
- `Engine`: the frame itself, runs of frames, and the between-frame invariant.

The engine is a pure function from state and inputs to a new state and a
report. Its inputs:

- the animation-frame time;
- the wall clock;
- the face's signals, or `None`;
- the seatbelt flag.

The report holds:

- the detection snapshot;
- the events to log;
- the banner;
- alarm sound on/off;
- the outgoing message.

Two behaviours of the code worth noting:

- **Timers.** The code keeps four condition timers. The seatbelt alarm is the
  raw sensor value (App.tsx:342); there is no fifth, seatbelt timer.
- **Frame time.** The elapsed frame time is not clamped (App.tsx:242), and the
  frame clock starts at 0 (App.tsx:26). So the first frame counts the whole
  time since the page loaded (`Engine.FirstFrameCountsPageAge`).

A frame without a face (or before the video has a size) only stores the frame
time (App.tsx:242-246, 257). Timers, windows and previous flags freeze, and
that frame's elapsed time is lost.

## Model

| member | source | states |
|---|---|---|
| Types.EventOf | types.ts:38 | each alarm condition is logged as its own event type, never as `sos` |
| Types.EventOfInjective | types.ts:38 | distinct conditions give distinct event types |
| Seqs.Filter | App.tsx:300-301 | the filtered list holds each kept value exactly as often as the input, and nothing else |
| Seqs.FilterConcat | App.tsx:300-301 | filtering commutes with concatenation, so relative order is preserved |
| Seqs.FilterSingleton | App.tsx:300-301 | one element survives exactly when it passes the test |
| Seqs.FilterAllKept | App.tsx:300-301 | a list whose every element passes is left unchanged |
| Seqs.FilterNarrowing | App.tsx:300-301 | a weaker filter followed by a stronger one equals the stronger one alone |
| Edges.SustainedRisesOnce | App.tsx:287-289 | a condition held over k consecutive frames rises once if it was off before, never if it was already on |
| RollingWindow.Evict | App.tsx:299-301 | an entry stays iff it is newer than `now - 60000`, as often as it occurred, so the window's length counts exactly the surviving entries; a sorted window stays sorted, and what is dropped is a prefix of entries at least a minute old |
| RollingWindow.UpdateWindow | App.tsx:286-301 | one frame's window update: `RecordEdge` appends `now` on a rising edge, then eviction. Each timestamp newer than a minute occurs as often as before, plus once more for `now` on a rising edge; older ones are gone. From an ascending window with nothing after `now`, the result is ascending and holds exactly the last minute |
| RollingWindow.FilterMembership | App.tsx:300-301 | a value is in the filtered list iff it is in the input and passes |
| RollingWindow.FilterKeepsSorted | App.tsx:300-301 | filtering keeps an ascending list ascending |
| RollingWindow.FilterSortedSuffix | App.tsx:300-301 | on an ascending list, age eviction keeps a suffix and drops only entries at or below the cutoff |
| RollingWindow.EvictBoundary | App.tsx:299-300 | an entry is evicted iff it is at least 60000 ms old (strict `>` in the filter) |
| RollingWindow.EvictLater | App.tsx:299-301 | evicting at an earlier frame and again later equals evicting once later |
| RollingWindow.UpdateWindowKeepsInv | App.tsx:286-301 | recording and evicting at `now` leaves a window that is ascending and within the last minute |
| RollingWindow.RecordCountsRisingEdges | App.tsx:286-297 | over a run of frames the window grows by exactly the number of rising edges, and older entries stay in front unchanged |
| RollingWindow.StressLevel | App.tsx:306 | the stress score lies in 0..100 and equals `min(100, 15·yawns + round(1.5·blinks))` written in integers as `min(100, 15·y + (3·b+1) div 2)` |
| Timers.Tick | App.tsx:311-333 | each timer adds `dt` while its own raw condition holds and is exactly 0 otherwise; non-negative timers stay non-negative for `dt >= 0` |
| Timers.AlarmFlags | App.tsx:336-342 | each alarm is on iff its timer is strictly past the trigger time; the seatbelt alarm equals the sensor |
| Timers.SustainAddsUp | App.tsx:311-315 | a condition held over k frames of `dt` adds exactly `k·dt` |
| Timers.SustainedAlarmStays | App.tsx:311-336 | with non-negative frame times, a sustained condition's alarm never switches off |
| Timers.EighthFrameAlarm | App.tsx:311-336 | with 0.2 s frames and a 1.5 s trigger, the alarm is on iff at least eight frames have passed |
| Alarms.RisingEdges | App.tsx:359-363 | the frame logs each condition's event exactly once if its flag rose and never otherwise, never `sos`, in the fixed logging order |
| Alarms.EdgeLogCountsRises | App.tsx:359-365 | over any run of frames, each condition is logged exactly as many times as its flag rises, because the previous flags are replaced wholesale |
| Alarms.HeldAlarmLogsOnce | App.tsx:359-365 | a flag held on for k frames is logged once (not at all if it was already on) |
| Alarms.AlertFor | App.tsx:385-393 | no banner iff every alarm is off; otherwise the chosen alarm is on and no active alarm has a higher priority |
| Alarms.PriorityInjective | App.tsx:388-392 | the priorities are distinct, so the banner's alarm is determined |
| Alarms.AlertMessage | App.tsx:385-397 | the banner is cleared iff no alarm is on; with the seatbelt alarm on it is the seatbelt text whatever else is on |
| Sos.DigitsOnly | App.tsx:194 | the destination holds only digits, and each digit as often as the contact number does |
| Sos.DigitsOnlyConcat | App.tsx:194 | the digits of a concatenation are the digits of each part, in order |
| Sos.DigitsOnlyChar | App.tsx:194 | a digit is kept and any other character dropped |
| Sos.DigitsOnlyIdempotent | App.tsx:194 | stripping twice is stripping once |
| Sos.TriggerSos | App.tsx:204-210 | a dispatch goes out iff at least `cooldown·1000` ms have passed since the last one; if not, nothing changes and nothing is logged; if so, the last-dispatch time becomes `now`, exactly one `sos` event is logged, and the message goes to the digits of the contact number |
| Sos.DispatchesSpaced | App.tsx:205-209 | however often dispatch is requested, successive dispatches are at least the cooldown apart |
| Sos.Escalate | App.tsx:347-355 | the critical timer requests a dispatch iff critical and strictly past five seconds; it then resets, resets when not critical, and otherwise adds `dt` |
| Sos.EscalationBound | App.tsx:347-355 | over a critical run with non-negative frame times the timer never gets ahead of the elapsed time |
| Sos.NextRequestAfterFiveSeconds | App.tsx:347-353 | after a request the next one needs more than five seconds of frames |
| Engine.Stamp | App.tsx:111-116 | each event type becomes one event stamped with the frame's wall-clock time, in order |
| Engine.Analyze | App.tsx:283-306 | both windows count each timestamp of the last minute as often as before, plus one for `now` on a rising edge, and drop what is a minute old; the edge observations are stored for the next frame; the stress score follows the window sizes |
| Engine.EscalateFrame | App.tsx:344-355 | with `Sos.Critical` the condition (drowsy or slumped, emergencies on), the critical timer becomes `critical + dt` while critical and not past five seconds, and 0 otherwise, so it stays at most five seconds; a dispatch goes out iff critical, past five seconds and out of cooldown, and it goes to the contact's digits with the fixed emergency text |
| Engine.Step | App.tsx:283-397 | one frame with a face. Each timer adds `dt` while its raw condition holds and resets otherwise. Alarms compare strictly; the seatbelt alarm is the sensor. Windows update as `RollingWindow.UpdateWindow` states; rates are their lengths; stress lies in 0..100. The previous flags become this frame's flags. The banner is the message of the highest-priority active alarm, and banner and sound are off iff no alarm is on |
| Engine.StepEvents | App.tsx:347-363 | the frame's events, dispatch first and then the stamped edges, carry the frame's wall-clock time; each condition's event occurs exactly once if its flag rose and never otherwise; `sos` occurs once iff a dispatch went out |
| Engine.StampCount | App.tsx:111-116 | stamping keeps, for each event type, its number of occurrences |
| Engine.StepLogs | App.tsx:347-365 | a frame with a face logs each alarm that switched on exactly once, no other alarm, `sos` exactly once iff it dispatched, all stamped with the frame's wall-clock time |
| Engine.StepEscalates | App.tsx:344-355 | in a frame with a face the critical timer runs while drowsy or slumped with emergencies on and restarts past five seconds or when that stops; it stays within 5 s; a dispatch goes out iff that restart happens out of cooldown, to the contact's digits with the fixed text, and the last-dispatch time moves to `now` exactly then |
| Engine.Frame | App.tsx:240-257 | every frame stores its time; a frame without a face changes nothing else and reports nothing; a frame with a face reports, and its timers tick by the elapsed frame time in seconds |
| Engine.ElapsedAccumulates | App.tsx:242-243 | if each frame adds its elapsed time to the drowsy timer, a run adds the total elapsed time |
| Engine.DrowsyTimerTracksElapsed | App.tsx:311-315 | while every frame sees a face with closed eyes, the drowsy timer grows by exactly the frame time since the callback before the run, however the frames were spaced |
| Engine.FirstFrameCountsPageAge | App.tsx:242-243 | from the initial state, a first frame with closed eyes sets the drowsy timer to the page's age and raises the alarm iff that exceeds the trigger time |
| Engine.InitialInv | App.tsx:17-41 | the initial state satisfies the between-frame invariant |
| Engine.FrameKeepsInv | App.tsx:286-355 | when neither clock runs backwards, each frame keeps the windows ascending and not in the future, and keeps the timers non-negative and the critical timer within 0..5 s; after a frame with a face both windows hold only the last minute |
| Engine.StepKeepsInv | App.tsx:286-355 | the same invariant for a frame with a face and `dt >= 0` |

## Left out

- Face landmark detection, the webcam and canvas drawing are not modelled. They are I/O and a foreign library. The four signals are frame inputs.
- The EAR, MAR and Euler-angle computations are not modelled: `utils/geometry` is not part of this model.
- React state setters, rendering, the FPS readout and the alarm sound are not modelled. The report carries the snapshot, the banner text and a sound on/off flag instead.
- The history store is not modelled: local storage, the dummy history, random event ids and the last-1000 retention in `addHistoryEvent`. A frame reports the events it would append.
- Opening the messaging link, URL encoding and the on-screen notification are not modelled. The notification goes straight to "sent", with no "sending" stage before it (App.tsx:221), and hides after 8 seconds. A dispatch is reported as destination and text.
- The three `Date.now()` readings of a frame (frame start, inside `triggerSOS`, inside `addHistoryEvent`) are modelled as one wall-clock value `now`.
- JavaScript doubles are modelled as `real`, with no rounding or NaN. Millisecond timestamps are `int`. `Math.round` is modelled as `floor(x + 0.5)`.
- Engine.Step: takes the detection thresholds as an input of every frame, while the code fixes them at their initial values (App.tsx:46-52). The frame callback is created by the mount effect, whose dependency list is empty (App.tsx:133-167), so later edits to the thresholds never reach detection. The code's behaviour is the fixed-threshold case, which the run lemmas assume. The emergency settings and the seatbelt are read through refs (App.tsx:185-189), so changes to those do reach each frame.
- Engine.Step: states the frame's logging and escalation through the lemmas `Engine.StepLogs` and `Engine.StepEscalates` rather than its own contract.
- Engine.StepLogs: states which events a frame logs, not their order. The order (sos first, then drowsy, yawn, distraction, posture, seatbelt) follows from the body of Engine.Step and is stated only for the edges, on Alarms.RisingEdges.
- Engine.Step: does not state the stress closed form; that is stated on Engine.Analyze and RollingWindow.StressLevel.
- Alarms.AlertMessage: states only the cleared case and the seatbelt tie-break; the full priority order is stated on Alarms.AlertFor.
- Engine.DrowsyTimerTracksElapsed: covers the drowsy timer only. The other three timers follow the same per-frame rule, stated on Timers.Tick and Engine.Step.
- Sos.NextRequestAfterFiveSeconds: is stated over the critical timer alone (`Sos.EscalateRun`), not over runs of whole engine frames.
