# Door node with kiln controller: a Dafny model

This is a Dafny model of the firmware of a makerspace access node. The node
opens an electric door lock for members whose card is approved. It also runs
a kiln from a stored firing schedule.

The model has two parts.

**The kiln controller.** This is class `PIDController` (include/pid.h,
src/pid.cpp).
- It holds twenty schedules of twenty segments each.
- A segment is switched off, a hold at a temperature, or a linear ramp toward
  a goal temperature over a number of minutes.
- Once an approved user switches the oven on, `scheduleLoop` walks the
  selected schedule one used segment after another.
- `PIDloop` samples the thermocouple, debounces its faults and drives the
  solid-state relay (SSR) in a time-proportioning window.
- `checkTemps` switches the fan and the signal lamp.
- The web handlers edit schedules and move between them.

**The door state machine.** This lives in src/main.cpp.
- There are twelve states. A table gives each state a timeout and the state a
  timeout leads to.
- `loop()` records state changes, takes timeouts and runs each state's action.
- The access library calls back on approval, denial, card swipe, connection
  and error.

Files:
- `pid_defs.dfy` (module `PidDefs`): pid.h's constants, the segment and
  schedule types, their defaults, and the controller value that entering a
  segment is stated against.
- `pid_logic.dfy` (module `PidLogic`): the value-level logic of pid.cpp, as
  functions with lemmas. It covers the used-segment scan, the fault debounce,
  ramp interpolation, the SSR window, the form-to-schedule mapping, C-string
  truncation of names, and wrap-around of schedule indices.
- `pid_controller.dfy` (module `PidControl`): class `PIDController`.
  - Its fields are pid.h's members and the schedule table is an array.
  - Each method is stated against the functions of `PidLogic` and against the
    old state.
  - It ends with a whole-run scenario on a fresh controller.
- `door_access.dfy` (module `DoorAccess`): the door state machine.
  - It is stated first on a `Door` value, where the run properties are proved.
  - Class `DoorNode` then holds main.cpp's globals and its `state[]` table as
    an array. Each method is proved to change them exactly as the matching
    function says.

Time is a `now: nat` parameter in milliseconds. The thermocouple reading, the
PID library's output and the parsed web form are also parameters.
Temperatures are `real`.

Two behaviours of the code are easy to misread; the model follows the code:
- A thermocouple fault is declared on the sixth consecutive faulty read
  (`MAX_TEMPFAULTS + 1`), not the fifth (`FaultDeclaredAfterMaxPlusOne`).
- A denial is ignored only in `LOCKOPEN` and `LOCKCLOSED`, the two states
  above `REJECTED` in the enum. It is not ignored in `APPROVED`
  (`GuardsByOrdinal`, `Deny`). The debug message at main.cpp:273 says a denial is meant to be ignored once the door is open; finding 2 below covers this.

## Model

| member | source | states |
|---|---|---|
| PidDefs.EmptySchedule | PlatformIO_Files/NodeVoordeur/src/pid.cpp:308-312 | An empty slot has an empty name and 20 segments, each switched off at 0 degrees for 0 minutes and unused; it fits the C layout |
| PidDefs.ThreeModes | PlatformIO_Files/NodeVoordeur/include/pid.h:108-112 | Every segment mode is SWITCHED_OFF, HOLD or RAMP |
| PidLogic.FirstUsedFrom | PlatformIO_Files/NodeVoordeur/src/pid.cpp:928-930 | The scan stops at the first used segment at or after `from`, or at the end; every segment it skips is unused |
| PidLogic.EmptyIffNoFirstUsed | PlatformIO_Files/NodeVoordeur/src/pid.cpp:265-278 | The scan from segment 0 runs off the end exactly when getScheduleIsEmpty would report the schedule empty |
| PidLogic.FirstUsedUnique | PlatformIO_Files/NodeVoordeur/src/pid.cpp:980-982 | Any index reached past unused segments, which is the end or a used segment, is where the scan stops |
| PidLogic.MeasuredTemp | PlatformIO_Files/NodeVoordeur/src/pid.cpp:185-230 | A read with a non-zero fault register yields -300; a clean read yields the thermocouple temperature |
| PidLogic.DebounceStep | PlatformIO_Files/NodeVoordeur/src/pid.cpp:186-229 | A good read clears count and fault. A faulty read raises the count to at most 5 and declares the fault only from a full count. The invariant "count <= 5, and a fault means a full count" is kept |
| PidLogic.FaultyReads | PlatformIO_Files/NodeVoordeur/src/pid.cpp:215-229 | k faulty reads add k to the count, capped at 5, and declare the fault once the count would pass 5 |
| PidLogic.FaultDeclaredAfterMaxPlusOne | PlatformIO_Files/NodeVoordeur/src/pid.cpp:215-229 | From a clear state the fault is declared after k faulty reads exactly when k > 5 |
| PidLogic.RampAfterIsLinear | PlatformIO_Files/NodeVoordeur/src/pid.cpp:993-997 | k steps of `rampValue += deltaTemp` give start + k * delta |
| PidLogic.RampTicksExact | PlatformIO_Files/NodeVoordeur/src/pid.cpp:913 | The real-valued divisor selectMode computes for a segment of m minutes equals the integer 60m, the number of sample periods in the segment |
| PidLogic.RampReachesGoal | PlatformIO_Files/NodeVoordeur/src/pid.cpp:906-918 | The step is sized so that 60m steps would land exactly on the goal. In a run at most 60m - 1 steps fire (LastRampStepPreempted) |
| PidLogic.RampOneStepShort | PlatformIO_Files/NodeVoordeur/src/pid.cpp:906-918 | After 60m - 1 steps, where a run leaves the ramp, it is exactly one deltaTemp short of the goal, so within one sample step of it. It differs from the goal whenever the two goals differ |
| PidLogic.LastRampStepPreempted | PlatformIO_Files/NodeVoordeur/src/pid.cpp:973-997 | A ramp segment is entered at or after the oven start plus the previous end time. Any time at which its 60m-th step could fire is past the segment's end, which scheduleLoop checks first, so at most 60m - 1 steps are taken |
| PidLogic.RampStaysBetween | PlatformIO_Files/NodeVoordeur/src/pid.cpp:906-918 | Every intermediate ramp value lies between the previous and the next goal (no overshoot) |
| PidLogic.RampMonotone | PlatformIO_Files/NodeVoordeur/src/pid.cpp:993-997 | Ramp values rise monotonically for a non-negative step and fall for a non-positive one |
| PidLogic.PulseWindowStart | PlatformIO_Files/NodeVoordeur/src/pid.cpp:132-134 | The window start either stays or moves on by exactly one window width, and never passes `now` |
| PidLogic.WindowCatchesUp | PlatformIO_Files/NodeVoordeur/src/pid.cpp:132-134 | A window start lagging by at most two windows lags by at most one after the pass |
| PidLogic.DutyCycle | PlatformIO_Files/NodeVoordeur/src/pid.cpp:136-146 | In the first window, at elapsed 0..w-1 from the start setControllerOn sets, the SSR is on for min(w, ceil(outputPower)) whole ms |
| PidLogic.ShiftedWindowSpan | PlatformIO_Files/NodeVoordeur/src/pid.cpp:132-134 | A pass that shifts the window leaves its elapsed time in 1..w, so every window after the first spans elapsed 1..w |
| PidLogic.ShiftedDutyCycle | PlatformIO_Files/NodeVoordeur/src/pid.cpp:132-146 | At elapsed 1..w the SSR is on for ceil(outputPower) - 1 whole ms, capped by w, and never when outputPower is 0. At full power it is off 1 ms of every window |
| PidLogic.ParsedMode | PlatformIO_Files/NodeVoordeur/src/pid.cpp:817-828 | One of the three option values selects its mode; any other value keeps the current mode |
| PidLogic.ModeValueRoundTrip | PlatformIO_Files/NodeVoordeur/src/pid.cpp:575-590 | The option value the edit page writes for a mode parses back to that mode |
| PidLogic.EditedPoint | PlatformIO_Files/NodeVoordeur/src/pid.cpp:817-847 | A segment after the form: the mode parsed from `mode_i`; goal and time from the form, or 0 when absent; used exactly when `segmentIsUsed_i` is "on" |
| PidLogic.CStringPrefix | PlatformIO_Files/NodeVoordeur/src/pid.cpp:813-815 | The stored string is the longest NUL-free prefix of the input that has at most `limit` characters |
| PidLogic.TruncatedName | PlatformIO_Files/NodeVoordeur/src/pid.cpp:813-815 | The stored name has at most 63 characters, so that one per buffer byte it leaves room for the terminator, and is the input cut at the first NUL or at 63 characters |
| PidLogic.CStringPrefixIdempotent | PlatformIO_Files/NodeVoordeur/src/pid.cpp:813-815 | Truncating an already truncated string changes nothing |
| PidLogic.CStringPrefixKeepsFitting | PlatformIO_Files/NodeVoordeur/src/pid.cpp:813-815 | A NUL-free string within the limit is kept whole |
| PidLogic.NameKeptWhenItFits | PlatformIO_Files/NodeVoordeur/src/pid.cpp:813-815 | A NUL-free name of at most 63 characters is stored unchanged (the same as 63 bytes for a name in ASCII) |
| PidLogic.EditedSchedule | PlatformIO_Files/NodeVoordeur/src/pid.cpp:808-850 | The edited schedule is well formed, carries the truncated name, and each segment is the edited segment |
| PidLogic.EditIdempotent | PlatformIO_Files/NodeVoordeur/src/pid.cpp:808-850 | Submitting the same form twice leaves the schedule as submitting it once |
| PidLogic.EditWithoutUsedMarksEmpties | PlatformIO_Files/NodeVoordeur/src/pid.cpp:835-847 | A form that ticks no segment leaves a schedule that getScheduleIsEmpty reports empty |
| PidLogic.NextScheduleIndex | PlatformIO_Files/NodeVoordeur/src/pid.cpp:1056-1061 | The next index is (i + 1) mod 20 |
| PidLogic.PrevScheduleIndex | PlatformIO_Files/NodeVoordeur/src/pid.cpp:1062-1067 | The previous index is the one whose successor mod 20 is i |
| PidLogic.NextPrevInverse | PlatformIO_Files/NodeVoordeur/src/pid.cpp:1055-1068 | Next and previous undo each other |
| PidLogic.NextScheduleIndexN | PlatformIO_Files/NodeVoordeur/src/pid.cpp:1055-1068 | Stepping forward k times stays within the 20 slots |
| PidLogic.NextScheduleIndexNIsModular | PlatformIO_Files/NodeVoordeur/src/pid.cpp:1055-1068 | k steps forward land on (i + k) mod 20, so navigation reaches every slot and 20 steps return to the start |
| PidControl.PIDController.constructor | PlatformIO_Files/NodeVoordeur/include/pid.h:203-278 | The member defaults: oven, controller, SSR, fan and lamp off; no fault; both schedule indices and the point 0; every slot empty |
| PidControl.PIDController.Begin | PlatformIO_Files/NodeVoordeur/src/pid.cpp:27-109 | The window width and setpoint are taken over, 10000 ms and -100 degrees when not given, and the window restarts now. Every schedule keeps its segments but loses its name. The oven ends switched off |
| PidControl.BeginWithDefaults | PlatformIO_Files/NodeVoordeur/include/pid.h:142 | begin without its optional arguments leaves a 10000 ms SSR window, a setpoint of -100 degrees and the oven off |
| PidControl.PIDController.SetControllerOn | PlatformIO_Files/NodeVoordeur/src/pid.cpp:160-163 | The controller is on and its window starts now |
| PidControl.PIDController.SetControllerOff | PlatformIO_Files/NodeVoordeur/src/pid.cpp:165-169 | Controller and SSR are off |
| PidControl.PIDController.SetGoalOvenTemp | PlatformIO_Files/NodeVoordeur/src/pid.cpp:171-178 | The setpoint becomes the new goal and the output is reset to 0 |
| PidControl.PIDController.MeasureOvenTemps | PlatformIO_Files/NodeVoordeur/src/pid.cpp:180-231 | Both temperatures and the fault register are stored. The result is MeasuredTemp. The debounce takes exactly one DebounceStep, and its invariant holds |
| PidControl.PIDController.SampleOvenTemp | PlatformIO_Files/NodeVoordeur/src/pid.cpp:115-126 | When a sample is due: one measurement, its value, the sample time restarted and no new sample wanted. Otherwise the sensor fields are untouched and the last temperature is reused |
| PidControl.PIDController.DriveSsr | PlatformIO_Files/NodeVoordeur/src/pid.cpp:128-156 | On a valid temperature the PID output is taken over when computed, the window moves as PulseWindowStart says, and the SSR is on exactly while inside outputPower of the window. On an invalid one a declared fault forces SSR and controller off |
| PidControl.PIDController.PidLoop | PlatformIO_Files/NodeVoordeur/src/pid.cpp:111-158 | Nothing changes while the controller is off. Otherwise it samples as SampleOvenTemp and drives the SSR as DriveSsr, combined over the whole pass |
| PidControl.PIDController.GetScheduleIsEmpty | PlatformIO_Files/NodeVoordeur/src/pid.cpp:265-278 | True exactly when no segment of the selected schedule is used |
| PidControl.PIDController.KeepControllerOn | PlatformIO_Files/NodeVoordeur/src/pid.cpp:896-898 | The controller ends on and its window restarts only if it was off |
| PidControl.PIDController.EnterSwitchedOff | PlatformIO_Files/NodeVoordeur/src/pid.cpp:887-892 | Goal, setpoint and output are zero; controller, SSR and ramp are off; window and ramp state are untouched |
| PidControl.PIDController.EnterHold | PlatformIO_Files/NodeVoordeur/src/pid.cpp:893-900 | The controller is on, the setpoint jumps to the goal, no ramp, and SSR and ramp state are untouched |
| PidControl.PIDController.EnterRamp | PlatformIO_Files/NodeVoordeur/src/pid.cpp:902-919 | A zero-minute ramp is entered as a hold. Otherwise the controller is on and a ramp starts now from the previous goal, with RampDelta per step |
| PidControl.PIDController.SelectMode | PlatformIO_Files/NodeVoordeur/src/pid.cpp:880-921 | The current segment is entered from the old goal, per mode as in SegmentEntered; the run fields are untouched |
| PidControl.PIDController.ScanUsedFrom | PlatformIO_Files/NodeVoordeur/src/pid.cpp:928-930 | The loop stops at FirstUsedFrom of the selected schedule |
| PidControl.PIDController.StartRun | PlatformIO_Files/NodeVoordeur/src/pid.cpp:936-945 | The oven is on with the switched-on edge raised and its start time now. The first segment's end time is set and it is entered from goal 0 |
| PidControl.PIDController.MarkRunStarted | PlatformIO_Files/NodeVoordeur/src/pid.cpp:936-942 | Both goals are zero, the oven is on, the edge flags are set, and the end time is the first segment's duration; the controller outputs are untouched |
| PidControl.PIDController.SwitchOvenOn | PlatformIO_Files/NodeVoordeur/src/pid.cpp:924-951 | Nothing changes unless the user is approved and the oven is off. Then currentPoint is the first used segment, and the oven is on exactly when the schedule is not empty. An empty schedule only moves currentPoint to 20; otherwise the run starts as StartRun states |
| PidControl.PIDController.SwitchOvenOff | PlatformIO_Files/NodeVoordeur/src/pid.cpp:953-959 | Oven, controller and SSR are off, the switched-on edge is cleared and the switched-off edge raised; the run position is untouched |
| PidControl.PIDController.AdvanceSegment | PlatformIO_Files/NodeVoordeur/src/pid.cpp:973-991 | From the last segment the run ends. Otherwise it moves to the next used segment and enters it, or ends when none is left (EndOfSegment). `ended` is true exactly when the oven is off |
| PidControl.PIDController.AdvanceToNextUsed | PlatformIO_Files/NodeVoordeur/src/pid.cpp:979-990 | From a segment before the last, the outcome EndOfSegment states, with `ended` exactly when no used segment is left |
| PidControl.PIDController.EnterNextUsed | PlatformIO_Files/NodeVoordeur/src/pid.cpp:983-986 | The found segment becomes current, its duration is added to the end time, it is entered from the old goal, and the oven stays on |
| PidControl.PIDController.MoveToPoint | PlatformIO_Files/NodeVoordeur/src/pid.cpp:984-985 | currentPoint is the found segment and the end time grows by its duration in ms |
| PidControl.PIDController.RampStep | PlatformIO_Files/NodeVoordeur/src/pid.cpp:993-997 | The step time advances by exactly 1000 ms, the ramp by deltaTemp, and the setpoint follows the ramp |
| PidControl.PIDController.ScheduleLoop | PlatformIO_Files/NodeVoordeur/src/pid.cpp:961-1000 | Nothing changes while the oven is off. A declared fault or more than 100 hours of run time switches the oven off whatever the schedule says. A passed end time advances as EndOfSegment; otherwise at most one ramp step is taken (WithinSegment) |
| PidControl.PIDController.SetUserIsApproved | PlatformIO_Files/NodeVoordeur/src/pid.cpp:1002-1004 | The approval flag is the value given |
| PidControl.PIDController.OvenIsSwitchedOn | PlatformIO_Files/NodeVoordeur/src/pid.cpp:1006-1011 | Returns the switched-on edge and clears it |
| PidControl.PIDController.OvenIsSwitchedOff | PlatformIO_Files/NodeVoordeur/src/pid.cpp:1013-1018 | Returns the switched-off edge and clears it |
| PidControl.PIDController.CheckTemps | PlatformIO_Files/NodeVoordeur/src/pid.cpp:1020-1053 | Nothing changes within the period. After it there is one measurement; on a valid read the fan is on exactly above 50 degrees cold-junction and the lamp exactly above 40 degrees thermocouple; an invalid read leaves both |
| PidControl.PIDController.ChangeParams | PlatformIO_Files/NodeVoordeur/src/pid.cpp:808-850 | The schedule on the edit page becomes EditedSchedule of its old value; every other slot is unchanged |
| PidControl.PIDController.ShowRootPage | PlatformIO_Files/NodeVoordeur/src/pid.cpp:614-768 | Showing the status page takes one measurement (line 712): the temperatures are stored and the debounce takes one step |
| PidControl.PIDController.EditSchedulesPage | PlatformIO_Files/NodeVoordeur/src/pid.cpp:513-521 | While the oven is on, the status page is shown with its measurement; otherwise no sensor field changes |
| PidControl.PIDController.HandleActionWebPage | PlatformIO_Files/NodeVoordeur/src/pid.cpp:852-860 | While the oven is on, no schedule changes and the status page's measurement is taken. Otherwise the edit page's schedule is edited as ChangeParams and no sensor field changes |
| PidControl.PIDController.HandlePrevWebPage | PlatformIO_Files/NodeVoordeur/src/pid.cpp:770-778 | The page's schedule is edited even while the oven is on (finding 3), and the page moves to the previous slot. While the oven is on the status page's measurement is taken; otherwise no sensor field changes |
| PidControl.PIDController.HandleNextWebPage | PlatformIO_Files/NodeVoordeur/src/pid.cpp:780-788 | The page's schedule is edited even while the oven is on (finding 4), and the page moves to the next slot. While the oven is on the status page's measurement is taken; otherwise no sensor field changes |
| PidControl.PIDController.HandlePrevWebPageWhenOff | PlatformIO_Files/NodeVoordeur/src/pid.cpp:852-860 | The corrected Prev handler. While the oven is on, neither the schedules nor the page change and the status page's measurement is taken; otherwise as HandlePrevWebPage |
| PidControl.PIDController.HandleNextWebPageWhenOff | PlatformIO_Files/NodeVoordeur/src/pid.cpp:852-860 | The corrected Next handler. While the oven is on, neither the schedules nor the page change and the status page's measurement is taken; otherwise as HandleNextWebPage |
| PidControl.PIDController.SelectSchedule | PlatformIO_Files/NodeVoordeur/src/pid.cpp:1055-1068 | The selected schedule moves one slot forward or back, wrapping around |
| PidControl.PIDController.HandleSelectWebPage | PlatformIO_Files/NodeVoordeur/src/pid.cpp:790-806 | The selection moves whether or not the oven is on (finding 6), and the status page's measurement is taken |
| PidControl.PIDController.HandleSelectWebPageWhenOff | PlatformIO_Files/NodeVoordeur/src/pid.cpp:790-806 | The corrected select handlers: while the oven is on the selection stays; otherwise it moves as in HandleSelectWebPage. The measurement is taken in both cases |
| PidControl.SwitchOffIdempotent | PlatformIO_Files/NodeVoordeur/src/pid.cpp:953-959 | Switching off a controller that is already switched off changes nothing |
| PidControl.HoldThenOffRun | PlatformIO_Files/NodeVoordeur/src/pid.cpp:961-1000 | A run of [HOLD 100 degrees for 10 min, SWITCHED_OFF]: the hold sets the setpoint to 100. After the hold the controller is off but the oven stays on. One pass later the oven is off, and the switched-off edge reads true once, then false |
| PidControl.SelectDuringRunSwitchesSchedule | PlatformIO_Files/NodeVoordeur/src/pid.cpp:790-806 | As written, a run holding at 100 degrees goes on, after a "next schedule" request, at the same segment index of the next schedule (a ramp to 1200); the oven stays on and the setpoint is still 100 (finding 6) |
| DoorAccess.Ordinal | PlatformIO_Files/NodeVoordeur/src/main.cpp:98-110 | Each state's enum value indexes the 12-row table |
| DoorAccess.StateAt | PlatformIO_Files/NodeVoordeur/src/main.cpp:98-110 | The state with a given enum value |
| DoorAccess.OrdinalRoundTrip | PlatformIO_Files/NodeVoordeur/src/main.cpp:98-110 | Enum values and states correspond one to one |
| DoorAccess.InitialTable | PlatformIO_Files/NodeVoordeur/src/main.cpp:115-137 | The table has one row per state |
| DoorAccess.NeverStates | PlatformIO_Files/NodeVoordeur/src/main.cpp:124-136 | A state has no timeout exactly when it is NOCONN, WAITINGFORCARD, CLEARSTATUS or LOCKCLOSED |
| DoorAccess.LockOpenTimeout | PlatformIO_Files/NodeVoordeur/src/main.cpp:135 | The lock stays open 15 s, then the state moves to LOCKCLOSED |
| DoorAccess.InitialTableMisplacesReportCycle | PlatformIO_Files/NodeVoordeur/src/main.cpp:115-137 | As written, no row has an auto-report cycle, and OUTOFORDER and TRANSIENTERROR start with 5 minutes already in state (finding 5) |
| DoorAccess.IntendedTable | PlatformIO_Files/NodeVoordeur/src/main.cpp:115-137 | The corrected table has one row per state |
| DoorAccess.IntendedTableStartsClean | PlatformIO_Files/NodeVoordeur/src/main.cpp:115-137 | In the corrected table every counter starts at 0, and the two states report every 5 minutes; names, timeouts and fail states are as written |
| DoorAccess.InitialDoor | PlatformIO_Files/NodeVoordeur/src/main.cpp:139-149 | Boot: BOOTING with last state OUTOFORDER, so the first pass records a change; no cards counted; lock closed |
| DoorAccess.Action | PlatformIO_Files/NodeVoordeur/src/main.cpp:395-426 | Only the state, the lock and the rejected counter change. REJECTED counts one denial. The state changes exactly in CLEARSTATUS, REJECTED, APPROVED and LOCKCLOSED: to LOCKOPEN from APPROVED, to WAITINGFORCARD otherwise. The lock is open afterwards exactly when the state was APPROVED, or the lock was open and the state was not LOCKCLOSED |
| DoorAccess.SettledPassRunsAction | PlatformIO_Files/NodeVoordeur/src/main.cpp:395-426 | A pass with the change recorded and no timeout: APPROVED opens the lock and moves to LOCKOPEN; LOCKCLOSED closes it and moves to WAITINGFORCARD; CLEARSTATUS moves to WAITINGFORCARD; REJECTED counts the denial and moves to WAITINGFORCARD; every other state leaves the machine as it is |
| DoorAccess.UpdateKeepsTable | PlatformIO_Files/NodeVoordeur/src/main.cpp:115-123 | Replacing a row by one with the same name, timeout, fail state and report cycle keeps the table well formed |
| DoorAccess.RecordChange | PlatformIO_Files/NodeVoordeur/src/main.cpp:362-370 | Only the last state's row changes, gaining the whole seconds spent. The change is recorded at `now`; nothing else changes |
| DoorAccess.TimeOut | PlatformIO_Files/NodeVoordeur/src/main.cpp:372-383 | Only the current state's row changes, gaining one timeout. The machine moves to the fail state; nothing else changes |
| DoorAccess.LoopStep | PlatformIO_Files/NodeVoordeur/src/main.cpp:350-427 | A pass keeps the table size and never changes the approved counter or the connect flag; the rejected counter never falls |
| DoorAccess.LoopStepKeepsTable | PlatformIO_Files/NodeVoordeur/src/main.cpp:350-427 | A pass never changes a row's name, timeout, fail state or report cycle |
| DoorAccess.Approve | PlatformIO_Files/NodeVoordeur/src/main.cpp:260-269 | In WAITINGFORCARD or CHECKINGCARD: one more approved card, the lock opens, the state becomes APPROVED. Otherwise nothing changes |
| DoorAccess.Deny | PlatformIO_Files/NodeVoordeur/src/main.cpp:270-278 | In LOCKOPEN or LOCKCLOSED nothing changes; otherwise the state becomes REJECTED and one denial is counted |
| DoorAccess.SwipeCard | PlatformIO_Files/NodeVoordeur/src/main.cpp:298-314 | From CLEARSTATUS on, the swipe is claimed and changes nothing; before it, the swipe is declined and the state becomes CHECKINGCARD |
| DoorAccess.Connect | PlatformIO_Files/NodeVoordeur/src/main.cpp:246-252 | Only the first connection forces WAITINGFORCARD; the flag ends cleared |
| DoorAccess.ReportError | PlatformIO_Files/NodeVoordeur/src/main.cpp:256-259 | Any error forces WAITINGFORCARD and changes nothing else |
| DoorAccess.TickRecordsChangeFirst | PlatformIO_Files/NodeVoordeur/src/main.cpp:362-370 | An unrecorded change is only recorded: no timeout or action runs, and counters, lock and other rows are untouched |
| DoorAccess.TimeoutCountedOnce | PlatformIO_Files/NodeVoordeur/src/main.cpp:372-383 | After its maximum time a state moves to its fail state. Exactly one timeout is counted, in its row only; lock and card counters are untouched |
| DoorAccess.NeverTimesOut | PlatformIO_Files/NodeVoordeur/src/main.cpp:372-373 | A state without a timeout only runs its action, however long it has lasted |
| DoorAccess.DoorLevelChanges | PlatformIO_Files/NodeVoordeur/src/main.cpp:395-426 | A pass changes the lock only as the APPROVED action opening it or the LOCKCLOSED action closing it |
| DoorAccess.GuardsByOrdinal | PlatformIO_Files/NodeVoordeur/src/main.cpp:272 | `> REJECTED` holds exactly for LOCKOPEN and LOCKCLOSED; `> CHECKINGCARD` exactly from CLEARSTATUS on (line 300) |
| DoorAccess.ConnectOnce | PlatformIO_Files/NodeVoordeur/src/main.cpp:246-252 | Connecting twice acts as connecting once |
| DoorAccess.Apply | PlatformIO_Files/NodeVoordeur/src/main.cpp:246-314 | Any event keeps the table size |
| DoorAccess.RunKeepsTableAndCounters | PlatformIO_Files/NodeVoordeur/src/main.cpp:148-149 | Over any run of events: the table keeps its configuration; neither card counter falls; the approved counter grows by at most one per event |
| DoorAccess.BootThenConnect | PlatformIO_Files/NodeVoordeur/src/main.cpp:246-252 | After boot the first connection brings WAITINGFORCARD, and the next pass records that change |
| DoorAccess.DenialCountedTwice | PlatformIO_Files/NodeVoordeur/src/main.cpp:276 | As written, one denial while waiting counts two rejected cards by the time the machine waits again (finding 1) |
| DoorAccess.DenyIntended | PlatformIO_Files/NodeVoordeur/src/main.cpp:270-278 | Corrected onDenied: it is ignored in APPROVED, LOCKOPEN and LOCKCLOSED; otherwise it only sets REJECTED |
| DoorAccess.DenialCountedOnce | PlatformIO_Files/NodeVoordeur/src/main.cpp:406-408 | With the corrected handler one denial counts one rejected card |
| DoorAccess.DenialAfterApprovalLeavesDoorOpen | PlatformIO_Files/NodeVoordeur/src/main.cpp:272 | As written, approval then denial brings the machine back to WAITINGFORCARD with the lock still open (finding 2) |
| DoorAccess.WaitingKeepsDoor | PlatformIO_Files/NodeVoordeur/src/main.cpp:400-402 | A settled WAITINGFORCARD pass changes nothing, so nothing closes that open lock |
| DoorAccess.DenialAfterApprovalClosesDoor | PlatformIO_Files/NodeVoordeur/src/main.cpp:260-278 | With the corrected handler the denial is ignored: the lock opens, and after 15 s it closes before the machine waits again, with one approval and no denial counted |
| DoorAccess.DoorNode.constructor | PlatformIO_Files/NodeVoordeur/src/main.cpp:115-149 | The fresh node holds InitialDoor and a well-formed table |
| DoorAccess.DoorNode.Tick | PlatformIO_Files/NodeVoordeur/src/main.cpp:350-427 | The globals and the table after loop() are LoopStep of those before, and the table stays well formed |
| DoorAccess.DoorNode.RecordStateChange | PlatformIO_Files/NodeVoordeur/src/main.cpp:362-370 | The in-place update is RecordChange |
| DoorAccess.DoorNode.TakeTimeout | PlatformIO_Files/NodeVoordeur/src/main.cpp:372-383 | The in-place update is TimeOut |
| DoorAccess.DoorNode.RunAction | PlatformIO_Files/NodeVoordeur/src/main.cpp:395-426 | The in-place update is Action |
| DoorAccess.DoorNode.OnApproval | PlatformIO_Files/NodeVoordeur/src/main.cpp:260-269 | The in-place update is Approve |
| DoorAccess.DoorNode.OnDenied | PlatformIO_Files/NodeVoordeur/src/main.cpp:270-278 | The in-place update is Deny (as written) |
| DoorAccess.DoorNode.OnSwipe | PlatformIO_Files/NodeVoordeur/src/main.cpp:298-314 | The in-place update and the answer are SwipeCard |
| DoorAccess.DoorNode.OnConnect | PlatformIO_Files/NodeVoordeur/src/main.cpp:246-252 | The in-place update is Connect |
| DoorAccess.DoorNode.OnError | PlatformIO_Files/NodeVoordeur/src/main.cpp:256-259 | The in-place update is ReportError |
| DoorAccess.ApprovalRunOpensDoor | PlatformIO_Files/NodeVoordeur/src/main.cpp:246-314 | Connect, a pass, a swipe, a pass, the approval and two passes end in LOCKOPEN: lock open, one approved card, the swipe declined |
| DoorAccess.ApprovedSwipeOpensDoor | PlatformIO_Files/NodeVoordeur/src/main.cpp:350-427 | The same run on a freshly constructed node ends in LOCKOPEN with the lock open and one approved card |

## Left out

- Loading and saving schedules in flash (SPIFFS) is left out; `Begin` starts from the schedules as constructed. This is file I/O.
- The HTML pages and the web-server registration (`addToWebServer`) are left out, because they are presentation. The handlers are modelled from the parsed form on. The one change of state that rendering makes is modelled: the status page's measurement (ShowRootPage), which handleActionWebPage, the prev/next edit handlers and the select handlers reach.
- `handleSwitchOvenOnPage` and `handleSwitchOvenOffPage` (pid.cpp:863-879) are left out. They are only compiled in a debug build, and they call the modelled SwitchOvenOn/SwitchOvenOff.
- The PID library's `Compute` is left out. Its outcome is an input: whether it produced an output this pass, and the output, bounded by the window width.
- SetGoalOvenTemp: the brief change of the PID output limits on a lower goal is not modelled, because it acts only inside the PID library.
- The MAX31856 driver, its set-up in `begin`, and the logging of individual fault bits are left out. The reading is a parameter.
- Parsing the numbers of the form (`String::toDouble`, `toInt`) is left out; they arrive already converted.
- TruncatedName: the name is a sequence of characters and the model cuts it at 63 characters. The source receives the UTF-8 bytes of the form field and `strncpy` cuts at 63 bytes (pid.cpp:813-815). The two agree for ASCII names. For other names the source keeps fewer characters and can cut one in half, and the model does not capture this.
- NameKeptWhenItFits: in the source a name is stored unchanged only when its UTF-8 encoding has at most 63 bytes. A name of 63 non-ASCII characters is kept whole by the model and cut by the source. This is the character-for-byte difference of TruncatedName.
- EditedPoint: the duration arrives as a `nat`. The source stores `toInt()` into an `unsigned int` (pid.cpp:834, pid.h:129), so a negative entry wraps to a duration of about 4 billion minutes. The form model (`map<nat, nat>`) cannot express a negative entry, so this wrap is not modelled.
- Floating point is left out. Temperatures and the ramp use exact `real` arithmetic, so the ramp lemmas hold exactly rather than up to rounding. RampOneStepShort gives the value a segment really ends on.
- `millis()` wrap-around after 49 days and the wrap of the 32-bit counters are left out: time and counters are unbounded naturals, and time never runs backwards.
- StartRun, MoveToPoint: the segment end time adds `timeToNextPoint * 60000`, an `unsigned int` product (pid.cpp:941, 985; pid.h:129) that wraps for a duration of 71583 minutes or more. The model's product is unbounded. The edit page caps the field at 1440 minutes (pid.cpp:598, pid.h:89), so only a hand-made request reaches the wrap.
- The trivial getters of PIDController are left out: getValidTemps, getTempFault, getInternalTemp, getThermoCoupleTemp, getAllowPidControllerIsOn, getSSRIsOn, getSelectedSchedule, getScheduleName and getCurrentSegment (pid.cpp:233-283). They return a field.
- `getCurrentMode`, `getCurrentGoal` and `getTimeLeft` (pid.cpp:285-307) are left out. They index `schedulePoint[currentPoint]` without testing `ovenIsOn`. After switching on an empty schedule, or after a run that ends because no used segment is left, `currentPoint` is 20, one past the segment array, so they read outside the schedule; the model has no counterpart for that read. `getTimeLeft` also reads `millis()` and `segmentStartTime`, and its unsigned subtraction wraps once the segment has outlived its duration.
- In main.cpp, `setup()` (pins, Wi-Fi, MQTT, OTA) is left out. So are the JSON report, the EEPROM-clearing button, the NFC reader check, the auto-report log lines and the LED patterns. They are I/O or logging; the LED column of the table is dropped.
- REBOOT: the action calls the library's `delayedReboot`. In the model the state stays put, since the reboot itself is outside the program.
- One pass of loop() reads the clock once. The source reads `millis()` several times per pass. This difference is not modelled.
- The scans of switchOvenOn and scheduleLoop run on a local index and then assign currentPoint in one step. The source advances the field itself. The end value is the same.
- DoorNode keeps the as-written `OnDenied`. The corrected handler `DenyIntended` and the corrected `IntendedTable` are stated on values only.

## Findings

| source | as written | input that shows it | evidently intended | confidence | as-written member | corrected member |
|---|---|---|---|---|---|---|
| PlatformIO_Files/NodeVoordeur/src/main.cpp:276 | onDenied increments `rejectedCards`, and the REJECTED action of loop() (line 407) increments it again | waiting for a card; one denial; two passes of loop() | each denial counted once | not executed | DoorAccess.DenialCountedTwice | DoorAccess.DenialCountedOnce |
| PlatformIO_Files/NodeVoordeur/src/main.cpp:272 | onDenied ignores a denial only above REJECTED, so APPROVED is overwritten after openDoor has run | waiting for a card; approval, then a denial before the next pass; two passes | a denial after an approval is ignored and the lock closes after 15 s | not executed | DoorAccess.DenialAfterApprovalLeavesDoorOpen | DoorAccess.DenialAfterApprovalClosesDoor |
| PlatformIO_Files/NodeVoordeur/src/pid.cpp:770-778 | handlePrevWebPage calls changeParams without handleActionWebPage's `ovenIsOn` guard | oven running; a prev submit of the edit page | schedules are not edited while the oven runs | not executed | PidControl.PIDController.HandlePrevWebPage | PidControl.PIDController.HandlePrevWebPageWhenOff |
| PlatformIO_Files/NodeVoordeur/src/pid.cpp:780-788 | handleNextWebPage calls changeParams without handleActionWebPage's `ovenIsOn` guard | oven running; a next submit of the edit page | schedules are not edited while the oven runs | not executed | PidControl.PIDController.HandleNextWebPage | PidControl.PIDController.HandleNextWebPageWhenOff |
| PlatformIO_Files/NodeVoordeur/src/main.cpp:115-136 | the fifth initialiser of each `state[]` row lands in `timeInState`, which the struct declares before `autoReportCycle`, so `autoReportCycle` is 0 everywhere | the initial table | OUTOFORDER and TRANSIENTERROR report every 5 min and all counters start at 0 | not executed | DoorAccess.InitialTableMisplacesReportCycle | DoorAccess.IntendedTableStartsClean |
| PlatformIO_Files/NodeVoordeur/src/pid.cpp:790-806 | handlePrevSelectWebPage and handleNextSelectWebPage change `selectedSchedule` without an `ovenIsOn` guard, and scheduleLoop then reads the newly selected schedule at the old `currentPoint` and end time | a run on a schedule holding at 100 degrees; a "next schedule" request | the run keeps executing the schedule it was started on | not executed | PidControl.SelectDuringRunSwitchesSchedule | PidControl.PIDController.HandleSelectWebPageWhenOff |
