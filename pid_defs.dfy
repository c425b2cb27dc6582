/**
 * Types, capacities, time constants and thresholds of the kiln controller
 * (include/pid.h): the control mode of a segment, a segment, a named
 * schedule of a fixed number of segments, and their default values.
 */
module PidDefs {

  // ---- constants (pid.h:48-106) ----

  /** Consecutive faulty thermocouple reads tolerated before a fault is declared. */
  const MAX_TEMPFAULTS: nat := 5
  /** Minimum time between two thermocouple samples of the PID loop, in ms. */
  const PID_SAMPLE_TIME: nat := 500
  const MAX_POINTS_PER_SCHEDULE: nat := 20
  const MAX_NR_OF_SCHEDULES: nat := 20
  const MIN_OVEN_TEMP: real := 0.0
  const MAX_OVEN_TEMP: real := 1500.0
  /** Hard cap on one oven run, in hours. */
  const MAX_OVEN_ON_TIME: nat := 100
  /** Segment durations, in minutes. */
  const MIN_SEGMENT_TIME: nat := 0
  const MAX_SEGMENT_TIME: nat := 24 * 60
  /** Period of one ramp step, in ms. */
  const SCHEDULE_SAMPLE_TIME: nat := 1000
  /** Period of the fan and lamp supervisor, in ms. */
  const CHECK_TEMP_SAMPLE_TIME: nat := 1000
  /** Cold-junction temperature above which the fan runs, in degrees Celsius. */
  const FAN_ON_TEMP: real := 50.0
  /** Thermocouple temperature above which the signal lamp is lit, in degrees Celsius. */
  const LAMP_ON_TEMP: real := 40.0

  /** Size of the `char scheduleName[64]` buffer, terminator included (pid.h:134). */
  const SCHEDULE_NAME_SIZE: nat := 64
  /** Default width of the SSR time-proportioning window, in ms (pid.h:142). */
  const DEFAULT_OUTPUT_POWER_RANGE: nat := 10000
  /** Value `begin` gives the setpoint when no other is passed (pid.h:142). */
  const DEFAULT_INITIAL_OVEN_TEMP: real := -100.0

  const MS_PER_MINUTE: nat := 60000
  const MS_PER_HOUR: nat := 3600000

  /** The run-time cap in ms, as scheduleLoop compares it (pid.cpp:968). */
  const MAX_OVEN_ON_TIME_MS: nat := MAX_OVEN_ON_TIME * MS_PER_HOUR

  /** Temperature returned by measureOvenTemps on a faulty read (pid.cpp:220);
      anything at or below it counts as invalid. */
  const INVALID_TEMP: real := -300.0

  // ---- types (pid.h:108-136) ----

  /** tempMode_t: how the controller treats one segment. */
  datatype TempMode = SWITCHED_OFF | HOLD | RAMP

  /** schedulePoint_t: one segment of a schedule. */
  datatype SchedulePoint = SchedulePoint(
    tempMode: TempMode,
    tempGoal: real,
    timeToNextPoint: nat,   // minutes
    segmentIsUsed: bool)

  /** ovenSchedule_t: a named schedule; the name is what the C string in the
      64-byte buffer holds, with each character standing for one element of
      the buffer (at most 63 before the terminator). */
  datatype OvenSchedule = OvenSchedule(
    scheduleName: string,
    schedulePoint: seq<SchedulePoint>)

  /** The default member initialisers of schedulePoint_t (pid.h:126-131). */
  const DefaultPoint: SchedulePoint :=
    SchedulePoint(SWITCHED_OFF, MIN_OVEN_TEMP, MIN_SEGMENT_TIME, false)

  /** A schedule fits the fixed C layout: a name that fits the buffer and
      exactly MAX_POINTS_PER_SCHEDULE segments. */
  predicate WellFormed(s: OvenSchedule) {
    |s.scheduleName| < SCHEDULE_NAME_SIZE &&
    |s.schedulePoint| == MAX_POINTS_PER_SCHEDULE
  }

  /** The schedules the controller stores: those that fit the C layout. */
  type Schedule = s: OvenSchedule | WellFormed(s) witness EmptySchedule()

  /** Index of a schedule slot (currentSchedule, selectedSchedule). */
  type ScheduleIndex = i: nat | i < MAX_NR_OF_SCHEDULES

  /** Index of a segment, or MAX_POINTS_PER_SCHEDULE once a scan for a used
      segment has run off the end (currentPoint). */
  type PointIndex = i: nat | i <= MAX_POINTS_PER_SCHEDULE

  /** A schedule slot as it is after construction and initSchedules
      (pid.cpp:308-312): an empty name and default segments only. */
  function EmptySchedule(): (s: OvenSchedule)
    ensures WellFormed(s)
    ensures s.scheduleName == ""
    ensures forall i :: 0 <= i < |s.schedulePoint| ==>
      s.schedulePoint[i].tempMode == SWITCHED_OFF &&
      s.schedulePoint[i].tempGoal == MIN_OVEN_TEMP &&
      s.schedulePoint[i].timeToNextPoint == MIN_SEGMENT_TIME &&
      !s.schedulePoint[i].segmentIsUsed
  {
    OvenSchedule("", seq(MAX_POINTS_PER_SCHEDULE, _ => DefaultPoint))
  }

  /** The controller outputs and ramp state of class PIDController that
      entering a segment sets or keeps (pid.h:208-262). */
  datatype ControlState = ControlState(
    allowPIDControllerIsOn: bool,
    pulseStartTime: nat,
    SSRIsOn: bool,
    setPointTemp: real,
    outputPower: real,
    rampValue: real,
    deltaTemp: real,
    scheduleStartTime: nat)

  /** Every value of TempMode is one of the three modes of tempMode_t. */
  lemma ThreeModes(m: TempMode)
    ensures m == SWITCHED_OFF || m == HOLD || m == RAMP
  {
  }
}
