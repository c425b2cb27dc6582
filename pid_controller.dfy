/**
 * The kiln controller object (class PIDController, include/pid.h and
 * src/pid.cpp): the schedule table it owns, the thermocouple fault
 * debounce, the SSR time-proportioning output, the schedule engine that
 * walks the selected schedule segment by segment, the fan and lamp
 * supervisor and the schedule-edit handlers of the web interface.
 *
 * Every method takes the state it reads from the fields and the clock as a
 * `now` parameter in milliseconds; the thermocouple reading, the outcome of
 * the PID library's Compute and the web form arrive as parameters.
 */
module PidControl {
  import opened PidDefs
  import opened PidLogic

  class PIDController {
    // ---- schedules (pid.h:232-242) ----
    const allSchedules: array<Schedule>
    var currentSchedule: ScheduleIndex   // the schedule shown on the edit page
    var selectedSchedule: ScheduleIndex  // the schedule a run executes

    // ---- thermocouple (pid.h:201-203, 222-226) ----
    var currentThermoCoupleTemp: real
    var currentInternalTemp: real
    var validTemps: bool
    var fault: Byte
    var prevFault: Byte
    var tempFault: bool
    var tempFaultCount: nat
    var getNewTemp: bool

    // ---- controller output (pid.h:208-220) ----
    var setPointTemp: real
    var outputPower: real
    var currentOvenTemp: real
    var SSRPowerRange: nat
    var pulseStartTime: nat
    var startSampleTime: nat
    var allowPIDControllerIsOn: bool
    var SSRIsOn: bool

    // ---- schedule run (pid.h:244-264) ----
    var ovenIsOn: bool
    var ovenStartTime: nat
    var currentPoint: PointIndex
    var currentPointEndTime: nat  // ms since ovenStartTime at which the current segment ends
    var previousGoal: real
    var nextGoal: real
    var rampIsOn: bool
    var deltaTemp: real
    var rampValue: real
    var scheduleStartTime: nat    // start of the current ramp step
    var segmentStartTime: nat

    // ---- approval, edge flags, supervisor (pid.h:268-278) ----
    var theUserIsApproved: bool
    var ovenSwitchedOn: bool
    var ovenSwitchedOff: bool
    var checkTempStartTime: nat
    var FANIsOn: bool
    var LAMPIsOn: bool

    /** The object invariant: the fixed number of schedule slots, the
        debounce invariant, and a running oven always sits on an existing
        segment. (The field types keep the schedules well formed and the
        indices in range.) */
    ghost predicate Valid()
      reads this`tempFaultCount, this`tempFault, this`currentPoint, this`ovenIsOn
    {
      allSchedules.Length == MAX_NR_OF_SCHEDULES &&
      DebounceOk(Debounce()) &&
      (ovenIsOn ==> currentPoint < MAX_POINTS_PER_SCHEDULE)
    }

    /** The clock has not run backwards: every stored start time lies at
        or before `now`. */
    ghost predicate StartedBy(now: nat)
      reads this`pulseStartTime, this`startSampleTime, this`ovenStartTime,
            this`scheduleStartTime, this`segmentStartTime, this`checkTempStartTime
    {
      pulseStartTime <= now && startSampleTime <= now && ovenStartTime <= now &&
      scheduleStartTime <= now && segmentStartTime <= now && checkTempStartTime <= now
    }

    function Debounce(): FaultDebounce
      reads this`tempFaultCount, this`tempFault
    {
      FaultDebounce(tempFaultCount, tempFault)
    }

    /** The segments of the schedule a run executes. */
    ghost function SelectedPoints(): (points: seq<SchedulePoint>)
      reads this`selectedSchedule, allSchedules
      requires allSchedules.Length == MAX_NR_OF_SCHEDULES
      ensures |points| == MAX_POINTS_PER_SCHEDULE
    {
      allSchedules[selectedSchedule].schedulePoint
    }

    /** The state switchOvenOff leaves behind (pid.cpp:953-959). */
    ghost predicate SwitchedOff()
      reads this`ovenIsOn, this`allowPIDControllerIsOn, this`SSRIsOn,
            this`ovenSwitchedOn, this`ovenSwitchedOff
    {
      !ovenIsOn && !allowPIDControllerIsOn && !SSRIsOn && !ovenSwitchedOn && ovenSwitchedOff
    }

    /** The fields measureOvenTemps writes, after one call on `reading`. */
    twostate predicate Measured(reading: SensorReading)
      reads this
    {
      currentInternalTemp == reading.coldJunctionTemp &&
      currentThermoCoupleTemp == reading.thermocoupleTemp &&
      fault == reading.fault && prevFault == reading.fault &&
      validTemps == (reading.fault == 0) &&
      Debounce() == DebounceStep(old(Debounce()), reading.fault != 0)
    }

    twostate predicate SensorUnchanged()
      reads this
    {
      unchanged(this`currentInternalTemp, this`currentThermoCoupleTemp, this`fault,
                this`prevFault, this`validTemps, this`tempFaultCount, this`tempFault)
    }

    twostate predicate RunFlagsUnchanged()
      reads this
    {
      unchanged(this`ovenIsOn, this`allowPIDControllerIsOn, this`SSRIsOn,
                this`ovenSwitchedOn, this`ovenSwitchedOff)
    }

    /** The fields selectMode may write apart from the controller flags. */
    twostate predicate EntryFieldsUnchanged()
      reads this
    {
      unchanged(this`segmentStartTime, this`previousGoal, this`nextGoal, this`setPointTemp,
                this`outputPower, this`pulseStartTime, this`rampIsOn, this`rampValue,
                this`deltaTemp, this`scheduleStartTime)
    }

    /** The controller fields selectMode reads or may leave alone, as a
        value, so that a segment entry can be stated against the values
        they had before it. */
    function Control(): ControlState
      reads this`allowPIDControllerIsOn, this`pulseStartTime, this`SSRIsOn, this`setPointTemp,
            this`outputPower, this`rampValue, this`deltaTemp, this`scheduleStartTime
    {
      ControlState(allowPIDControllerIsOn, pulseStartTime, SSRIsOn, setPointTemp,
                   outputPower, rampValue, deltaTemp, scheduleStartTime)
    }

    /** The controller after the SWITCHED_OFF branch of selectMode
        (pid.cpp:887-892), entered from `before`: goal and setpoint zero,
        controller and SSR off, no ramp, the window and the ramp state
        untouched. */
    ghost predicate OffEntered(before: ControlState)
      reads this
    {
      nextGoal == 0.0 && setPointTemp == 0.0 && outputPower == 0.0 &&
      !allowPIDControllerIsOn && !SSRIsOn && !rampIsOn &&
      pulseStartTime == before.pulseStartTime && rampValue == before.rampValue &&
      deltaTemp == before.deltaTemp && scheduleStartTime == before.scheduleStartTime
    }

    /** The controller after the HOLD branch of selectMode (pid.cpp:893-900),
        which a RAMP without duration repeats (pid.cpp:906-910): controller
        on, its window restarted only if it was off, the setpoint jumps to
        the goal, no ramp, the SSR and the ramp state untouched. */
    ghost predicate HoldEntered(now: nat, before: ControlState)
      reads this
    {
      allowPIDControllerIsOn &&
      pulseStartTime == (if before.allowPIDControllerIsOn then before.pulseStartTime else now) &&
      setPointTemp == nextGoal && outputPower == 0.0 && !rampIsOn &&
      SSRIsOn == before.SSRIsOn && rampValue == before.rampValue &&
      deltaTemp == before.deltaTemp && scheduleStartTime == before.scheduleStartTime
    }

    /** The controller after the RAMP branch of selectMode for a segment of
        `minutes` minutes (pid.cpp:902-917): controller on, and a ramp that
        starts now from `prevGoal` and adds deltaTemp per step; the SSR and
        the setpoint are left to the next passes. */
    ghost predicate RampEntered(now: nat, prevGoal: real, minutes: nat, before: ControlState)
      reads this
      requires minutes >= 1
    {
      allowPIDControllerIsOn &&
      pulseStartTime == (if before.allowPIDControllerIsOn then before.pulseStartTime else now) &&
      rampValue == prevGoal && deltaTemp == RampDelta(prevGoal, nextGoal, minutes) &&
      scheduleStartTime == now && rampIsOn &&
      SSRIsOn == before.SSRIsOn && setPointTemp == before.setPointTemp &&
      outputPower == before.outputPower
    }

    /** The state after selectMode has entered segment `p`, coming from
        goal `prevGoal` and controller state `before` (pid.cpp:880-921). */
    ghost predicate SegmentEntered(now: nat, prevGoal: real, p: SchedulePoint, before: ControlState)
      reads this
    {
      segmentStartTime == now && previousGoal == prevGoal &&
      match p.tempMode
      case SWITCHED_OFF => OffEntered(before)
      case HOLD => nextGoal == p.tempGoal && HoldEntered(now, before)
      case RAMP =>
        nextGoal == p.tempGoal &&
        if p.timeToNextPoint < 1 then HoldEntered(now, before)
        else RampEntered(now, prevGoal, p.timeToNextPoint, before)
    }

    /** The default member initialisers of pid.h (pid.h:203-278), with the
        members pid.h leaves uninitialised zero as for an object in static
        storage, and every schedule slot empty. */
    constructor ()
      ensures Valid() && fresh(allSchedules)
      ensures forall k :: 0 <= k < allSchedules.Length ==> allSchedules[k] == EmptySchedule()
      ensures !ovenIsOn && !allowPIDControllerIsOn && !SSRIsOn && !tempFault
      ensures !ovenSwitchedOn && !ovenSwitchedOff
      ensures tempFaultCount == 0 && fault == 0 && prevFault == 0 && !validTemps && getNewTemp
      ensures selectedSchedule == 0 && currentSchedule == 0 && currentPoint == 0
      ensures currentPointEndTime == 0 && previousGoal == 0.0 && nextGoal == 0.0
      ensures !rampIsOn && deltaTemp == 0.0 && rampValue == 0.0
      ensures !theUserIsApproved && !FANIsOn && !LAMPIsOn
      ensures setPointTemp == 0.0 && outputPower == 0.0 && SSRPowerRange == 0
      ensures StartedBy(0)
    {
      allSchedules := new Schedule[MAX_NR_OF_SCHEDULES](_ => EmptySchedule());
      currentSchedule, selectedSchedule := 0, 0;
      currentThermoCoupleTemp, currentInternalTemp, validTemps := 0.0, 0.0, false;
      fault, prevFault, tempFault, tempFaultCount, getNewTemp := 0, 0, false, 0, true;
      setPointTemp, outputPower, currentOvenTemp, SSRPowerRange := 0.0, 0.0, 0.0, 0;
      pulseStartTime, startSampleTime := 0, 0;
      allowPIDControllerIsOn, SSRIsOn := false, false;
      ovenIsOn, ovenStartTime, currentPoint, currentPointEndTime := false, 0, 0, 0;
      previousGoal, nextGoal, rampIsOn, deltaTemp, rampValue := 0.0, 0.0, false, 0.0, 0.0;
      scheduleStartTime, segmentStartTime := 0, 0;
      theUserIsApproved, ovenSwitchedOn, ovenSwitchedOff := false, false, false;
      checkTempStartTime, FANIsOn, LAMPIsOn := 0, false, false;
    }

    /** begin (pid.cpp:27-109) without the pin, sensor and PID-library set-up
        and without loading the schedules from flash: the window width and
        the setpoint are taken over, every schedule name is cleared and the
        oven is switched off. The store to checkTempStartTime in begin sits
        after the `break` of the switch's default case and never runs. */
    method Begin(now: nat, outputPowerRange: nat := DEFAULT_OUTPUT_POWER_RANGE,
                 initialOvenTemp: real := DEFAULT_INITIAL_OVEN_TEMP)
      requires Valid() && StartedBy(now)
      modifies this`SSRPowerRange, this`allowPIDControllerIsOn, this`SSRIsOn, this`pulseStartTime,
               this`setPointTemp, this`ovenIsOn, this`ovenSwitchedOn, this`ovenSwitchedOff, allSchedules
      ensures Valid() && StartedBy(now)
      ensures SSRPowerRange == outputPowerRange && pulseStartTime == now
      ensures setPointTemp == initialOvenTemp
      ensures forall k :: 0 <= k < allSchedules.Length ==>
        allSchedules[k] == old(allSchedules[k]).(scheduleName := "")
      ensures SwitchedOff()
    {
      SSRPowerRange := outputPowerRange;
      allowPIDControllerIsOn := false;
      // initSchedules (pid.cpp:308-312)
      for i := 0 to MAX_NR_OF_SCHEDULES
        modifies allSchedules
        invariant forall k :: 0 <= k < i ==> allSchedules[k] == old(allSchedules[k]).(scheduleName := "")
        invariant forall k :: i <= k < allSchedules.Length ==> allSchedules[k] == old(allSchedules[k])
      {
        allSchedules[i] := allSchedules[i].(scheduleName := "");
      }
      pulseStartTime := now;
      setPointTemp := initialOvenTemp;
      SwitchOvenOff();
    }

    method SetControllerOn(now: nat)
      modifies this`allowPIDControllerIsOn, this`pulseStartTime
      ensures allowPIDControllerIsOn && pulseStartTime == now
    {
      allowPIDControllerIsOn := true;
      pulseStartTime := now;
    }

    method SetControllerOff()
      modifies this`allowPIDControllerIsOn, this`SSRIsOn
      ensures !allowPIDControllerIsOn && !SSRIsOn
    {
      allowPIDControllerIsOn := false;
      SSRIsOn := false;
    }

    /** setGoalOvenTemp (pid.cpp:171-178); the short output-limit pulse it
        gives the PID library on a lower goal is not modelled. */
    method SetGoalOvenTemp(newOvenTemp: real, ignoreNegativeValue: bool)
      modifies this`setPointTemp, this`outputPower
      ensures setPointTemp == newOvenTemp && outputPower == 0.0
    {
      setPointTemp := newOvenTemp;
      outputPower := 0.0;
    }

    /** measureOvenTemps (pid.cpp:180-231): both temperatures are stored
        whatever the fault register says; a faulty read returns
        INVALID_TEMP and steps the debounce, a good read clears it. */
    method MeasureOvenTemps(reading: SensorReading) returns (t: real)
      requires Valid()
      modifies this`currentInternalTemp, this`currentThermoCoupleTemp, this`fault,
               this`prevFault, this`validTemps, this`tempFaultCount, this`tempFault
      ensures Valid()
      ensures t == MeasuredTemp(reading)
      ensures Measured(reading)
    {
      currentInternalTemp := reading.coldJunctionTemp;
      currentThermoCoupleTemp := reading.thermocoupleTemp;
      fault := reading.fault;
      if fault != 0 {
        validTemps := false;
        prevFault := fault;
        if tempFaultCount < MAX_TEMPFAULTS {
          tempFaultCount := tempFaultCount + 1;
        } else {
          tempFault := true;
        }
        t := INVALID_TEMP;
      } else {
        validTemps := true;
        tempFaultCount := 0;
        tempFault := false;
        prevFault := 0;
        t := currentThermoCoupleTemp;
      }
    }

    /** Whether the next PIDloop pass takes a fresh thermocouple sample. */
    ghost predicate SampleDue(now: nat)
      reads this`getNewTemp, this`startSampleTime
      requires startSampleTime <= now
    {
      getNewTemp && now - startSampleTime > PID_SAMPLE_TIME
    }

    /** The sampling half of PIDloop (pid.cpp:115-126): a fresh reading
        once the sample period has passed and a new sample is wanted,
        otherwise the last thermocouple temperature again. */
    method SampleOvenTemp(now: nat, reading: SensorReading)
      requires Valid() && StartedBy(now)
      modifies this`startSampleTime, this`currentOvenTemp, this`getNewTemp,
               this`currentInternalTemp, this`currentThermoCoupleTemp, this`fault,
               this`prevFault, this`validTemps, this`tempFaultCount, this`tempFault
      ensures Valid() && StartedBy(now)
      ensures old(SampleDue(now)) ==>
        Measured(reading) && currentOvenTemp == MeasuredTemp(reading) &&
        startSampleTime == now && !getNewTemp
      ensures !old(SampleDue(now)) ==>
        SensorUnchanged() && currentOvenTemp == old(currentThermoCoupleTemp) &&
        unchanged(this`startSampleTime, this`getNewTemp)
    {
      if getNewTemp && now - startSampleTime > PID_SAMPLE_TIME {
        startSampleTime := now;
        currentOvenTemp := MeasureOvenTemps(reading);
        getNewTemp := false;
      } else {
        currentOvenTemp := currentThermoCoupleTemp;
      }
    }

    /** The output half of PIDloop (pid.cpp:128-156): on a valid temperature
        the PID output is taken over and the SSR follows the time-proportioned
        window; on an invalid one the SSR is forced off once the debounce has
        declared a fault. */
    method DriveSsr(now: nat, computed: bool, power: real)
      requires Valid() && StartedBy(now)
      requires 0.0 <= power <= SSRPowerRange as real
      modifies this`outputPower, this`getNewTemp, this`startSampleTime,
               this`pulseStartTime, this`SSRIsOn, this`allowPIDControllerIsOn
      ensures Valid() && StartedBy(now)
      ensures currentOvenTemp > INVALID_TEMP ==>
        outputPower == (if computed then power else old(outputPower)) &&
        getNewTemp == (computed || old(getNewTemp)) &&
        startSampleTime == (if computed then now else old(startSampleTime)) &&
        pulseStartTime == PulseWindowStart(now, old(pulseStartTime), SSRPowerRange) &&
        (SSRIsOn <==> SsrOnAt(now - pulseStartTime, outputPower)) &&
        allowPIDControllerIsOn == old(allowPIDControllerIsOn)
      ensures currentOvenTemp <= INVALID_TEMP ==>
        unchanged(this`outputPower, this`pulseStartTime, this`getNewTemp, this`startSampleTime) &&
        (tempFault ==> !SSRIsOn && !allowPIDControllerIsOn) &&
        (!tempFault ==> unchanged(this`SSRIsOn, this`allowPIDControllerIsOn))
    {
      if currentOvenTemp > INVALID_TEMP {
        if computed {
          outputPower := power;
          getNewTemp := true;
          startSampleTime := now;
        }
        if now - pulseStartTime > SSRPowerRange {
          pulseStartTime := pulseStartTime + SSRPowerRange;
        }
        SSRIsOn := (now - pulseStartTime) as real < outputPower;
      } else {
        if tempFault {
          // switch off SSR to prevent overheating
          SSRIsOn := false;
          allowPIDControllerIsOn := false;
        }
      }
    }

    /** PIDloop (pid.cpp:111-158), which does nothing while the controller
        is off. `computed` and `power` stand for the PID library's Compute:
        whether it produced a new output this pass, and that output, bounded
        by the window width. */
    method PidLoop(now: nat, reading: SensorReading, computed: bool, power: real)
      requires Valid() && StartedBy(now)
      requires 0.0 <= power <= SSRPowerRange as real
      modifies this`startSampleTime, this`currentOvenTemp, this`getNewTemp,
               this`currentInternalTemp, this`currentThermoCoupleTemp, this`fault,
               this`prevFault, this`validTemps, this`tempFaultCount, this`tempFault,
               this`outputPower, this`pulseStartTime, this`SSRIsOn, this`allowPIDControllerIsOn
      ensures Valid() && StartedBy(now)
      ensures !old(allowPIDControllerIsOn) ==> unchanged(this)
      // sampling
      ensures old(allowPIDControllerIsOn) && old(SampleDue(now)) ==>
        Measured(reading) && currentOvenTemp == MeasuredTemp(reading)
      ensures old(allowPIDControllerIsOn) && !old(SampleDue(now)) ==>
        SensorUnchanged() && currentOvenTemp == old(currentThermoCoupleTemp)
      // a valid temperature: PID output and time-proportioned SSR
      ensures old(allowPIDControllerIsOn) && currentOvenTemp > INVALID_TEMP ==>
        allowPIDControllerIsOn &&
        outputPower == (if computed then power else old(outputPower)) &&
        getNewTemp == (computed || (old(getNewTemp) && !old(SampleDue(now)))) &&
        startSampleTime == (if computed || old(SampleDue(now)) then now else old(startSampleTime)) &&
        pulseStartTime == PulseWindowStart(now, old(pulseStartTime), SSRPowerRange) &&
        (SSRIsOn <==> SsrOnAt(now - pulseStartTime, outputPower))
      // an invalid temperature: the SSR is forced off once the fault is declared
      ensures old(allowPIDControllerIsOn) && currentOvenTemp <= INVALID_TEMP ==>
        unchanged(this`outputPower, this`pulseStartTime) &&
        getNewTemp == (old(getNewTemp) && !old(SampleDue(now))) &&
        startSampleTime == (if old(SampleDue(now)) then now else old(startSampleTime)) &&
        (tempFault ==> !SSRIsOn && !allowPIDControllerIsOn) &&
        (!tempFault ==> unchanged(this`SSRIsOn, this`allowPIDControllerIsOn))
    {
      if allowPIDControllerIsOn {
        SampleOvenTemp(now, reading);
        DriveSsr(now, computed, power);
      }
    }

    /** getScheduleIsEmpty (pid.cpp:265-278). */
    method GetScheduleIsEmpty() returns (scheduleIsEmpty: bool)
      requires Valid()
      ensures scheduleIsEmpty <==> NoSegmentUsed(SelectedPoints())
    {
      var points := allSchedules[selectedSchedule].schedulePoint;
      scheduleIsEmpty := true;
      var i := 0;
      while scheduleIsEmpty && i < MAX_POINTS_PER_SCHEDULE
        invariant 0 <= i <= MAX_POINTS_PER_SCHEDULE
        invariant forall k :: 0 <= k < i ==> !points[k].segmentIsUsed
        invariant !scheduleIsEmpty ==> i < MAX_POINTS_PER_SCHEDULE && points[i].segmentIsUsed
        decreases MAX_POINTS_PER_SCHEDULE - i + (if scheduleIsEmpty then 1 else 0)
      {
        if points[i].segmentIsUsed {
          scheduleIsEmpty := false;
        } else {
          i := i + 1;
        }
      }
    }

    /** The `if (!allowPIDControllerIsOn) setControllerOn()` of the HOLD and
        RAMP branches of selectMode (pid.cpp:896-898, 904-906). */
    method KeepControllerOn(now: nat)
      modifies this`allowPIDControllerIsOn, this`pulseStartTime
      ensures allowPIDControllerIsOn
      ensures pulseStartTime == if old(allowPIDControllerIsOn) then old(pulseStartTime) else now
    {
      if !allowPIDControllerIsOn {
        SetControllerOn(now);
      }
    }

    /** The SWITCHED_OFF branch of selectMode (pid.cpp:887-892). */
    method EnterSwitchedOff()
      modifies this`nextGoal, this`setPointTemp, this`outputPower, this`allowPIDControllerIsOn,
               this`SSRIsOn, this`rampIsOn
      ensures OffEntered(old(Control()))
    {
      nextGoal := 0.0;
      SetGoalOvenTemp(nextGoal, false);
      SetControllerOff();
      rampIsOn := false;
    }

    /** The HOLD branch of selectMode (pid.cpp:893-900). */
    method EnterHold(now: nat)
      modifies this`allowPIDControllerIsOn, this`pulseStartTime, this`setPointTemp,
               this`outputPower, this`rampIsOn
      ensures HoldEntered(now, old(Control()))
    {
      KeepControllerOn(now);
      SetGoalOvenTemp(nextGoal, false);
      rampIsOn := false;
    }

    /** The RAMP branch of selectMode (pid.cpp:902-919); a segment without
        duration is entered as a hold. */
    method EnterRamp(now: nat, minutes: nat)
      modifies this`allowPIDControllerIsOn, this`pulseStartTime, this`setPointTemp,
               this`outputPower, this`rampIsOn, this`rampValue, this`deltaTemp,
               this`scheduleStartTime
      ensures minutes < 1 ==> HoldEntered(now, old(Control()))
      ensures minutes >= 1 ==> RampEntered(now, previousGoal, minutes, old(Control()))
    {
      KeepControllerOn(now);
      if minutes < 1 {
        SetGoalOvenTemp(nextGoal, false);
        rampIsOn := false;
      } else {
        rampValue := previousGoal;
        deltaTemp := (nextGoal - previousGoal) /
          (minutes as real * MS_PER_MINUTE as real / SCHEDULE_SAMPLE_TIME as real);
        scheduleStartTime := now;
        rampIsOn := true;
      }
    }

    /** selectMode (pid.cpp:880-921): enter the current segment. */
    method SelectMode(now: nat)
      requires Valid() && StartedBy(now) && currentPoint < MAX_POINTS_PER_SCHEDULE
      modifies this`segmentStartTime, this`previousGoal, this`nextGoal, this`setPointTemp,
               this`outputPower, this`allowPIDControllerIsOn, this`SSRIsOn, this`pulseStartTime,
               this`rampIsOn, this`rampValue, this`deltaTemp, this`scheduleStartTime
      ensures Valid() && StartedBy(now)
      ensures SegmentEntered(now, old(nextGoal), SelectedPoints()[currentPoint], old(Control()))
      ensures unchanged(this`selectedSchedule, this`currentPoint, this`currentPointEndTime,
                        this`ovenIsOn, this`ovenSwitchedOn, this`ovenSwitchedOff, this`ovenStartTime,
                        this`tempFaultCount, this`tempFault, this`startSampleTime, this`checkTempStartTime)
    {
      var p := allSchedules[selectedSchedule].schedulePoint[currentPoint];
      segmentStartTime := now;
      previousGoal := nextGoal;
      nextGoal := p.tempGoal;
      match p.tempMode {
        case SWITCHED_OFF => EnterSwitchedOff();
        case HOLD => EnterHold(now);
        case RAMP => EnterRamp(now, p.timeToNextPoint);
      }
    }

    /** The scan of switchOvenOn and scheduleLoop (pid.cpp:928-930,
        980-982) for the first used segment of the selected schedule at or
        after `from`. */
    method ScanUsedFrom(from: nat) returns (cp: PointIndex)
      requires allSchedules.Length == MAX_NR_OF_SCHEDULES && from <= MAX_POINTS_PER_SCHEDULE
      ensures cp == FirstUsedFrom(SelectedPoints(), from)
    {
      var points := allSchedules[selectedSchedule].schedulePoint;
      cp := from;
      while cp < MAX_POINTS_PER_SCHEDULE && !points[cp].segmentIsUsed
        invariant from <= cp <= MAX_POINTS_PER_SCHEDULE
        invariant forall k :: from <= k < cp ==> !points[k].segmentIsUsed
      {
        cp := cp + 1;
      }
      FirstUsedUnique(points, from, cp);
    }

    /** The start of a run once switchOvenOn has found a used segment
        (pid.cpp:936-945): both goals zero, the edge flags raised, the end
        time of the first segment, and the segment entered. */
    method StartRun(now: nat)
      requires Valid() && StartedBy(now) && currentPoint < MAX_POINTS_PER_SCHEDULE
      modifies this`ovenIsOn, this`ovenSwitchedOn, this`ovenSwitchedOff,
               this`currentPointEndTime, this`ovenStartTime,
               this`segmentStartTime, this`previousGoal, this`nextGoal, this`setPointTemp,
               this`outputPower, this`allowPIDControllerIsOn, this`SSRIsOn, this`pulseStartTime,
               this`rampIsOn, this`rampValue, this`deltaTemp, this`scheduleStartTime
      ensures Valid() && StartedBy(now)
      ensures ovenIsOn && ovenSwitchedOn && !ovenSwitchedOff && ovenStartTime == now
      ensures currentPointEndTime == SelectedPoints()[currentPoint].timeToNextPoint * MS_PER_MINUTE
      ensures SegmentEntered(now, 0.0, SelectedPoints()[currentPoint], old(Control()))
      ensures unchanged(this`selectedSchedule, this`currentPoint, this`tempFaultCount, this`tempFault,
                        this`startSampleTime, this`checkTempStartTime)
    {
      MarkRunStarted(now);
      SelectMode(now);
    }

    /** The bookkeeping of switchOvenOn before the first segment is entered
        (pid.cpp:936-942): the goals start from zero and the run flags and
        the end of the first segment are set. */
    method MarkRunStarted(now: nat)
      requires Valid() && StartedBy(now) && currentPoint < MAX_POINTS_PER_SCHEDULE
      modifies this`ovenIsOn, this`ovenSwitchedOn, this`ovenSwitchedOff,
               this`currentPointEndTime, this`ovenStartTime, this`previousGoal, this`nextGoal
      ensures Valid() && StartedBy(now)
      ensures ovenIsOn && ovenSwitchedOn && !ovenSwitchedOff && ovenStartTime == now
      ensures previousGoal == 0.0 && nextGoal == 0.0
      ensures currentPointEndTime == SelectedPoints()[currentPoint].timeToNextPoint * MS_PER_MINUTE
      ensures Control() == old(Control())
    {
      var minutes := allSchedules[selectedSchedule].schedulePoint[currentPoint].timeToNextPoint;
      previousGoal := 0.0;
      nextGoal := 0.0;
      ovenIsOn := true;
      ovenSwitchedOff := false;
      ovenSwitchedOn := true;
      currentPointEndTime := minutes * MS_PER_MINUTE;
      ovenStartTime := now;
    }

    /** switchOvenOn (pid.cpp:924-951): only for an approved user and an oven
        that is off; the run starts at the first used segment of the
        selected schedule, and an empty schedule is refused. */
    method SwitchOvenOn(now: nat)
      requires Valid() && StartedBy(now)
      modifies this`currentPoint, this`ovenIsOn, this`ovenSwitchedOn, this`ovenSwitchedOff,
               this`currentPointEndTime, this`ovenStartTime,
               this`segmentStartTime, this`previousGoal, this`nextGoal, this`setPointTemp,
               this`outputPower, this`allowPIDControllerIsOn, this`SSRIsOn, this`pulseStartTime,
               this`rampIsOn, this`rampValue, this`deltaTemp, this`scheduleStartTime
      ensures Valid() && StartedBy(now)
      ensures !old(theUserIsApproved) || old(ovenIsOn) ==> unchanged(this)
      ensures old(theUserIsApproved) && !old(ovenIsOn) ==>
        currentPoint == FirstUsedFrom(SelectedPoints(), 0) &&
        (ovenIsOn <==> !NoSegmentUsed(SelectedPoints()))
      // refused: an empty schedule only moves currentPoint past the end
      ensures old(theUserIsApproved) && !old(ovenIsOn) && NoSegmentUsed(SelectedPoints()) ==>
        currentPoint == MAX_POINTS_PER_SCHEDULE &&
        RunFlagsUnchanged() && EntryFieldsUnchanged() &&
        unchanged(this`currentPointEndTime, this`ovenStartTime)
      // started
      ensures old(theUserIsApproved) && !old(ovenIsOn) && !NoSegmentUsed(SelectedPoints()) ==>
        currentPoint < MAX_POINTS_PER_SCHEDULE &&
        ovenIsOn && ovenSwitchedOn && !ovenSwitchedOff &&
        currentPointEndTime == SelectedPoints()[currentPoint].timeToNextPoint * MS_PER_MINUTE &&
        ovenStartTime == now &&
        SegmentEntered(now, 0.0, SelectedPoints()[currentPoint], old(Control()))
      ensures unchanged(this`selectedSchedule, this`tempFaultCount, this`tempFault, this`theUserIsApproved,
                        this`startSampleTime, this`checkTempStartTime)
    {
      if theUserIsApproved {
        if !ovenIsOn {
          currentPoint := ScanUsedFrom(0);
          EmptyIffNoFirstUsed(SelectedPoints());
          if currentPoint < MAX_POINTS_PER_SCHEDULE {
            StartRun(now);
          }
        }
      }
    }

    /** switchOvenOff (pid.cpp:953-959): unconditional; it raises the
        switched-off edge flag on every call. */
    method SwitchOvenOff()
      requires Valid()
      modifies this`allowPIDControllerIsOn, this`SSRIsOn, this`ovenIsOn,
               this`ovenSwitchedOn, this`ovenSwitchedOff
      ensures Valid()
      ensures SwitchedOff()
      ensures unchanged(this`selectedSchedule, this`currentPoint, this`currentPointEndTime, this`ovenStartTime)
    {
      SetControllerOff();
      ovenIsOn := false;
      ovenSwitchedOn := false;
      ovenSwitchedOff := true;
    }

    /** The segment advance of scheduleLoop once the current segment's end
        time has passed (pid.cpp:973-991); `ended` tells whether the run was
        switched off. When it goes on, the ramp step that follows in
        scheduleLoop cannot fire in the same pass. */
    method AdvanceSegment(now: nat) returns (ended: bool)
      requires Valid() && StartedBy(now) && ovenIsOn
      modifies this`allowPIDControllerIsOn, this`SSRIsOn, this`ovenIsOn,
               this`ovenSwitchedOn, this`ovenSwitchedOff,
               this`currentPoint, this`currentPointEndTime,
               this`segmentStartTime, this`previousGoal, this`nextGoal, this`setPointTemp,
               this`outputPower, this`pulseStartTime, this`rampIsOn, this`rampValue,
               this`deltaTemp, this`scheduleStartTime
      ensures Valid() && StartedBy(now)
      ensures EndOfSegment(now)
      ensures ended <==> !ovenIsOn
      ensures !ended ==> !rampIsOn || scheduleStartTime == now
      ensures unchanged(this`selectedSchedule, this`tempFaultCount, this`tempFault, this`ovenStartTime,
                        this`startSampleTime, this`checkTempStartTime)
    {
      if currentPoint >= MAX_POINTS_PER_SCHEDULE - 1 {
        SwitchOvenOff();
        return true;
      }
      ended := AdvanceToNextUsed(now);
    }

    /** The segment advance from a segment before the last one
        (pid.cpp:979-990): the next used segment is entered, or the run ends
        when there is none. */
    method AdvanceToNextUsed(now: nat) returns (ended: bool)
      requires Valid() && StartedBy(now) && ovenIsOn
      requires currentPoint < MAX_POINTS_PER_SCHEDULE - 1
      modifies this`allowPIDControllerIsOn, this`SSRIsOn, this`ovenIsOn,
               this`ovenSwitchedOn, this`ovenSwitchedOff,
               this`currentPoint, this`currentPointEndTime,
               this`segmentStartTime, this`previousGoal, this`nextGoal, this`setPointTemp,
               this`outputPower, this`pulseStartTime, this`rampIsOn, this`rampValue,
               this`deltaTemp, this`scheduleStartTime
      ensures Valid() && StartedBy(now)
      ensures EndOfSegment(now)
      ensures ended <==> !ovenIsOn
      ensures !ended ==> !rampIsOn || scheduleStartTime == now
      ensures unchanged(this`selectedSchedule, this`tempFaultCount, this`tempFault, this`ovenStartTime,
                        this`startSampleTime, this`checkTempStartTime)
    {
      var cp := ScanUsedFrom(currentPoint + 1);
      if cp < MAX_POINTS_PER_SCHEDULE {
        EnterNextUsed(now, cp);
        ended := false;
      } else {
        SwitchOvenOff();
        currentPoint := cp;
        ended := true;
      }
    }

    /** Entering the next used segment `cp` found by the scan
        (pid.cpp:983-986). */
    method EnterNextUsed(now: nat, cp: PointIndex)
      requires Valid() && StartedBy(now) && ovenIsOn
      requires currentPoint < cp < MAX_POINTS_PER_SCHEDULE
      requires cp == FirstUsedFrom(SelectedPoints(), currentPoint + 1)
      modifies this`allowPIDControllerIsOn, this`SSRIsOn,
               this`currentPoint, this`currentPointEndTime,
               this`segmentStartTime, this`previousGoal, this`nextGoal, this`setPointTemp,
               this`outputPower, this`pulseStartTime, this`rampIsOn, this`rampValue,
               this`deltaTemp, this`scheduleStartTime
      ensures Valid() && StartedBy(now) && ovenIsOn
      ensures EndOfSegment(now)
      ensures !rampIsOn || scheduleStartTime == now
      ensures unchanged(this`selectedSchedule, this`tempFaultCount, this`tempFault, this`ovenStartTime,
                        this`startSampleTime, this`checkTempStartTime, this`ovenSwitchedOn,
                        this`ovenSwitchedOff)
    {
      MoveToPoint(cp);
      SelectMode(now);
    }

    /** Moving the run on to the next used segment (pid.cpp:984-985): its
        duration is added to the end time of the run so far. */
    method MoveToPoint(cp: PointIndex)
      requires Valid() && cp < MAX_POINTS_PER_SCHEDULE
      modifies this`currentPoint, this`currentPointEndTime
      ensures Valid()
      ensures currentPoint == cp
      ensures currentPointEndTime ==
        old(currentPointEndTime) + SelectedPoints()[cp].timeToNextPoint * MS_PER_MINUTE
      ensures Control() == old(Control())
    {
      currentPoint := cp;
      currentPointEndTime := currentPointEndTime +
        allSchedules[selectedSchedule].schedulePoint[cp].timeToNextPoint * MS_PER_MINUTE;
    }

    /** One ramp step of scheduleLoop (pid.cpp:993-997): the step period is
        advanced by exactly SCHEDULE_SAMPLE_TIME, not re-synchronised with
        the clock. */
    method RampStep()
      modifies this`scheduleStartTime, this`rampValue, this`setPointTemp, this`outputPower
      ensures scheduleStartTime == old(scheduleStartTime) + SCHEDULE_SAMPLE_TIME
      ensures rampValue == old(rampValue) + deltaTemp
      ensures setPointTemp == rampValue && outputPower == 0.0
    {
      scheduleStartTime := scheduleStartTime + SCHEDULE_SAMPLE_TIME;
      rampValue := rampValue + deltaTemp;
      SetGoalOvenTemp(rampValue, true);
    }

    /** scheduleLoop (pid.cpp:961-1000): the safety cutoffs first, then the
        advance to the next used segment, then one ramp step. */
    method ScheduleLoop(now: nat)
      requires Valid() && StartedBy(now)
      modifies this`allowPIDControllerIsOn, this`SSRIsOn, this`ovenIsOn,
               this`ovenSwitchedOn, this`ovenSwitchedOff,
               this`currentPoint, this`currentPointEndTime,
               this`segmentStartTime, this`previousGoal, this`nextGoal, this`setPointTemp,
               this`outputPower, this`pulseStartTime, this`rampIsOn, this`rampValue,
               this`deltaTemp, this`scheduleStartTime
      ensures Valid() && StartedBy(now)
      ensures !old(ovenIsOn) ==> unchanged(this)
      // the safety cutoffs hold whatever the schedule says
      ensures old(ovenIsOn) && old(tempFault) ==> !ovenIsOn && !SSRIsOn && !allowPIDControllerIsOn
      ensures now - old(ovenStartTime) > MAX_OVEN_ON_TIME_MS ==> !ovenIsOn
      ensures old(ovenIsOn) && (old(tempFault) || now - old(ovenStartTime) > MAX_OVEN_ON_TIME_MS) ==>
        SwitchedOff() && EntryFieldsUnchanged() &&
        unchanged(this`currentPoint, this`currentPointEndTime)
      // segment advance
      ensures old(ovenIsOn) && !old(tempFault) && now - old(ovenStartTime) <= MAX_OVEN_ON_TIME_MS &&
              now - old(ovenStartTime) > old(currentPointEndTime) ==>
        EndOfSegment(now)
      // within the segment: at most one ramp step
      ensures old(ovenIsOn) && !old(tempFault) && now - old(ovenStartTime) <= MAX_OVEN_ON_TIME_MS &&
              now - old(ovenStartTime) <= old(currentPointEndTime) ==>
        WithinSegment(now)
      ensures unchanged(this`selectedSchedule, this`tempFaultCount, this`tempFault, this`ovenStartTime,
                        this`startSampleTime, this`checkTempStartTime)
    {
      if ovenIsOn {
        if tempFault {
          SwitchOvenOff();
          return;
        }
        if now - ovenStartTime > MAX_OVEN_ON_TIME_MS {
          SwitchOvenOff();
          return;
        }
        if now - ovenStartTime > currentPointEndTime {
          var ended := AdvanceSegment(now);
          if ended {
            return;
          }
        }
        if rampIsOn && now - scheduleStartTime > SCHEDULE_SAMPLE_TIME {
          RampStep();
          return;
        }
      }
    }

    /** The outcome of a scheduleLoop pass once the current segment's end
        time has passed (pid.cpp:973-991): from the last index the run ends;
        otherwise the run moves to the next used segment, or ends when none
        is left. */
    twostate predicate EndOfSegment(now: nat)
      reads this, allSchedules
      requires allSchedules.Length == MAX_NR_OF_SCHEDULES
    {
      if old(currentPoint) >= MAX_POINTS_PER_SCHEDULE - 1 then
        SwitchedOff() && EntryFieldsUnchanged() &&
        unchanged(this`currentPoint, this`currentPointEndTime)
      else
        currentPoint == FirstUsedFrom(SelectedPoints(), old(currentPoint) + 1) &&
        old(currentPoint) < currentPoint &&
        (currentPoint == MAX_POINTS_PER_SCHEDULE ==>
          SwitchedOff() && EntryFieldsUnchanged() && unchanged(this`currentPointEndTime)) &&
        (currentPoint < MAX_POINTS_PER_SCHEDULE ==>
          SelectedPoints()[currentPoint].segmentIsUsed &&
          currentPointEndTime ==
            old(currentPointEndTime) + SelectedPoints()[currentPoint].timeToNextPoint * MS_PER_MINUTE &&
          unchanged(this`ovenIsOn, this`ovenSwitchedOn, this`ovenSwitchedOff) &&
          SegmentEntered(now, old(nextGoal), SelectedPoints()[currentPoint], old(Control())))
    }

    /** The outcome of a scheduleLoop pass inside the current segment
        (pid.cpp:993-997): a running ramp whose step period has passed takes
        one step of exactly SCHEDULE_SAMPLE_TIME and deltaTemp; otherwise
        nothing changes. */
    twostate predicate WithinSegment(now: nat)
      reads this
      requires old(scheduleStartTime) <= now
    {
      if old(rampIsOn) && now - old(scheduleStartTime) > SCHEDULE_SAMPLE_TIME then
        scheduleStartTime == old(scheduleStartTime) + SCHEDULE_SAMPLE_TIME &&
        rampValue == old(rampValue) + old(deltaTemp) &&
        setPointTemp == rampValue && outputPower == 0.0 &&
        RunFlagsUnchanged() &&
        unchanged(this`currentPoint, this`currentPointEndTime, this`segmentStartTime,
                  this`previousGoal, this`nextGoal, this`pulseStartTime, this`rampIsOn,
                  this`deltaTemp)
      else
        unchanged(this)
    }

    method SetUserIsApproved(isApproved: bool)
      modifies this`theUserIsApproved
      ensures theUserIsApproved == isApproved
    {
      theUserIsApproved := isApproved;
    }

    /** ovenIsSwitchedOn (pid.cpp:1006-1011): read and clear. */
    method OvenIsSwitchedOn() returns (wasSwitchedOn: bool)
      modifies this`ovenSwitchedOn
      ensures wasSwitchedOn == old(ovenSwitchedOn) && !ovenSwitchedOn
    {
      wasSwitchedOn := ovenSwitchedOn;
      ovenSwitchedOn := false;
    }

    /** ovenIsSwitchedOff (pid.cpp:1013-1018): read and clear. */
    method OvenIsSwitchedOff() returns (wasSwitchedOff: bool)
      modifies this`ovenSwitchedOff
      ensures wasSwitchedOff == old(ovenSwitchedOff) && !ovenSwitchedOff
    {
      wasSwitchedOff := ovenSwitchedOff;
      ovenSwitchedOff := false;
    }

    /** checkTemps (pid.cpp:1020-1053): once per CHECK_TEMP_SAMPLE_TIME a
        fresh reading (which also steps the fault debounce); on a valid one
        the fan follows the cold-junction and the lamp the thermocouple
        temperature, by strict comparison with no dead band. */
    method CheckTemps(now: nat, reading: SensorReading)
      requires Valid() && StartedBy(now)
      modifies this`checkTempStartTime, this`FANIsOn, this`LAMPIsOn,
               this`currentInternalTemp, this`currentThermoCoupleTemp, this`fault,
               this`prevFault, this`validTemps, this`tempFaultCount, this`tempFault
      ensures Valid() && StartedBy(now)
      ensures now - old(checkTempStartTime) <= CHECK_TEMP_SAMPLE_TIME ==> unchanged(this)
      ensures now - old(checkTempStartTime) > CHECK_TEMP_SAMPLE_TIME ==>
        checkTempStartTime == now && Measured(reading)
      ensures now - old(checkTempStartTime) > CHECK_TEMP_SAMPLE_TIME &&
              MeasuredTemp(reading) > INVALID_TEMP ==>
        (FANIsOn <==> reading.coldJunctionTemp > FAN_ON_TEMP) &&
        (LAMPIsOn <==> reading.thermocoupleTemp > LAMP_ON_TEMP)
      ensures MeasuredTemp(reading) <= INVALID_TEMP ==> unchanged(this`FANIsOn, this`LAMPIsOn)
    {
      if now - checkTempStartTime > CHECK_TEMP_SAMPLE_TIME {
        checkTempStartTime := now;
        var t := MeasureOvenTemps(reading);
        if t > INVALID_TEMP {
          FANIsOn := currentInternalTemp > FAN_ON_TEMP;
          LAMPIsOn := currentThermoCoupleTemp > LAMP_ON_TEMP;
        }
      }
    }

    // ---- schedule editing and navigation (pid.cpp:770-860, 1055-1068) ----

    /** changeParams (pid.cpp:808-850): the form overwrites the name and
        every segment of the schedule on the edit page. Saving the slot to
        flash afterwards is not modelled. */
    method ChangeParams(form: WebForm)
      requires Valid()
      modifies allSchedules
      ensures Valid()
      ensures allSchedules[currentSchedule] == EditedSchedule(old(allSchedules[currentSchedule]), form)
      ensures forall k :: 0 <= k < allSchedules.Length && k != currentSchedule ==>
        allSchedules[k] == old(allSchedules[k])
    {
      var cs := currentSchedule;
      allSchedules[cs] := allSchedules[cs].(scheduleName := TruncatedName(Arg(form, ScheduleNameArg)));
      for i := 0 to MAX_POINTS_PER_SCHEDULE
        invariant WellFormed(allSchedules[cs])
        invariant allSchedules[cs].scheduleName == TruncatedName(Arg(form, ScheduleNameArg))
        invariant forall j :: 0 <= j < i ==>
          allSchedules[cs].schedulePoint[j] == EditedPoint(old(allSchedules[cs]).schedulePoint[j], form, j)
        invariant forall j :: i <= j < MAX_POINTS_PER_SCHEDULE ==>
          allSchedules[cs].schedulePoint[j] == old(allSchedules[cs]).schedulePoint[j]
        invariant forall k :: 0 <= k < allSchedules.Length && k != cs ==>
          allSchedules[k] == old(allSchedules[k])
      {
        var p := allSchedules[cs].schedulePoint[i];
        var mode := Arg(form, ModeArg(i));
        if mode == "switched_off" {
          p := p.(tempMode := SWITCHED_OFF);
        } else if mode == "hold" {
          p := p.(tempMode := HOLD);
        } else if mode == "ramp" {
          p := p.(tempMode := RAMP);
        }
        p := p.(tempGoal := if i in form.tempGoal then form.tempGoal[i] else 0.0);
        p := p.(timeToNextPoint := if i in form.timeToNextPoint then form.timeToNextPoint[i] else 0);
        if SegmentIsUsedArg(i) in form.text {
          p := p.(segmentIsUsed := form.text[SegmentIsUsedArg(i)] == "on");
        } else {
          p := p.(segmentIsUsed := false);
        }
        allSchedules[cs] := allSchedules[cs].(schedulePoint := allSchedules[cs].schedulePoint[i := p]);
      }
      assert allSchedules[cs].schedulePoint ==
        EditedSchedule(old(allSchedules[cs]), form).schedulePoint;
    }

    /** The state handleRootWebPage changes (pid.cpp:614-768): the status
        page it renders shows a fresh measurement (pid.cpp:712), which
        stores both temperatures and steps the fault debounce. */
    method ShowRootPage(reading: SensorReading)
      requires Valid()
      modifies this`currentInternalTemp, this`currentThermoCoupleTemp, this`fault,
               this`prevFault, this`validTemps, this`tempFaultCount, this`tempFault
      ensures Valid()
      ensures Measured(reading)
    {
      var _ := MeasureOvenTemps(reading);
    }

    /** The state editSchedulesWebPage changes (pid.cpp:513-612): while the
        oven is on it shows the status page instead, with its measurement;
        the edit page itself only renders. */
    method EditSchedulesPage(reading: SensorReading)
      requires Valid()
      modifies this`currentInternalTemp, this`currentThermoCoupleTemp, this`fault,
               this`prevFault, this`validTemps, this`tempFaultCount, this`tempFault
      ensures Valid()
      ensures old(ovenIsOn) ==> Measured(reading)
      ensures !old(ovenIsOn) ==> SensorUnchanged()
    {
      if ovenIsOn {
        ShowRootPage(reading);
      }
    }

    /** handleActionWebPage (pid.cpp:852-860): while the oven is on the save
        button edits nothing and shows the status page, with its
        measurement; otherwise the form is stored and the edit page shown. */
    method HandleActionWebPage(form: WebForm, reading: SensorReading)
      requires Valid()
      modifies allSchedules, this`currentInternalTemp, this`currentThermoCoupleTemp, this`fault,
               this`prevFault, this`validTemps, this`tempFaultCount, this`tempFault
      ensures Valid()
      ensures old(ovenIsOn) ==> unchanged(allSchedules) && Measured(reading)
      ensures !old(ovenIsOn) ==>
        allSchedules[currentSchedule] == EditedSchedule(old(allSchedules[currentSchedule]), form) &&
        SensorUnchanged()
      ensures forall k :: 0 <= k < allSchedules.Length && k != currentSchedule ==>
        allSchedules[k] == old(allSchedules[k])
    {
      if ovenIsOn {
        ShowRootPage(reading);
        return;
      }
      ChangeParams(form);
      EditSchedulesPage(reading);
    }

    /** handlePrevWebPage (pid.cpp:770-778): store the form and show the
        previous schedule, whether or not the oven is on; while it is on,
        the page shown is the status page, with its measurement. */
    method HandlePrevWebPage(form: WebForm, reading: SensorReading)
      requires Valid()
      modifies allSchedules, this`currentSchedule, this`currentInternalTemp,
               this`currentThermoCoupleTemp, this`fault, this`prevFault, this`validTemps,
               this`tempFaultCount, this`tempFault
      ensures Valid()
      ensures allSchedules[old(currentSchedule)] == EditedSchedule(old(allSchedules[currentSchedule]), form)
      ensures forall k :: 0 <= k < allSchedules.Length && k != old(currentSchedule) ==>
        allSchedules[k] == old(allSchedules[k])
      ensures currentSchedule == PrevScheduleIndex(old(currentSchedule))
      ensures old(ovenIsOn) ==> Measured(reading)
      ensures !old(ovenIsOn) ==> SensorUnchanged()
    {
      ChangeParams(form);
      currentSchedule := PrevScheduleIndex(currentSchedule);
      EditSchedulesPage(reading);
    }

    /** handleNextWebPage (pid.cpp:780-788): store the form and show the
        next schedule, whether or not the oven is on; while it is on, the
        page shown is the status page, with its measurement. */
    method HandleNextWebPage(form: WebForm, reading: SensorReading)
      requires Valid()
      modifies allSchedules, this`currentSchedule, this`currentInternalTemp,
               this`currentThermoCoupleTemp, this`fault, this`prevFault, this`validTemps,
               this`tempFaultCount, this`tempFault
      ensures Valid()
      ensures allSchedules[old(currentSchedule)] == EditedSchedule(old(allSchedules[currentSchedule]), form)
      ensures forall k :: 0 <= k < allSchedules.Length && k != old(currentSchedule) ==>
        allSchedules[k] == old(allSchedules[k])
      ensures currentSchedule == NextScheduleIndex(old(currentSchedule))
      ensures old(ovenIsOn) ==> Measured(reading)
      ensures !old(ovenIsOn) ==> SensorUnchanged()
    {
      ChangeParams(form);
      currentSchedule := NextScheduleIndex(currentSchedule);
      EditSchedulesPage(reading);
    }

    /** handlePrevWebPage with the guard of handleActionWebPage: while the
        oven is on, neither the schedules nor the page change, and the
        status page is shown. */
    method HandlePrevWebPageWhenOff(form: WebForm, reading: SensorReading)
      requires Valid()
      modifies allSchedules, this`currentSchedule, this`currentInternalTemp,
               this`currentThermoCoupleTemp, this`fault, this`prevFault, this`validTemps,
               this`tempFaultCount, this`tempFault
      ensures Valid()
      ensures old(ovenIsOn) ==>
        unchanged(allSchedules) && currentSchedule == old(currentSchedule) && Measured(reading)
      ensures !old(ovenIsOn) ==>
        allSchedules[old(currentSchedule)] == EditedSchedule(old(allSchedules[currentSchedule]), form) &&
        currentSchedule == PrevScheduleIndex(old(currentSchedule)) && SensorUnchanged()
      ensures forall k :: 0 <= k < allSchedules.Length && k != old(currentSchedule) ==>
        allSchedules[k] == old(allSchedules[k])
    {
      if ovenIsOn {
        ShowRootPage(reading);
        return;
      }
      HandlePrevWebPage(form, reading);
    }

    /** handleNextWebPage with the guard of handleActionWebPage: while the
        oven is on, neither the schedules nor the page change, and the
        status page is shown. */
    method HandleNextWebPageWhenOff(form: WebForm, reading: SensorReading)
      requires Valid()
      modifies allSchedules, this`currentSchedule, this`currentInternalTemp,
               this`currentThermoCoupleTemp, this`fault, this`prevFault, this`validTemps,
               this`tempFaultCount, this`tempFault
      ensures Valid()
      ensures old(ovenIsOn) ==>
        unchanged(allSchedules) && currentSchedule == old(currentSchedule) && Measured(reading)
      ensures !old(ovenIsOn) ==>
        allSchedules[old(currentSchedule)] == EditedSchedule(old(allSchedules[currentSchedule]), form) &&
        currentSchedule == NextScheduleIndex(old(currentSchedule)) && SensorUnchanged()
      ensures forall k :: 0 <= k < allSchedules.Length && k != old(currentSchedule) ==>
        allSchedules[k] == old(allSchedules[k])
    {
      if ovenIsOn {
        ShowRootPage(reading);
        return;
      }
      HandleNextWebPage(form, reading);
    }

    /** selectSchedule (pid.cpp:1055-1068): the schedule a run executes
        moves one slot forward or back, wrapping around. */
    method SelectSchedule(nextSchedule: bool)
      requires Valid()
      modifies this`selectedSchedule
      ensures Valid()
      ensures selectedSchedule ==
        if nextSchedule then NextScheduleIndex(old(selectedSchedule))
        else PrevScheduleIndex(old(selectedSchedule))
    {
      if nextSchedule {
        selectedSchedule := NextScheduleIndex(selectedSchedule);
      } else {
        selectedSchedule := PrevScheduleIndex(selectedSchedule);
      }
    }

    /** handlePrevSelectWebPage and handleNextSelectWebPage
        (pid.cpp:790-806): the selection moves whether or not the oven is
        on, and the status page is shown, with its measurement. A running
        schedule goes on at the same segment index and end time, now in
        the newly selected schedule. */
    method HandleSelectWebPage(nextSchedule: bool, reading: SensorReading)
      requires Valid()
      modifies this`selectedSchedule, this`currentInternalTemp, this`currentThermoCoupleTemp,
               this`fault, this`prevFault, this`validTemps, this`tempFaultCount, this`tempFault
      ensures Valid()
      ensures selectedSchedule ==
        if nextSchedule then NextScheduleIndex(old(selectedSchedule))
        else PrevScheduleIndex(old(selectedSchedule))
      ensures Measured(reading)
    {
      SelectSchedule(nextSchedule);
      ShowRootPage(reading);
    }

    /** The select handlers with the guard of handleActionWebPage: while
        the oven is on the selection stays, so that a run keeps executing
        the schedule it was started on. */
    method HandleSelectWebPageWhenOff(nextSchedule: bool, reading: SensorReading)
      requires Valid()
      modifies this`selectedSchedule, this`currentInternalTemp, this`currentThermoCoupleTemp,
               this`fault, this`prevFault, this`validTemps, this`tempFaultCount, this`tempFault
      ensures Valid()
      ensures old(ovenIsOn) ==> selectedSchedule == old(selectedSchedule)
      ensures !old(ovenIsOn) ==>
        (selectedSchedule ==
           if nextSchedule then NextScheduleIndex(old(selectedSchedule))
           else PrevScheduleIndex(old(selectedSchedule)))
      ensures Measured(reading)
    {
      if ovenIsOn {
        ShowRootPage(reading);
        return;
      }
      HandleSelectWebPage(nextSchedule, reading);
    }
  }

  /** switchOvenOff is idempotent: on a controller it has already switched
      off, calling it again changes nothing. */
  method SwitchOffIdempotent(c: PIDController)
    requires c.Valid() && c.SwitchedOff()
    modifies c
    ensures unchanged(c)
  {
    c.SwitchOvenOff();
  }

  /** begin called without its two optional arguments (pid.h:142): the SSR
      window is 10000 ms wide, the setpoint is -100 degrees, and the oven is
      off. */
  method BeginWithDefaults() returns (range: nat, setPoint: real, on: bool)
    ensures range == 10000 && setPoint == -100.0 && !on
  {
    var c := new PIDController();
    c.Begin(0);
    range := c.SSRPowerRange;
    setPoint := c.setPointTemp;
    on := c.ovenIsOn;
  }

  /** A run of the two-segment schedule [HOLD at 100 degrees for 10
      minutes, SWITCHED_OFF], switched on at time 0: the hold sets the
      setpoint to 100; one millisecond after those 10 minutes the run
      enters the SWITCHED_OFF segment and turns the controller off while
      the oven stays on; one millisecond later that zero-length segment
      has ended and, no used segment being left, the oven is off. The
      switched-off edge then reads true exactly once. */
  method HoldThenOffRun() returns (holdSetPoint: real, onAfterHold: bool,
                                   controllerOnAfterHold: bool, onAtEnd: bool,
                                   firstOffRead: bool, secondOffRead: bool)
    ensures holdSetPoint == 100.0
    ensures onAfterHold && !controllerOnAfterHold
    ensures !onAtEnd
    ensures firstOffRead && !secondOffRead
  {
    var c := new PIDController();
    var hold := SchedulePoint(HOLD, 100.0, 10, true);
    var off := SchedulePoint(SWITCHED_OFF, 0.0, 0, true);
    c.allSchedules[0] := OvenSchedule("bisque", [hold, off] + seq(MAX_POINTS_PER_SCHEDULE - 2, _ => DefaultPoint));
    c.SetUserIsApproved(true);
    c.SwitchOvenOn(0);
    assert c.SelectedPoints()[0] == hold;
    holdSetPoint := c.setPointTemp;
    c.ScheduleLoop(600001);
    onAfterHold := c.ovenIsOn;
    controllerOnAfterHold := c.allowPIDControllerIsOn;
    c.ScheduleLoop(600002);
    onAtEnd := c.ovenIsOn;
    firstOffRead := c.OvenIsSwitchedOff();
    secondOffRead := c.OvenIsSwitchedOff();
  }

  /** As written, the selection moves during a run: a run started on a
      schedule holding at 100 degrees goes on, after a "next schedule"
      request, at the same segment index of the next schedule (a ramp to
      1200 degrees), while the controller still holds the old setpoint. */
  method SelectDuringRunSwitchesSchedule() returns (on: bool, runGoal: real, setPoint: real)
    ensures on && runGoal == 1200.0 && setPoint == 100.0
  {
    var c := new PIDController();
    var rest := seq(MAX_POINTS_PER_SCHEDULE - 1, _ => DefaultPoint);
    c.allSchedules[0] := OvenSchedule("bisque", [SchedulePoint(HOLD, 100.0, 10, true)] + rest);
    c.allSchedules[1] := OvenSchedule("glaze", [SchedulePoint(RAMP, 1200.0, 60, true)] + rest);
    c.SetUserIsApproved(true);
    c.SwitchOvenOn(0);
    assert c.SelectedPoints()[0].segmentIsUsed;
    c.HandleSelectWebPage(true, SensorReading(20.0, 20.0, 0));
    on := c.ovenIsOn;
    runGoal := c.allSchedules[c.selectedSchedule].schedulePoint[c.currentPoint].tempGoal;
    setPoint := c.setPointTemp;
  }
}
