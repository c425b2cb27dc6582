/**
 * The value-level logic of the kiln controller (src/pid.cpp): the scan for
 * the next used segment, the thermocouple fault debounce, the ramp
 * interpolation, the SSR time-proportioning window, the mapping of the
 * schedule-edit form onto a schedule, and the wrap-around of schedule
 * indices. The class in pid_controller.dfy states its methods in these terms.
 */
module PidLogic {
  import opened PidDefs

  function Min(a: int, b: int): int { if a <= b then a else b }
  function MinReal(a: real, b: real): real { if a <= b then a else b }
  function MaxReal(a: real, b: real): real { if a <= b then b else a }

  // ---------------------------------------------------------------------
  // Segment search (pid.cpp:265-278, 928-930, 980-982)
  // ---------------------------------------------------------------------

  /** The index of the first used segment at or after `from`, or |points|
      when there is none: where the while-loops of switchOvenOn and
      scheduleLoop stop. */
  function FirstUsedFrom(points: seq<SchedulePoint>, from: nat): (r: nat)
    requires from <= |points|
    ensures from <= r <= |points|
    ensures forall i :: from <= i < r ==> !points[i].segmentIsUsed
    ensures r < |points| ==> points[r].segmentIsUsed
    decreases |points| - from
  {
    if from == |points| then from
    else if points[from].segmentIsUsed then from
    else FirstUsedFrom(points, from + 1)
  }

  /** What getScheduleIsEmpty reports: no segment of the schedule is used. */
  predicate NoSegmentUsed(points: seq<SchedulePoint>) {
    forall i :: 0 <= i < |points| ==> !points[i].segmentIsUsed
  }

  /** The scan from index 0 runs off the end exactly when the schedule is
      empty, so switchOvenOn starts the oven exactly when getScheduleIsEmpty
      would report false. */
  lemma EmptyIffNoFirstUsed(points: seq<SchedulePoint>)
    ensures FirstUsedFrom(points, 0) == |points| <==> NoSegmentUsed(points)
  {
    var r := FirstUsedFrom(points, 0);
    if r < |points| {
      assert points[r].segmentIsUsed;
    }
  }

  /** FirstUsedFrom is the only index that stops the scan: any j past
      unused segments only, at the end or on a used segment, is it. */
  lemma FirstUsedUnique(points: seq<SchedulePoint>, from: nat, j: nat)
    requires from <= j <= |points|
    requires forall k :: from <= k < j ==> !points[k].segmentIsUsed
    requires j < |points| ==> points[j].segmentIsUsed
    ensures FirstUsedFrom(points, from) == j
  {
  }

  // ---------------------------------------------------------------------
  // Thermocouple reading and fault debounce (pid.cpp:180-231)
  // ---------------------------------------------------------------------

  type Byte = x: int | 0 <= x < 256

  /** What the three sensor calls of measureOvenTemps return: the
      cold-junction temperature, the thermocouple temperature and the
      fault register (0 = no fault). */
  datatype SensorReading = SensorReading(
    coldJunctionTemp: real,
    thermocoupleTemp: real,
    fault: Byte)

  /** The value measureOvenTemps returns for a reading. */
  function MeasuredTemp(reading: SensorReading): (t: real)
    ensures reading.fault != 0 ==> t == INVALID_TEMP
    ensures reading.fault == 0 ==> t == reading.thermocoupleTemp
  {
    if reading.fault != 0 then INVALID_TEMP else reading.thermocoupleTemp
  }

  /** The debounce part of the controller state: tempFaultCount and tempFault. */
  datatype FaultDebounce = FaultDebounce(tempFaultCount: nat, tempFault: bool)

  /** The invariant the debounce keeps: the count never passes
      MAX_TEMPFAULTS, and a declared fault means the count is full. */
  predicate DebounceOk(d: FaultDebounce) {
    d.tempFaultCount <= MAX_TEMPFAULTS &&
    (d.tempFault ==> d.tempFaultCount == MAX_TEMPFAULTS)
  }

  /** One read: a faulty read counts up to MAX_TEMPFAULTS and only then
      declares the fault; a good read clears both. */
  function DebounceStep(d: FaultDebounce, faulty: bool): (r: FaultDebounce)
    ensures !faulty ==> r == FaultDebounce(0, false)
    ensures faulty && DebounceOk(d) ==>
      r.tempFaultCount == Min(d.tempFaultCount + 1, MAX_TEMPFAULTS) &&
      (r.tempFault <==> d.tempFault || d.tempFaultCount == MAX_TEMPFAULTS)
    ensures DebounceOk(d) ==> DebounceOk(r)
  {
    if !faulty then FaultDebounce(0, false)
    else if d.tempFaultCount < MAX_TEMPFAULTS then d.(tempFaultCount := d.tempFaultCount + 1)
    else d.(tempFault := true)
  }

  /** The debounce state after k consecutive faulty reads. */
  function AfterFaultyReads(d: FaultDebounce, k: nat): FaultDebounce
    decreases k
  {
    if k == 0 then d else AfterFaultyReads(DebounceStep(d, true), k - 1)
  }

  /** k consecutive faulty reads add k to the count, capped at
      MAX_TEMPFAULTS, and declare the fault once the count would pass it. */
  lemma {:induction false} FaultyReads(d: FaultDebounce, k: nat)
    requires DebounceOk(d)
    ensures AfterFaultyReads(d, k) ==
      FaultDebounce(Min(d.tempFaultCount + k, MAX_TEMPFAULTS),
                    d.tempFault || d.tempFaultCount + k > MAX_TEMPFAULTS)
    decreases k
  {
    if k > 0 {
      FaultyReads(DebounceStep(d, true), k - 1);
    }
  }

  /** From a clear state the fault is declared on the (MAX_TEMPFAULTS+1)-th
      consecutive faulty read and not before. */
  lemma FaultDeclaredAfterMaxPlusOne(k: nat)
    ensures AfterFaultyReads(FaultDebounce(0, false), k).tempFault <==> k > MAX_TEMPFAULTS
    ensures AfterFaultyReads(FaultDebounce(0, false), k).tempFaultCount == Min(k, MAX_TEMPFAULTS)
  {
    FaultyReads(FaultDebounce(0, false), k);
  }

  // ---------------------------------------------------------------------
  // Ramp interpolation (pid.cpp:906-918, 993-997)
  // ---------------------------------------------------------------------

  /** Number of ramp steps of SCHEDULE_SAMPLE_TIME that fit a segment. */
  function RampTicks(minutes: nat): nat {
    minutes * MS_PER_MINUTE / SCHEDULE_SAMPLE_TIME
  }

  /** The per-step increment selectMode computes for a ramp (pid.cpp:913),
      in exact arithmetic. */
  function RampDelta(previousGoal: real, nextGoal: real, minutes: nat): real
    requires minutes >= 1
  {
    (nextGoal - previousGoal) /
      (minutes as real * MS_PER_MINUTE as real / SCHEDULE_SAMPLE_TIME as real)
  }

  /** The ramp value after k steps of `rampValue = rampValue + deltaTemp`. */
  function RampAfter(start: real, delta: real, k: nat): real
    decreases k
  {
    if k == 0 then start else RampAfter(start + delta, delta, k - 1)
  }

  lemma {:induction false} RampAfterIsLinear(start: real, delta: real, k: nat)
    ensures RampAfter(start, delta, k) == start + k as real * delta
    decreases k
  {
    if k > 0 {
      RampAfterIsLinear(start + delta, delta, k - 1);
    }
  }

  lemma RampTicksExact(minutes: nat)
    ensures RampTicks(minutes) == minutes * 60
    ensures RampTicks(minutes) as real ==
      minutes as real * MS_PER_MINUTE as real / SCHEDULE_SAMPLE_TIME as real
  {
  }

  /** After as many steps as the segment holds, the ramp has reached the
      segment's goal exactly (in exact arithmetic). */
  lemma RampReachesGoal(previousGoal: real, nextGoal: real, minutes: nat)
    requires minutes >= 1
    ensures RampAfter(previousGoal, RampDelta(previousGoal, nextGoal, minutes), RampTicks(minutes))
            == nextGoal
  {
    var n := RampTicks(minutes);
    var delta := RampDelta(previousGoal, nextGoal, minutes);
    RampTicksExact(minutes);
    RampAfterIsLinear(previousGoal, delta, n);
    assert delta == (nextGoal - previousGoal) / (n as real);
    assert n as real * delta == nextGoal - previousGoal;
  }

  /** In a run the last step of a ramp never fires (see
      LastRampStepPreempted): the segment ends with the ramp one step of
      deltaTemp short of its goal, so within one sample step of it. */
  lemma RampOneStepShort(previousGoal: real, nextGoal: real, minutes: nat)
    requires minutes >= 1
    ensures RampAfter(previousGoal, RampDelta(previousGoal, nextGoal, minutes), RampTicks(minutes) - 1)
            == nextGoal - RampDelta(previousGoal, nextGoal, minutes)
    ensures previousGoal != nextGoal ==>
      RampAfter(previousGoal, RampDelta(previousGoal, nextGoal, minutes), RampTicks(minutes) - 1)
      != nextGoal
  {
    var n := RampTicks(minutes);
    var delta := RampDelta(previousGoal, nextGoal, minutes);
    RampTicksExact(minutes);
    RampAfterIsLinear(previousGoal, delta, n - 1);
    assert n as real * delta == nextGoal - previousGoal;
    assert (n - 1) as real * delta == n as real * delta - delta;
    if previousGoal != nextGoal {
      assert delta != 0.0;
    }
  }

  /** The timing of a ramp inside a run. A segment of `minutes` minutes was
      entered at `segmentStart`, no earlier than `ovenStart + previousEnd`
      (switchOvenOn enters the first segment at ovenStart with previousEnd
      0; scheduleLoop enters the next one once `now - ovenStart` has passed
      previousEnd), and its end time is previousEnd plus its duration
      (pid.cpp:941-943, 984-985). The j-th ramp step can fire only once
      `now - segmentStart` exceeds j sample periods (pid.cpp:993-995). For
      any j of RampTicks(minutes) or more, every such `now` is past the end
      of the segment, and scheduleLoop checks the end first (pid.cpp:973),
      so at most RampTicks(minutes) - 1 steps are taken. */
  lemma LastRampStepPreempted(ovenStart: nat, previousEnd: nat, segmentStart: nat, minutes: nat,
                              j: nat, now: nat)
    requires ovenStart + previousEnd <= segmentStart
    requires j >= RampTicks(minutes) && now > segmentStart + j * SCHEDULE_SAMPLE_TIME
    ensures now - ovenStart > previousEnd + minutes * MS_PER_MINUTE
  {
    RampTicksExact(minutes);
    assert j * SCHEDULE_SAMPLE_TIME >= minutes * 60 * SCHEDULE_SAMPLE_TIME;
  }

  /** Every intermediate ramp value lies between the previous and the next
      goal: the ramp approaches the goal without overshoot. */
  lemma RampStaysBetween(previousGoal: real, nextGoal: real, minutes: nat, k: nat)
    requires minutes >= 1 && k <= RampTicks(minutes)
    ensures MinReal(previousGoal, nextGoal)
            <= RampAfter(previousGoal, RampDelta(previousGoal, nextGoal, minutes), k)
            <= MaxReal(previousGoal, nextGoal)
  {
    var n := RampTicks(minutes);
    var delta := RampDelta(previousGoal, nextGoal, minutes);
    RampTicksExact(minutes);
    RampAfterIsLinear(previousGoal, delta, k);
    var t := k as real / n as real;
    assert 0.0 <= t <= 1.0;
    assert k as real * delta == t * (nextGoal - previousGoal);
    var v := RampAfter(previousGoal, delta, k);
    var d := nextGoal - previousGoal;
    var td := t * d;
    assert v == previousGoal + td;
    if previousGoal <= nextGoal {
      ScaleDown(t, d);
      assert 0.0 <= td <= d;
    } else {
      ScaleDown(t, -d);
      assert t * (-d) == -td;
    }
  }

  lemma ScaleDown(t: real, d: real)
    requires 0.0 <= t <= 1.0 && d >= 0.0
    ensures 0.0 <= t * d <= d
  {
    assert d - t * d == (1.0 - t) * d;
  }

  /** Successive ramp values move monotonically toward the goal. */
  lemma {:induction false} RampMonotone(start: real, delta: real, j: nat, k: nat)
    requires j <= k
    ensures delta >= 0.0 ==> RampAfter(start, delta, j) <= RampAfter(start, delta, k)
    ensures delta <= 0.0 ==> RampAfter(start, delta, j) >= RampAfter(start, delta, k)
  {
    RampAfterIsLinear(start, delta, j);
    RampAfterIsLinear(start, delta, k);
    assert (k as real - j as real) * delta == k as real * delta - j as real * delta;
  }

  // ---------------------------------------------------------------------
  // SSR time-proportioning window (pid.cpp:130-146)
  // ---------------------------------------------------------------------

  /** Where the window starts after one PIDloop pass: it moves on by one
      whole window once `now` is past it, never jumping to `now`. */
  function PulseWindowStart(now: nat, pulseStartTime: nat, range: nat): (r: nat)
    requires pulseStartTime <= now
    ensures r == pulseStartTime || r == pulseStartTime + range
    ensures pulseStartTime <= r <= now
  {
    if now - pulseStartTime > range then pulseStartTime + range else pulseStartTime
  }

  /** A window start that lags `now` by at most two windows lags by at most
      one after the pass: the window keeps up with a loop called at least
      once per window. */
  lemma WindowCatchesUp(now: nat, pulseStartTime: nat, range: nat)
    requires pulseStartTime <= now && now - pulseStartTime <= 2 * range
    ensures now - PulseWindowStart(now, pulseStartTime, range) <= range
  {
  }

  /** Whether the SSR is on, `elapsed` ms into its window. */
  predicate SsrOnAt(elapsed: nat, outputPower: real) {
    (elapsed as real) < outputPower
  }

  /** The number of whole milliseconds within the first `window` ms of a
      window at which the SSR is on. */
  function OnTime(window: nat, outputPower: real): nat
    decreases window
  {
    if window == 0 then 0
    else OnTime(window - 1, outputPower) + (if SsrOnAt(window - 1, outputPower) then 1 else 0)
  }

  /** The least natural number not below p. */
  function CeilNat(p: real): nat
    requires p >= 0.0
  {
    if p.Floor as real == p then p.Floor else p.Floor + 1
  }

  lemma BelowCeil(t: nat, p: real)
    requires p >= 0.0
    ensures (t as real) < p <==> t < CeilNat(p)
  {
  }

  /** Duty cycle of the first window, which setControllerOn starts at `now`
      so that it covers elapsed 0..window-1: the SSR is on for outputPower
      ms, rounded up to whole ms and capped by the window. */
  lemma {:induction false} DutyCycle(window: nat, outputPower: real)
    requires outputPower >= 0.0
    ensures OnTime(window, outputPower) == Min(window, CeilNat(outputPower))
    decreases window
  {
    if window > 0 {
      DutyCycle(window - 1, outputPower);
      BelowCeil(window - 1, outputPower);
    }
  }

  /** The number of whole milliseconds at elapsed 1..window at which the SSR
      is on: the span of every window after a shift, since the start moves
      only once the elapsed time exceeds the width and is then 1 or more. */
  function ShiftedOnTime(window: nat, outputPower: real): nat
    decreases window
  {
    if window == 0 then 0
    else ShiftedOnTime(window - 1, outputPower) + (if SsrOnAt(window, outputPower) then 1 else 0)
  }

  /** A pass that shifts the window leaves it at least 1 ms old, and, for a
      loop that keeps up (WindowCatchesUp), at most one width old. */
  lemma ShiftedWindowSpan(now: nat, pulseStartTime: nat, range: nat)
    requires pulseStartTime <= now && range < now - pulseStartTime <= 2 * range
    ensures PulseWindowStart(now, pulseStartTime, range) == pulseStartTime + range
    ensures 1 <= now - PulseWindowStart(now, pulseStartTime, range) <= range
  {
  }

  /** Duty cycle of a shifted window: the SSR is on for one millisecond less
      than DutyCycle gives, because elapsed 0 is never seen. At full power
      (outputPower equal to the width) it is off for 1 ms per window. */
  lemma {:induction false} ShiftedDutyCycle(window: nat, outputPower: real)
    requires outputPower >= 0.0
    ensures ShiftedOnTime(window, outputPower) ==
      (if CeilNat(outputPower) == 0 then 0 else Min(window, CeilNat(outputPower) - 1))
    decreases window
  {
    if window > 0 {
      ShiftedDutyCycle(window - 1, outputPower);
      BelowCeil(window, outputPower);
    }
  }

  // ---------------------------------------------------------------------
  // The schedule-edit form (pid.cpp:808-850)
  // ---------------------------------------------------------------------

  /** Names of the text arguments changeParams reads: `scheduleName`,
      `mode_<i>` and `segmentIsUsed_<i>`. */
  datatype FormKey = ScheduleNameArg | ModeArg(segment: nat) | SegmentIsUsedArg(segment: nat)

  /** The arguments of one form request. The numeric fields `tempGoal_<i>`
      and `timeToNextPoint_<i>` are given already converted, keyed by segment. */
  datatype WebForm = WebForm(
    text: map<FormKey, string>,
    tempGoal: map<nat, real>,
    timeToNextPoint: map<nat, nat>)

  /** The web server's `arg`: the empty string for an absent argument. */
  function Arg(form: WebForm, key: FormKey): string {
    if key in form.text then form.text[key] else ""
  }

  /** The option values of the mode selector on the edit page (pid.cpp:575-590). */
  function ModeValue(m: TempMode): string {
    match m
    case SWITCHED_OFF => "switched_off"
    case HOLD => "hold"
    case RAMP => "ramp"
  }

  /** The mode changeParams stores for a `mode_<i>` value: one of the three
      option values selects its mode, anything else keeps the current one. */
  function ParsedMode(value: string, current: TempMode): (r: TempMode)
    ensures (exists m :: value == ModeValue(m)) ==> value == ModeValue(r)
    ensures (forall m :: value != ModeValue(m)) ==> r == current
  {
    if value == "switched_off" then SWITCHED_OFF
    else if value == "hold" then HOLD
    else if value == "ramp" then RAMP
    else current
  }

  /** The option value of each mode parses back to that mode. */
  lemma ModeValueRoundTrip(m: TempMode, current: TempMode)
    ensures ParsedMode(ModeValue(m), current) == m
  {
  }

  /** Segment i after changeParams, given its previous contents. */
  function EditedPoint(p: SchedulePoint, form: WebForm, i: nat): (r: SchedulePoint)
    ensures r.tempMode == ParsedMode(Arg(form, ModeArg(i)), p.tempMode)
    ensures r.tempGoal == (if i in form.tempGoal then form.tempGoal[i] else 0.0)
    ensures r.timeToNextPoint == (if i in form.timeToNextPoint then form.timeToNextPoint[i] else 0)
    ensures r.segmentIsUsed <==>
      SegmentIsUsedArg(i) in form.text && form.text[SegmentIsUsedArg(i)] == "on"
  {
    SchedulePoint(
      ParsedMode(Arg(form, ModeArg(i)), p.tempMode),
      if i in form.tempGoal then form.tempGoal[i] else 0.0,
      if i in form.timeToNextPoint then form.timeToNextPoint[i] else 0,
      SegmentIsUsedArg(i) in form.text && form.text[SegmentIsUsedArg(i)] == "on")
  }

  /** The longest prefix of s that holds no NUL and at most `limit`
      characters: what strncpy into a buffer of limit+1 bytes followed by
      terminating the last byte leaves as a C string. */
  function CStringPrefix(s: string, limit: nat): (r: string)
    ensures |r| <= limit && |r| <= |s| && r == s[..|r|]
    ensures forall k :: 0 <= k < |r| ==> r[k] != '\0'
    ensures |r| == |s| || |r| == limit || s[|r|] == '\0'
    decreases limit
  {
    if s == [] || limit == 0 || s[0] == '\0' then []
    else [s[0]] + CStringPrefix(s[1..], limit - 1)
  }

  /** The schedule name changeParams stores (pid.cpp:813-815). */
  function TruncatedName(s: string): (r: string)
    ensures |r| < SCHEDULE_NAME_SIZE && |r| <= |s| && r == s[..|r|]
    ensures forall k :: 0 <= k < |r| ==> r[k] != '\0'
    ensures |r| == |s| || |r| == SCHEDULE_NAME_SIZE - 1 || s[|r|] == '\0'
  {
    CStringPrefix(s, SCHEDULE_NAME_SIZE - 1)
  }

  lemma {:induction false} CStringPrefixIdempotent(s: string, limit: nat)
    ensures CStringPrefix(CStringPrefix(s, limit), limit) == CStringPrefix(s, limit)
    decreases limit
  {
    if !(s == [] || limit == 0 || s[0] == '\0') {
      var t := CStringPrefix(s[1..], limit - 1);
      CStringPrefixIdempotent(s[1..], limit - 1);
      assert ([s[0]] + t)[1..] == t;
    }
  }

  /** A name that already fits the buffer and holds no NUL is stored as is. */
  lemma {:induction false} CStringPrefixKeepsFitting(s: string, limit: nat)
    requires |s| <= limit
    requires forall k :: 0 <= k < |s| ==> s[k] != '\0'
    ensures CStringPrefix(s, limit) == s
    decreases limit
  {
    if s != [] {
      CStringPrefixKeepsFitting(s[1..], limit - 1);
      assert [s[0]] + s[1..] == s;
    }
  }

  lemma NameKeptWhenItFits(s: string)
    requires |s| < SCHEDULE_NAME_SIZE
    requires forall k :: 0 <= k < |s| ==> s[k] != '\0'
    ensures TruncatedName(s) == s
  {
    CStringPrefixKeepsFitting(s, SCHEDULE_NAME_SIZE - 1);
  }

  /** The whole schedule after changeParams (pid.cpp:813-848). */
  function EditedSchedule(s: OvenSchedule, form: WebForm): (r: OvenSchedule)
    requires WellFormed(s)
    ensures WellFormed(r)
    ensures r.scheduleName == TruncatedName(Arg(form, ScheduleNameArg))
    ensures forall i :: 0 <= i < MAX_POINTS_PER_SCHEDULE ==>
      r.schedulePoint[i] == EditedPoint(s.schedulePoint[i], form, i)
  {
    OvenSchedule(
      TruncatedName(Arg(form, ScheduleNameArg)),
      seq(MAX_POINTS_PER_SCHEDULE, i requires 0 <= i < MAX_POINTS_PER_SCHEDULE =>
        EditedPoint(s.schedulePoint[i], form, i)))
  }

  /** Submitting the same form twice leaves the schedule as submitting it once. */
  lemma EditIdempotent(s: OvenSchedule, form: WebForm)
    requires WellFormed(s)
    ensures EditedSchedule(EditedSchedule(s, form), form) == EditedSchedule(s, form)
  {
    var once := EditedSchedule(s, form);
    var twice := EditedSchedule(once, form);
    CStringPrefixIdempotent(Arg(form, ScheduleNameArg), SCHEDULE_NAME_SIZE - 1);
    assert twice.schedulePoint == once.schedulePoint;
  }

  /** After an edit, the segments the form marks used are the segments of
      the schedule that a run will visit; a form marking none leaves a
      schedule that cannot be started. */
  lemma EditWithoutUsedMarksEmpties(s: OvenSchedule, form: WebForm)
    requires WellFormed(s)
    requires forall i :: SegmentIsUsedArg(i) !in form.text
    ensures NoSegmentUsed(EditedSchedule(s, form).schedulePoint)
  {
  }

  // ---------------------------------------------------------------------
  // Wrap-around schedule navigation (pid.cpp:770-806, 1055-1068)
  // ---------------------------------------------------------------------

  /** The "next schedule" index: one up, wrapping from the last slot to 0. */
  function NextScheduleIndex(i: nat): (r: nat)
    requires i < MAX_NR_OF_SCHEDULES
    ensures r < MAX_NR_OF_SCHEDULES
    ensures r == (i + 1) % MAX_NR_OF_SCHEDULES
  {
    if i < MAX_NR_OF_SCHEDULES - 1 then i + 1 else 0
  }

  /** The "previous schedule" index: one down, wrapping from 0 to the last slot. */
  function PrevScheduleIndex(i: nat): (r: nat)
    requires i < MAX_NR_OF_SCHEDULES
    ensures r < MAX_NR_OF_SCHEDULES
    ensures (r + 1) % MAX_NR_OF_SCHEDULES == i
  {
    if i > 0 then i - 1 else MAX_NR_OF_SCHEDULES - 1
  }

  /** Next and previous undo each other. */
  lemma NextPrevInverse(i: nat)
    requires i < MAX_NR_OF_SCHEDULES
    ensures PrevScheduleIndex(NextScheduleIndex(i)) == i
    ensures NextScheduleIndex(PrevScheduleIndex(i)) == i
  {
  }

  /** MAX_NR_OF_SCHEDULES steps forward return to the start: navigation
      visits every slot. */
  function NextScheduleIndexN(i: nat, k: nat): (r: nat)
    requires i < MAX_NR_OF_SCHEDULES
    ensures r < MAX_NR_OF_SCHEDULES
    decreases k
  {
    if k == 0 then i else NextScheduleIndexN(NextScheduleIndex(i), k - 1)
  }

  lemma {:induction false} NextScheduleIndexNIsModular(i: nat, k: nat)
    requires i < MAX_NR_OF_SCHEDULES
    ensures NextScheduleIndexN(i, k) == (i + k) % MAX_NR_OF_SCHEDULES
    decreases k
  {
    if k > 0 {
      NextScheduleIndexNIsModular(NextScheduleIndex(i), k - 1);
    }
  }
}
