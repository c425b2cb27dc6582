/**
 * The door access state machine of the node (src/main.cpp): twelve states,
 * a table holding each state's timeout and the state a timeout leads to,
 * the per-tick transition logic of `loop()`, and the callbacks the access
 * control library invokes on approval, denial, card swipe, connection and
 * error.
 *
 * The behaviour is first stated on values (`Door`, `LoopStep`, `Approve`,
 * ...), where the properties are proved as lemmas; class `DoorNode` then
 * holds the globals of main.cpp as fields, and each of its methods is proved
 * to change them exactly as the matching function says.
 *
 * The clock is the parameter `now` (milliseconds, never behind the time of
 * the last recorded state change); the door lock output is the field
 * `doorIsOpen`, which openDoor and closeDoor set.
 */
module DoorAccess {

  // ---- states and the state table (main.cpp:72, 98-137) ----

  /** machinestates_t, in declaration order. */
  datatype MachineState =
    | BOOTING | OUTOFORDER | REBOOT | TRANSIENTERROR | NOCONN
    | WAITINGFORCARD | CHECKINGCARD | CLEARSTATUS
    | APPROVED | REJECTED | LOCKOPEN | LOCKCLOSED

  const STATE_COUNT: nat := 12

  /** A maximum time in state of NEVER means the state never times out. */
  const NEVER: nat := 0

  /** How long the lock stays open after an approval, in seconds. */
  const DOOR_OPEN_TIME: nat := 15

  /** The enum value of a state, which the C code compares with `>` and
      uses to index the state table. */
  function Ordinal(s: MachineState): (k: nat)
    ensures k < STATE_COUNT
  {
    match s
    case BOOTING => 0
    case OUTOFORDER => 1
    case REBOOT => 2
    case TRANSIENTERROR => 3
    case NOCONN => 4
    case WAITINGFORCARD => 5
    case CHECKINGCARD => 6
    case CLEARSTATUS => 7
    case APPROVED => 8
    case REJECTED => 9
    case LOCKOPEN => 10
    case LOCKCLOSED => 11
  }

  /** The state with a given enum value. */
  function StateAt(k: nat): (s: MachineState)
    requires k < STATE_COUNT
    ensures Ordinal(s) == k
  {
    [BOOTING, OUTOFORDER, REBOOT, TRANSIENTERROR, NOCONN,
     WAITINGFORCARD, CHECKINGCARD, CLEARSTATUS,
     APPROVED, REJECTED, LOCKOPEN, LOCKCLOSED][k]
  }

  /** Ordinal and StateAt are inverse: the enum values number the states
      one to one. */
  lemma OrdinalRoundTrip(s: MachineState, k: nat)
    requires k < STATE_COUNT
    ensures StateAt(Ordinal(s)) == s
    ensures Ordinal(StateAt(k)) == k
    ensures Ordinal(s) == k <==> s == StateAt(k)
  {
  }

  /** One row of the `state[]` table; the LED pattern is left out. */
  datatype StateRow = StateRow(
    name: string,
    maxTimeInMilliSeconds: nat,
    failStateOnTimeout: MachineState,
    timeInState: nat,            // seconds
    timeoutTransitions: nat,
    autoReportCycle: nat)

  /** The columns of a row the program never writes. */
  predicate SameConfig(r: StateRow, q: StateRow) {
    r.name == q.name &&
    r.maxTimeInMilliSeconds == q.maxTimeInMilliSeconds &&
    r.failStateOnTimeout == q.failStateOnTimeout &&
    r.autoReportCycle == q.autoReportCycle
  }

  /** A row as its brace initialiser fills it: the fifth value lands in
      timeInState, and the fields after it are zero. */
  function Row(name: string, maxTime: nat, failState: MachineState, fifth: nat): StateRow {
    StateRow(name, maxTime, failState, fifth, 0, 0)
  }

  /** The `state[]` table as initialised (main.cpp:115-137). */
  function InitialTable(): (t: seq<StateRow>)
    ensures |t| == STATE_COUNT
  {
    [ Row("Booting",             120 * 1000, REBOOT,         0),
      Row("Out of order",        120 * 1000, REBOOT,         5 * 60 * 1000),
      Row("Rebooting",           120 * 1000, REBOOT,         0),
      Row("Transient Error",       5 * 1000, WAITINGFORCARD, 5 * 60 * 1000),
      Row("No network",               NEVER, NOCONN,         0),
      Row("Waiting for card",         NEVER, WAITINGFORCARD, 0),
      Row("Checking card",         5 * 1000, REJECTED,       0),
      Row("Clear status",             NEVER, WAITINGFORCARD, 0),
      Row("Approved card",        60 * 1000, CLEARSTATUS,    0),
      Row("Rejected",              5 * 1000, CLEARSTATUS,    0),
      Row("Door lock is open",    DOOR_OPEN_TIME * 1000, LOCKCLOSED, 0),
      Row("Door lock is closed",      NEVER, WAITINGFORCARD, 0) ]
  }

  /** A table that is the initial one up to the two counters each row keeps. */
  ghost predicate TableOk(t: seq<StateRow>) {
    |t| == STATE_COUNT &&
    forall k :: 0 <= k < STATE_COUNT ==> SameConfig(t[k], InitialTable()[k])
  }

  /** The timeout of a state and the state it leads to. */
  function MaxTime(t: seq<StateRow>, s: MachineState): nat
    requires |t| == STATE_COUNT
  {
    t[Ordinal(s)].maxTimeInMilliSeconds
  }

  function FailState(t: seq<StateRow>, s: MachineState): MachineState
    requires |t| == STATE_COUNT
  {
    t[Ordinal(s)].failStateOnTimeout
  }

  /** Exactly NOCONN, WAITINGFORCARD, CLEARSTATUS and LOCKCLOSED have no
      timeout. */
  lemma NeverStates(t: seq<StateRow>, s: MachineState)
    requires TableOk(t)
    ensures MaxTime(t, s) == NEVER <==>
      s == NOCONN || s == WAITINGFORCARD || s == CLEARSTATUS || s == LOCKCLOSED
  {
    assert SameConfig(t[Ordinal(s)], InitialTable()[Ordinal(s)]);
  }

  /** The lock stays open for DOOR_OPEN_TIME seconds, then the state
      moves on to LOCKCLOSED. */
  lemma LockOpenTimeout(t: seq<StateRow>)
    requires TableOk(t)
    ensures MaxTime(t, LOCKOPEN) == 15000
    ensures FailState(t, LOCKOPEN) == LOCKCLOSED
  {
    assert SameConfig(t[10], InitialTable()[10]);
  }

  /** The initial table is a table whose counters all start at zero except
      the time in state of OUTOFORDER and TRANSIENTERROR, which start at
      five minutes, and no row has an auto-report cycle. */
  lemma InitialTableMisplacesReportCycle()
    ensures TableOk(InitialTable())
    ensures forall k :: 0 <= k < STATE_COUNT ==>
      InitialTable()[k].autoReportCycle == 0 && InitialTable()[k].timeoutTransitions == 0
    ensures InitialTable()[Ordinal(OUTOFORDER)].timeInState == 300000
    ensures InitialTable()[Ordinal(TRANSIENTERROR)].timeInState == 300000
  {
  }

  /** The table as its layout evidently intends: the five-minute values are
      the auto-report cycles of OUTOFORDER and TRANSIENTERROR. */
  function IntendedTable(): (t: seq<StateRow>)
    ensures |t| == STATE_COUNT
  {
    InitialTable()[1 := StateRow("Out of order", 120 * 1000, REBOOT, 0, 0, 5 * 60 * 1000)]
                  [3 := StateRow("Transient Error", 5 * 1000, WAITINGFORCARD, 0, 0, 5 * 60 * 1000)]
  }

  /** In the intended table every counter starts at zero, the two states
      report every five minutes, and timeouts and fail states are those of
      the initial table. */
  lemma IntendedTableStartsClean()
    ensures forall k :: 0 <= k < STATE_COUNT ==>
      IntendedTable()[k].timeInState == 0 && IntendedTable()[k].timeoutTransitions == 0
    ensures IntendedTable()[Ordinal(OUTOFORDER)].autoReportCycle == 300000
    ensures IntendedTable()[Ordinal(TRANSIENTERROR)].autoReportCycle == 300000
    ensures forall k :: 0 <= k < STATE_COUNT ==>
      IntendedTable()[k].name == InitialTable()[k].name &&
      IntendedTable()[k].maxTimeInMilliSeconds == InitialTable()[k].maxTimeInMilliSeconds &&
      IntendedTable()[k].failStateOnTimeout == InitialTable()[k].failStateOnTimeout
  {
  }

  // ---- the machine as a value ----

  /** The globals of main.cpp the state machine reads and writes
      (main.cpp:139-149) and the door lock level. */
  datatype Door = Door(
    machinestate: MachineState,
    laststate: MachineState,
    laststatechange: nat,
    approvedCards: nat,
    rejectedCards: nat,
    firstOnConnectTime: bool,
    doorIsOpen: bool,
    table: seq<StateRow>)

  /** A machine a pass of loop() can run on: a row per state and a state
      change that is not in the future. */
  predicate Ready(d: Door, now: nat) {
    |d.table| == STATE_COUNT && d.laststatechange <= now
  }

  /** After boot: BOOTING, with OUTOFORDER as the last state so that the
      first tick records a state change, and the lock closed
      (MCP23017IO.cpp:14-15). */
  function InitialDoor(): (d: Door)
    ensures Ready(d, 0) && TableOk(d.table)
    ensures d.machinestate == BOOTING && d.laststate != d.machinestate
    ensures d.approvedCards == 0 && d.rejectedCards == 0 && !d.doorIsOpen
  {
    InitialTableMisplacesReportCycle();
    Door(BOOTING, OUTOFORDER, 0, 0, 0, true, false, InitialTable())
  }

  /** The state of the current row has outlived its maximum time. */
  predicate TimedOut(d: Door, now: nat)
    requires |d.table| == STATE_COUNT && d.laststatechange <= now
  {
    MaxTime(d.table, d.machinestate) != NEVER &&
    now - d.laststatechange > MaxTime(d.table, d.machinestate)
  }

  /** The per-state action at the end of loop() (main.cpp:395-426). */
  function Action(d: Door): (e: Door)
    ensures e.table == d.table && e.laststate == d.laststate &&
            e.laststatechange == d.laststatechange &&
            e.firstOnConnectTime == d.firstOnConnectTime
    ensures e.approvedCards == d.approvedCards
    ensures e.rejectedCards == d.rejectedCards + (if d.machinestate == REJECTED then 1 else 0)
    ensures e.machinestate != d.machinestate ==>
      e.machinestate == (if d.machinestate == APPROVED then LOCKOPEN else WAITINGFORCARD)
    ensures e.machinestate != d.machinestate <==>
      d.machinestate in {CLEARSTATUS, REJECTED, APPROVED, LOCKCLOSED}
    ensures e.doorIsOpen <==>
      d.machinestate == APPROVED || (d.doorIsOpen && d.machinestate != LOCKCLOSED)
  {
    match d.machinestate
    case CLEARSTATUS => d.(machinestate := WAITINGFORCARD)
    case REJECTED => d.(rejectedCards := d.rejectedCards + 1, machinestate := WAITINGFORCARD)
    case APPROVED => d.(doorIsOpen := true, machinestate := LOCKOPEN)
    case LOCKCLOSED => d.(doorIsOpen := false, machinestate := WAITINGFORCARD)
    case _ => d
  }

  /** Replacing a row by one with the same configuration keeps the table
      well formed. */
  lemma UpdateKeepsTable(t: seq<StateRow>, k: nat, r: StateRow)
    requires TableOk(t) && k < STATE_COUNT && SameConfig(r, t[k])
    ensures TableOk(t[k := r])
  {
    assert forall j :: 0 <= j < STATE_COUNT ==> t[k := r][j] == (if j == k then r else t[j]);
  }

  /** The start of loop() when the state has changed since the last pass
      (main.cpp:362-370): the seconds spent in the last state are added to
      its row and the change is recorded; nothing else changes. */
  function RecordChange(d: Door, now: nat): (e: Door)
    requires Ready(d, now)
    ensures Ready(e, now) && e.laststatechange == now && e.laststate == d.machinestate
    ensures e.(table := d.table, laststate := d.laststate, laststatechange := d.laststatechange) == d
    ensures var k := Ordinal(d.laststate);
      e.table == d.table[k := e.table[k]] && SameConfig(e.table[k], d.table[k]) &&
      e.table[k].timeInState == d.table[k].timeInState + (now - d.laststatechange) / 1000 &&
      e.table[k].timeoutTransitions == d.table[k].timeoutTransitions
  {
    var k := Ordinal(d.laststate);
    var r := d.table[k].(timeInState := d.table[k].timeInState + (now - d.laststatechange) / 1000);
    d.(table := d.table[k := r], laststate := d.machinestate, laststatechange := now)
  }

  /** A timeout (main.cpp:372-383): it is counted in the row of the state,
      and the machine moves to the state's fail state; nothing else
      changes. */
  function TimeOut(d: Door): (e: Door)
    requires |d.table| == STATE_COUNT
    ensures |e.table| == STATE_COUNT && e.laststate == d.machinestate
    ensures e.machinestate == FailState(d.table, d.machinestate)
    ensures e.(table := d.table, laststate := d.laststate, machinestate := d.machinestate) == d
    ensures var k := Ordinal(d.machinestate);
      e.table == d.table[k := e.table[k]] && SameConfig(e.table[k], d.table[k]) &&
      e.table[k].timeoutTransitions == d.table[k].timeoutTransitions + 1 &&
      e.table[k].timeInState == d.table[k].timeInState
  {
    var k := Ordinal(d.machinestate);
    var r := d.table[k].(timeoutTransitions := d.table[k].timeoutTransitions + 1);
    d.(table := d.table[k := r], laststate := d.machinestate, machinestate := d.table[k].failStateOnTimeout)
  }

  /** One pass of loop() (main.cpp:350-427): a state change is recorded
      first and ends the pass; otherwise a timeout moves to the fail state
      and ends the pass; otherwise the state's action runs. */
  function LoopStep(d: Door, now: nat): (e: Door)
    requires Ready(d, now)
    ensures Ready(e, now)
    ensures e.approvedCards == d.approvedCards && e.rejectedCards >= d.rejectedCards
    ensures e.firstOnConnectTime == d.firstOnConnectTime
  {
    if d.laststate != d.machinestate then RecordChange(d, now)
    else if TimedOut(d, now) then TimeOut(d)
    else Action(d)
  }

  /** A pass of loop() never changes a table's configuration. */
  lemma LoopStepKeepsTable(d: Door, now: nat)
    requires Ready(d, now) && TableOk(d.table)
    ensures TableOk(LoopStep(d, now).table)
  {
    var e := LoopStep(d, now);
    if d.laststate != d.machinestate {
      UpdateKeepsTable(d.table, Ordinal(d.laststate), e.table[Ordinal(d.laststate)]);
    } else if TimedOut(d, now) {
      UpdateKeepsTable(d.table, Ordinal(d.machinestate), e.table[Ordinal(d.machinestate)]);
    }
  }

  /** onApproval (main.cpp:260-269). */
  function Approve(d: Door): (e: Door)
    ensures e.table == d.table && e.laststate == d.laststate &&
            e.laststatechange == d.laststatechange && e.rejectedCards == d.rejectedCards &&
            e.firstOnConnectTime == d.firstOnConnectTime
    ensures d.machinestate == WAITINGFORCARD || d.machinestate == CHECKINGCARD ==>
      e.approvedCards == d.approvedCards + 1 && e.doorIsOpen && e.machinestate == APPROVED
    ensures !(d.machinestate == WAITINGFORCARD || d.machinestate == CHECKINGCARD) ==> e == d
  {
    if d.machinestate == WAITINGFORCARD || d.machinestate == CHECKINGCARD then
      d.(approvedCards := d.approvedCards + 1, doorIsOpen := true, machinestate := APPROVED)
    else
      d
  }

  /** onDenied as written (main.cpp:270-278): ignored only above REJECTED
      in the enum, otherwise the state becomes REJECTED and the denial is
      counted. */
  function Deny(d: Door): (e: Door)
    ensures e.table == d.table && e.laststate == d.laststate &&
            e.laststatechange == d.laststatechange && e.approvedCards == d.approvedCards &&
            e.doorIsOpen == d.doorIsOpen && e.firstOnConnectTime == d.firstOnConnectTime
    ensures d.machinestate == LOCKOPEN || d.machinestate == LOCKCLOSED ==> e == d
    ensures !(d.machinestate == LOCKOPEN || d.machinestate == LOCKCLOSED) ==>
      e.machinestate == REJECTED && e.rejectedCards == d.rejectedCards + 1
  {
    if Ordinal(d.machinestate) > Ordinal(REJECTED) then d
    else d.(machinestate := REJECTED, rejectedCards := d.rejectedCards + 1)
  }

  /** The answer of onSwipe to the reader library. */
  datatype CmdResult = CMD_CLAIMED | CMD_DECLINE

  /** onSwipe (main.cpp:298-314): above CHECKINGCARD the swipe is claimed and
      ignored; otherwise the card is checked and the library handles it. */
  function SwipeCard(d: Door): (r: (Door, CmdResult))
    ensures r.1 == CMD_CLAIMED <==>
      d.machinestate in {CLEARSTATUS, APPROVED, REJECTED, LOCKOPEN, LOCKCLOSED}
    ensures r.1 == CMD_CLAIMED ==> r.0 == d
    ensures r.1 == CMD_DECLINE ==> r.0 == d.(machinestate := CHECKINGCARD)
  {
    if Ordinal(d.machinestate) > Ordinal(CHECKINGCARD) then (d, CMD_CLAIMED)
    else (d.(machinestate := CHECKINGCARD), CMD_DECLINE)
  }

  /** onConnect (main.cpp:246-252): only the first connection after boot
      forces WAITINGFORCARD. */
  function Connect(d: Door): (e: Door)
    ensures d.firstOnConnectTime ==> e == d.(firstOnConnectTime := false, machinestate := WAITINGFORCARD)
    ensures !d.firstOnConnectTime ==> e == d
    ensures !e.firstOnConnectTime
  {
    if d.firstOnConnectTime then d.(firstOnConnectTime := false, machinestate := WAITINGFORCARD)
    else d
  }

  /** onError (main.cpp:256-259): every error forces WAITINGFORCARD. */
  function ReportError(d: Door): (e: Door)
    ensures e.machinestate == WAITINGFORCARD
    ensures e.(machinestate := d.machinestate) == d
  {
    d.(machinestate := WAITINGFORCARD)
  }

  // ---- properties of one step ----

  /** A tick that finds a state change not yet recorded only records it:
      the seconds spent in the previous state are added to its row, and
      no timeout check or action runs (main.cpp:362-370). */
  lemma TickRecordsChangeFirst(d: Door, now: nat)
    requires Ready(d, now) && d.laststate != d.machinestate
    ensures var e := LoopStep(d, now);
      e.machinestate == d.machinestate && e.laststate == d.machinestate &&
      e.laststatechange == now &&
      e.approvedCards == d.approvedCards && e.rejectedCards == d.rejectedCards &&
      e.doorIsOpen == d.doorIsOpen &&
      e.table[Ordinal(d.laststate)].timeInState ==
        d.table[Ordinal(d.laststate)].timeInState + (now - d.laststatechange) / 1000 &&
      (forall k :: 0 <= k < STATE_COUNT ==>
         e.table[k].timeoutTransitions == d.table[k].timeoutTransitions) &&
      (forall k :: 0 <= k < STATE_COUNT && k != Ordinal(d.laststate) ==> e.table[k] == d.table[k])
  {
  }

  /** In a state with a timeout, a tick after the maximum time moves to the
      fail state and counts exactly one timeout, in that state's row; the
      door and the card counters are untouched (main.cpp:372-383). */
  lemma TimeoutCountedOnce(d: Door, now: nat)
    requires Ready(d, now) && d.laststate == d.machinestate
    requires MaxTime(d.table, d.machinestate) != NEVER
    requires now - d.laststatechange > MaxTime(d.table, d.machinestate)
    ensures var e := LoopStep(d, now); var k := Ordinal(d.machinestate);
      e.machinestate == FailState(d.table, d.machinestate) &&
      e.laststate == d.machinestate && e.laststatechange == d.laststatechange &&
      e.table[k].timeoutTransitions == d.table[k].timeoutTransitions + 1 &&
      e.table[k].timeInState == d.table[k].timeInState &&
      (forall j :: 0 <= j < STATE_COUNT && j != k ==> e.table[j] == d.table[j]) &&
      e.approvedCards == d.approvedCards && e.rejectedCards == d.rejectedCards &&
      e.doorIsOpen == d.doorIsOpen
  {
  }

  /** A state without a timeout never times out: however long it has been
      since the state change, a tick only runs the state's action. */
  lemma NeverTimesOut(d: Door, now: nat)
    requires Ready(d, now) && d.laststate == d.machinestate
    requires MaxTime(d.table, d.machinestate) == NEVER
    ensures LoopStep(d, now) == Action(d)
  {
  }

  /** The door lock is opened by approval and the APPROVED action and
      closed by the LOCKCLOSED action only. */
  lemma DoorLevelChanges(d: Door, now: nat)
    requires Ready(d, now)
    ensures LoopStep(d, now).doorIsOpen != d.doorIsOpen ==>
      d.laststate == d.machinestate && !TimedOut(d, now) &&
      ((d.machinestate == APPROVED && LoopStep(d, now).doorIsOpen) ||
       (d.machinestate == LOCKCLOSED && !LoopStep(d, now).doorIsOpen))
  {
  }

  /** A settled pass (the state change recorded, no timeout) runs the
      state's action (main.cpp:395-426): APPROVED opens the lock and moves
      to LOCKOPEN, LOCKCLOSED closes it and waits for a card, CLEARSTATUS
      waits for a card, REJECTED counts the denial and waits for a card,
      and every other state stays as it is. */
  lemma SettledPassRunsAction(d: Door, now: nat)
    requires Ready(d, now) && d.laststate == d.machinestate && !TimedOut(d, now)
    ensures d.machinestate == APPROVED ==>
      LoopStep(d, now) == d.(doorIsOpen := true, machinestate := LOCKOPEN)
    ensures d.machinestate == LOCKCLOSED ==>
      LoopStep(d, now) == d.(doorIsOpen := false, machinestate := WAITINGFORCARD)
    ensures d.machinestate == CLEARSTATUS ==>
      LoopStep(d, now) == d.(machinestate := WAITINGFORCARD)
    ensures d.machinestate == REJECTED ==>
      LoopStep(d, now) == d.(rejectedCards := d.rejectedCards + 1, machinestate := WAITINGFORCARD)
    ensures d.machinestate in {BOOTING, OUTOFORDER, REBOOT, TRANSIENTERROR, NOCONN,
                               WAITINGFORCARD, CHECKINGCARD, LOCKOPEN} ==>
      LoopStep(d, now) == d
  {
  }

  /** Denials are ignored exactly in the two lock states; swipes exactly
      from CLEARSTATUS on (the enum comparisons of main.cpp:272, 300). */
  lemma GuardsByOrdinal(s: MachineState)
    ensures Ordinal(s) > Ordinal(REJECTED) <==> s == LOCKOPEN || s == LOCKCLOSED
    ensures Ordinal(s) > Ordinal(CHECKINGCARD) <==>
      s == CLEARSTATUS || s == APPROVED || s == REJECTED || s == LOCKOPEN || s == LOCKCLOSED
  {
  }

  /** Connecting twice acts as connecting once. */
  lemma ConnectOnce(d: Door)
    ensures Connect(Connect(d)) == Connect(d)
  {
  }

  // ---- runs ----

  /** What can happen to the machine between two inspections: a pass of
      loop() a number of milliseconds after the last recorded state
      change, or one of the callbacks. */
  datatype Event =
    | LoopAfter(elapsed: nat)
    | Approval
    | Denial
    | Swipe
    | Connected
    | Error

  /** The effect of one event. */
  function Apply(d: Door, ev: Event): (e: Door)
    requires |d.table| == STATE_COUNT
    ensures |e.table| == STATE_COUNT
  {
    match ev
    case LoopAfter(elapsed) => LoopStep(d, d.laststatechange + elapsed)
    case Approval => Approve(d)
    case Denial => Deny(d)
    case Swipe => SwipeCard(d).0
    case Connected => Connect(d)
    case Error => ReportError(d)
  }

  /** The machine after a sequence of events. */
  function Run(d: Door, evs: seq<Event>): Door
    requires |d.table| == STATE_COUNT
    decreases |evs|
  {
    if |evs| == 0 then d else Run(Apply(d, evs[0]), evs[1..])
  }

  /** Over any run the table keeps its configuration, and the approved
      and rejected counters never decrease; the approved counter grows by
      at most one per event (main.cpp:148-149). */
  lemma {:induction false} RunKeepsTableAndCounters(d: Door, evs: seq<Event>)
    requires TableOk(d.table)
    ensures TableOk(Run(d, evs).table)
    ensures Run(d, evs).approvedCards >= d.approvedCards
    ensures Run(d, evs).rejectedCards >= d.rejectedCards
    ensures Run(d, evs).approvedCards <= d.approvedCards + |evs|
    decreases |evs|
  {
    if |evs| > 0 {
      if evs[0].LoopAfter? {
        LoopStepKeepsTable(d, d.laststatechange + evs[0].elapsed);
      }
      RunKeepsTableAndCounters(Apply(d, evs[0]), evs[1..]);
    }
  }

  /** After boot the first connection brings the machine to
      WAITINGFORCARD, and the next pass only records the change. */
  lemma BootThenConnect(now: nat)
    ensures var e := LoopStep(Connect(InitialDoor()), now);
      e.machinestate == WAITINGFORCARD && e.laststate == WAITINGFORCARD &&
      e.laststatechange == now && !e.firstOnConnectTime
  {
  }

  // ---- findings ----

  /** As written, one denial is counted twice: by onDenied and again by the
      REJECTED action of the pass after the state change is recorded. */
  lemma DenialCountedTwice(d: Door, t1: nat, t2: nat)
    requires Ready(d, t1) && TableOk(d.table) && t1 <= t2 && t2 - t1 <= 5000
    requires d.machinestate == WAITINGFORCARD && d.laststate == WAITINGFORCARD
    ensures var e := LoopStep(LoopStep(Deny(d), t1), t2);
      e.rejectedCards == d.rejectedCards + 2 && e.machinestate == WAITINGFORCARD
  {
  }

  /** As written, a denial arriving after an approval, before the next pass
      of loop(), turns APPROVED into REJECTED: two passes later the machine
      waits for a card with the lock still open, ... */
  lemma DenialAfterApprovalLeavesDoorOpen(d: Door, t1: nat, t2: nat)
    requires Ready(d, t1) && TableOk(d.table) && t1 <= t2 && t2 - t1 <= 5000
    requires d.machinestate == WAITINGFORCARD && d.laststate == WAITINGFORCARD
    ensures var e := LoopStep(LoopStep(Deny(Approve(d)), t1), t2);
      e.machinestate == WAITINGFORCARD && e.doorIsOpen &&
      e.laststate == REJECTED
  {
  }

  /** ... and no pass of loop() closes it while the machine waits. */
  lemma WaitingKeepsDoor(d: Door, now: nat)
    requires Ready(d, now) && TableOk(d.table)
    requires d.machinestate == WAITINGFORCARD && d.laststate == WAITINGFORCARD
    ensures LoopStep(d, now) == d
  {
    NeverStates(d.table, WAITINGFORCARD);
  }

  /** onDenied as evidently intended: a denial is ignored while the door is
      being opened or is open (APPROVED, LOCKOPEN, LOCKCLOSED), and it is
      counted once, by the REJECTED action. */
  function DenyIntended(d: Door): (e: Door)
    ensures d.machinestate in {APPROVED, LOCKOPEN, LOCKCLOSED} ==> e == d
    ensures !(d.machinestate in {APPROVED, LOCKOPEN, LOCKCLOSED}) ==>
      e == d.(machinestate := REJECTED)
  {
    if d.machinestate == APPROVED || Ordinal(d.machinestate) > Ordinal(REJECTED) then d
    else d.(machinestate := REJECTED)
  }

  /** With the intended handler a denial is counted exactly once. */
  lemma DenialCountedOnce(d: Door, t1: nat, t2: nat)
    requires Ready(d, t1) && TableOk(d.table) && t1 <= t2 && t2 - t1 <= 5000
    requires d.machinestate == WAITINGFORCARD && d.laststate == WAITINGFORCARD
    ensures var e := LoopStep(LoopStep(DenyIntended(d), t1), t2);
      e.rejectedCards == d.rejectedCards + 1 && e.machinestate == WAITINGFORCARD
  {
  }

  /** With the intended handler a denial after an approval changes nothing:
      the lock opens, stays open for DOOR_OPEN_TIME seconds, and is closed
      again before the machine waits for the next card. */
  lemma DenialAfterApprovalClosesDoor(d: Door, t1: nat, t2: nat, t3: nat, t4: nat, t5: nat, t6: nat)
    requires Ready(d, t1) && TableOk(d.table) && t1 <= t2 <= t3 <= t4 <= t5 <= t6
    requires t2 - t1 <= 60000 && t4 - t3 > DOOR_OPEN_TIME * 1000
    requires d.machinestate == WAITINGFORCARD && d.laststate == WAITINGFORCARD
    ensures DenyIntended(Approve(d)) == Approve(d)
    ensures var open := LoopStep(LoopStep(DenyIntended(Approve(d)), t1), t2);
      open.machinestate == LOCKOPEN && open.doorIsOpen
    ensures var e := LoopStep(LoopStep(LoopStep(LoopStep(LoopStep(LoopStep(
                       DenyIntended(Approve(d)), t1), t2), t3), t4), t5), t6);
      e.machinestate == WAITINGFORCARD && !e.doorIsOpen &&
      e.approvedCards == d.approvedCards + 1 && e.rejectedCards == d.rejectedCards
  {
    var d0 := DenyIntended(Approve(d));
    var d1 := LoopStep(d0, t1);
    LoopStepKeepsTable(d0, t1);
    var d2 := LoopStep(d1, t2);
    LoopStepKeepsTable(d1, t2);
    assert d2.machinestate == LOCKOPEN && d2.laststate == APPROVED;
    var d3 := LoopStep(d2, t3);
    LoopStepKeepsTable(d2, t3);
    assert d3.laststate == LOCKOPEN && d3.laststatechange == t3;
    LockOpenTimeout(d3.table);
    var d4 := LoopStep(d3, t4);
    LoopStepKeepsTable(d3, t4);
    assert d4.machinestate == LOCKCLOSED;
    var d5 := LoopStep(d4, t5);
    LoopStepKeepsTable(d4, t5);
    NeverStates(d5.table, LOCKCLOSED);
  }

  // ---- the machine as the program holds it ----

  /** The globals of main.cpp: the current and last state, the time of the
      last recorded change, the counters, the one-shot connect flag, the
      door lock level and the state table, updated in place. */
  class DoorNode {
    var machinestate: MachineState
    var laststate: MachineState
    var laststatechange: nat
    var approvedCards: nat
    var rejectedCards: nat
    var firstOnConnectTime: bool
    var doorIsOpen: bool
    const state: array<StateRow>

    ghost predicate Valid()
      reads state
    {
      state.Length == STATE_COUNT && TableOk(state[..])
    }

    /** The fields as a value. */
    function Snapshot(): Door
      reads this, state
    {
      Door(machinestate, laststate, laststatechange, approvedCards, rejectedCards,
           firstOnConnectTime, doorIsOpen, state[..])
    }

    /** The globals as the program starts (main.cpp:115-149). */
    constructor ()
      ensures Valid() && fresh(state)
      ensures Snapshot() == InitialDoor()
    {
      machinestate := BOOTING;
      laststate := OUTOFORDER;
      laststatechange := 0;
      approvedCards := 0;
      rejectedCards := 0;
      firstOnConnectTime := true;
      doorIsOpen := false;
      state := new StateRow[STATE_COUNT](k requires 0 <= k < STATE_COUNT => InitialTable()[k]);
      new;
      assert state[..] == InitialTable();
      InitialTableMisplacesReportCycle();
    }

    /** loop() (main.cpp:350-427). */
    method Tick(now: nat)
      requires Valid() && laststatechange <= now
      modifies this`machinestate, this`laststate, this`laststatechange, this`rejectedCards,
               this`doorIsOpen, state
      ensures Valid()
      ensures Snapshot() == LoopStep(old(Snapshot()), now)
    {
      LoopStepKeepsTable(Snapshot(), now);
      if laststate != machinestate {
        RecordStateChange(now);
      } else if state[Ordinal(machinestate)].maxTimeInMilliSeconds != NEVER &&
                now - laststatechange > state[Ordinal(machinestate)].maxTimeInMilliSeconds {
        TakeTimeout();
      } else {
        RunAction();
      }
    }

    /** main.cpp:362-370. */
    method RecordStateChange(now: nat)
      requires state.Length == STATE_COUNT && laststatechange <= now
      modifies this`laststate, this`laststatechange, state
      ensures Snapshot() == RecordChange(old(Snapshot()), now)
    {
      var k := Ordinal(laststate);
      var row := state[k];
      state[k] := row.(timeInState := row.timeInState + (now - laststatechange) / 1000);
      laststate := machinestate;
      laststatechange := now;
    }

    /** main.cpp:372-383. */
    method TakeTimeout()
      requires state.Length == STATE_COUNT
      modifies this`laststate, this`machinestate, state
      ensures Snapshot() == TimeOut(old(Snapshot()))
    {
      var k := Ordinal(machinestate);
      var row := state[k];
      state[k] := row.(timeoutTransitions := row.timeoutTransitions + 1);
      laststate := machinestate;
      machinestate := row.failStateOnTimeout;
    }

    /** main.cpp:395-426. */
    method RunAction()
      modifies this`machinestate, this`rejectedCards, this`doorIsOpen
      ensures Snapshot() == Action(old(Snapshot()))
    {
      match machinestate {
        case CLEARSTATUS =>
          machinestate := WAITINGFORCARD;
        case REJECTED =>
          rejectedCards := rejectedCards + 1;
          machinestate := WAITINGFORCARD;
        case APPROVED =>
          doorIsOpen := true;
          machinestate := LOCKOPEN;
        case LOCKCLOSED =>
          doorIsOpen := false;
          machinestate := WAITINGFORCARD;
        case _ =>
      }
    }

    /** onApproval (main.cpp:260-269). */
    method OnApproval()
      modifies this`approvedCards, this`doorIsOpen, this`machinestate
      ensures Snapshot() == Approve(old(Snapshot()))
    {
      if machinestate == WAITINGFORCARD || machinestate == CHECKINGCARD {
        approvedCards := approvedCards + 1;
        doorIsOpen := true;
        machinestate := APPROVED;
      }
    }

    /** onDenied (main.cpp:270-278). */
    method OnDenied()
      modifies this`machinestate, this`rejectedCards
      ensures Snapshot() == Deny(old(Snapshot()))
    {
      if Ordinal(machinestate) > Ordinal(REJECTED) {
        return;
      }
      machinestate := REJECTED;
      rejectedCards := rejectedCards + 1;
    }

    /** onSwipe (main.cpp:298-314). */
    method OnSwipe() returns (result: CmdResult)
      modifies this`machinestate
      ensures (Snapshot(), result) == SwipeCard(old(Snapshot()))
    {
      if Ordinal(machinestate) > Ordinal(CHECKINGCARD) {
        return CMD_CLAIMED;
      }
      machinestate := CHECKINGCARD;
      return CMD_DECLINE;
    }

    /** onConnect (main.cpp:246-252). */
    method OnConnect()
      modifies this`firstOnConnectTime, this`machinestate
      ensures Snapshot() == Connect(old(Snapshot()))
    {
      if firstOnConnectTime {
        firstOnConnectTime := false;
        machinestate := WAITINGFORCARD;
      }
    }

    /** onError (main.cpp:256-259). */
    method OnError()
      modifies this`machinestate
      ensures Snapshot() == ReportError(old(Snapshot()))
    {
      machinestate := WAITINGFORCARD;
    }
  }

  /** The first connection after boot, a pass of loop(), a swipe, a pass,
      the approval and two more passes. */
  function ApprovalRun(): (Door, CmdResult) {
    var booted := LoopStep(Connect(InitialDoor()), 100);
    var swiped := SwipeCard(booted);
    (LoopStep(LoopStep(Approve(LoopStep(swiped.0, 200)), 300), 400), swiped.1)
  }

  /** That run ends with the lock open in LOCKOPEN, one approved card and
      the swipe declined, so that the library asks for approval. */
  lemma ApprovalRunOpensDoor()
    ensures ApprovalRun().0.machinestate == LOCKOPEN
    ensures ApprovalRun().0.doorIsOpen && ApprovalRun().0.approvedCards == 1
    ensures ApprovalRun().1 == CMD_DECLINE
  {
    var d := LoopStep(Connect(InitialDoor()), 100);
    assert d.machinestate == WAITINGFORCARD && d.laststate == WAITINGFORCARD;
    d := LoopStep(SwipeCard(d).0, 200);
    assert d.machinestate == CHECKINGCARD && d.laststate == CHECKINGCARD && d.approvedCards == 0;
    d := LoopStep(Approve(d), 300);
    assert d.machinestate == APPROVED && d.laststate == APPROVED && d.laststatechange == 300;
    assert d.doorIsOpen && d.approvedCards == 1;
    assert !TimedOut(d, 400);
  }

  /** The same run on a freshly constructed node. */
  method ApprovedSwipeOpensDoor() returns (s: MachineState, open: bool, approved: nat, answer: CmdResult)
    ensures s == LOCKOPEN && open && approved == 1 && answer == CMD_DECLINE
  {
    var node := new DoorNode();
    node.OnConnect();
    node.Tick(100);
    answer := node.OnSwipe();
    node.Tick(200);
    node.OnApproval();
    node.Tick(300);
    node.Tick(400);
    assert (node.Snapshot(), answer) == ApprovalRun();
    ApprovalRunOpensDoor();
    s, open, approved := node.machinestate, node.doorIsOpen, node.approvedCards;
  }
}
