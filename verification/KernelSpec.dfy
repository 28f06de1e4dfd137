/**
 * The kernel's critical sections as functions on an abstract state: the ready list and the wait
 * lists are sets of priorities and every task control block is found by its priority. Class
 * `Kernel` runs the same critical sections on bitmaps, tables and linked lists.
 */
module KernelSpec {
  import opened Prelude

  const PRIO_SELF: nat := 0xFF
  const SEM_MAX: nat := 0xFFFF
  const NESTING_MAX: nat := 255
  const TIME_MODULUS: nat := 0x1_0000_0000

  datatype Err =
    | ErrNone
    | ErrEventType
    | ErrPendIsr
    | ErrPeventNull
    | ErrTimeout
    | ErrPendAbort
    | ErrSemOvf
    | ErrPrioExist
    | ErrPrioInvalid
    | ErrTaskCreateIsr
    | ErrNoMoreTcb
    | ErrTaskNotExist
    | ErrTaskNotSuspended
    | ErrTaskResumePrio
    | ErrTaskSuspendIdle
    | ErrTaskSuspendPrio
    | ErrTimeDlyIsr
    | ErrSchedLocked
    | ErrTimeZeroDly
    | ErrTimeInvalidMinutes
    | ErrTimeInvalidSeconds
    | ErrTimeInvalidMs

  datatype PendStatus = PendOk | PendTimeout | PendAbort

  /** A task control block: the pend and suspend bits of its status byte, and the rest by name. */
  datatype Task = Task(pend: bool, susp: bool, status: PendStatus, dly: nat, event: Option<nat>)

  const FRESH_TASK := Task(false, false, PendOk, 0, None)

  /** An event control block. The semaphore is the only event type configured. */
  datatype Ecb = Unused | Sem(cnt: nat, waiters: set<nat>)

  datatype State = State(
    lowest: nat,              // OS_LOWEST_PRIO, the idle task's priority
    running: bool,
    ready: set<nat>,
    tasks: map<nat, Task>,    // priorities whose table entry points to a control block
    reserved: set<nat>,       // priorities whose table entry is OS_TCB_RESERVED
    linked: seq<nat>,         // the task list, head first
    freeTcbs: nat,
    events: seq<Ecb>,
    freeEvents: seq<nat>,
    intNesting: nat,
    lockNesting: nat,
    cur: nat,                 // OSPrioCur, the priority of OSTCBCur
    time: nat
  )

  /** What the kernel's own table look-ups rely on. */
  ghost predicate WellFormed(k: State) {
    && k.lowest <= 63
    && (forall p :: p in k.tasks ==> p <= k.lowest)
    && k.ready <= k.tasks.Keys
    && (forall p :: p in k.linked ==> p in k.tasks)
    && (forall e :: 0 <= e < |k.events| && k.events[e].Sem? ==> k.events[e].waiters <= k.tasks.Keys)
    && (forall i :: 0 <= i < |k.freeEvents| ==> k.freeEvents[i] < |k.events|)
    && (k.running ==> k.cur in k.tasks && k.ready != {})
  }

  predicate Eligible(t: Task) {
    !t.pend && !t.susp && t.dly == 0
  }

  predicate IsSem(k: State, e: nat) {
    e < |k.events| && k.events[e].Sem?
  }

  // ---------------------------------------------------------------- scheduling

  /** The critical section of OS_Sched. */
  ghost function Schedule(k: State): State
    requires k.ready != {}
  {
    if k.intNesting == 0 && k.lockNesting == 0 then k.(cur := Least(k.ready)) else k
  }

  function IntEnter(k: State): State {
    if k.running && k.intNesting < NESTING_MAX then k.(intNesting := k.intNesting + 1) else k
  }

  ghost function IntExit(k: State): State
    requires k.running ==> k.ready != {}
  {
    if !k.running then k
    else Schedule(k.(intNesting := if k.intNesting > 0 then k.intNesting - 1 else 0))
  }

  function SchedLock(k: State): State {
    if k.running && k.intNesting == 0 && k.lockNesting < NESTING_MAX
    then k.(lockNesting := k.lockNesting + 1)
    else k
  }

  /** The first critical section of OSSchedUnlock; the flag says whether OS_Sched follows. */
  function SchedUnlock(k: State): (State, bool) {
    if k.running && k.intNesting == 0 && k.lockNesting > 0
    then (k.(lockNesting := k.lockNesting - 1), k.lockNesting == 1)
    else (k, false)
  }

  /** OSStart. */
  ghost function Start(k: State): State
    requires k.ready != {}
  {
    if k.running then k else k.(running := true, cur := Least(k.ready))
  }

  // ---------------------------------------------------------------- time

  /** The critical section of OSTimeDly; the flag says whether it was entered (and OS_Sched follows). */
  function TimeDly(k: State, ticks: nat): (State, bool)
    requires k.cur in k.tasks
  {
    if k.intNesting > 0 || k.lockNesting > 0 || ticks == 0 then (k, false)
    else (k.(ready := k.ready - {k.cur}, tasks := k.tasks[k.cur := k.tasks[k.cur].(dly := ticks)]), true)
  }

  const TICKS_PER_SEC: nat := 1000

  /** The tick count OSTimeDlyHMSM computes, in the 32 bits it is kept in. */
  function HmsmTicks(hours: nat, minutes: nat, seconds: nat, ms: nat): nat {
    ((hours * 3600 + minutes * 60 + seconds) * TICKS_PER_SEC
     + TICKS_PER_SEC * (ms + 500 / TICKS_PER_SEC) / 1000) % TIME_MODULUS
  }

  /** OSTimeDlyHMSM; the flag says whether a delay was started. */
  function TimeDlyHmsm(k: State, hours: nat, minutes: nat, seconds: nat, ms: nat): (State, Err, bool)
    requires k.cur in k.tasks
  {
    if k.intNesting > 0 then (k, ErrTimeDlyIsr, false)
    else if k.lockNesting > 0 then (k, ErrSchedLocked, false)
    else if hours == 0 && minutes == 0 && seconds == 0 && ms == 0 then (k, ErrTimeZeroDly, false)
    else if minutes > 59 then (k, ErrTimeInvalidMinutes, false)
    else if seconds > 59 then (k, ErrTimeInvalidSeconds, false)
    else if ms > 999 then (k, ErrTimeInvalidMs, false)
    else
      var (k', resched) := TimeDly(k, HmsmTicks(hours, minutes, seconds, ms));
      (k', ErrNone, resched)
  }

  /** One tick seen by one task control block. */
  function TickTask(t: Task): Task {
    if t.dly == 0 then t
    else if t.dly > 1 then t.(dly := t.dly - 1)
    else t.(dly := 0, pend := false, status := if t.pend then PendTimeout else PendOk)
  }

  predicate TickReadies(t: Task) {
    t.dly == 1 && !t.susp
  }

  /** OSTimeTick: the walk stops at the idle task, which is the last of the list. */
  ghost function TimeTick(k: State): State
    requires WellFormed(k)
  {
    var k' := k.(time := (k.time + 1) % TIME_MODULUS);
    if !k.running then k' else
      k'.(tasks := map p | p in k.tasks ::
            if p in k.linked && p != k.lowest then TickTask(k.tasks[p]) else k.tasks[p],
          ready := k.ready + set p | p in k.tasks && p in k.linked && p != k.lowest && TickReadies(k.tasks[p]))
  }

  /** The tick after its walk has passed the first `j` tasks of the list. */
  ghost function TickPrefix(k: State, j: nat): State
    requires j <= |k.linked|
  {
    k.(tasks := map p | p in k.tasks :: if p in k.linked[..j] then TickTask(k.tasks[p]) else k.tasks[p],
       ready := k.ready + set p | p in k.tasks && p in k.linked[..j] && TickReadies(k.tasks[p]))
  }

  lemma TickPrefixStep(k: State, j: nat)
    requires j < |k.linked| && NoDuplicates(k.linked) && k.linked[j] in k.tasks
    ensures var p, k' := k.linked[j], TickPrefix(k, j);
            && k'.tasks[p] == k.tasks[p]
            && TickPrefix(k, j + 1) == k'.(tasks := k'.tasks[p := TickTask(k.tasks[p])],
                                           ready := if TickReadies(k.tasks[p]) then k'.ready + {p} else k'.ready)
  {
    assert k.linked[..j + 1] == k.linked[..j] + [k.linked[j]];
    assert k.linked[j] !in k.linked[..j];
  }

  /** A walk that stops at the idle task, the last of the list, is the whole tick. */
  lemma TickPrefixIsTick(k: State, j: nat)
    requires WellFormed(k) && k.running && NoDuplicates(k.linked)
    requires j < |k.linked| && k.linked[j] == k.lowest && k.linked[|k.linked| - 1] == k.lowest
    ensures TimeTick(k) == TickPrefix(k.(time := (k.time + 1) % TIME_MODULUS), j)
  {
    assert j == |k.linked| - 1;
    assert k.linked == k.linked[..j] + [k.lowest];
    assert forall p :: p in k.linked[..j] <==> p in k.linked && p != k.lowest;
  }

  // ---------------------------------------------------------------- semaphores

  function SemCreate(k: State, cnt: nat): (State, Option<nat>)
    requires forall i :: 0 <= i < |k.freeEvents| ==> k.freeEvents[i] < |k.events|
  {
    if k.intNesting > 0 || k.freeEvents == [] then (k, None)
    else
      var e := k.freeEvents[0];
      (k.(freeEvents := k.freeEvents[1..], events := k.events[e := Sem(cnt, {})]), Some(e))
  }

  function SemAccept(k: State, e: nat): (State, nat)
    requires IsSem(k, e)
  {
    var ecb := k.events[e];
    if ecb.cnt > 0 then (k.(events := k.events[e := ecb.(cnt := ecb.cnt - 1)]), ecb.cnt) else (k, 0)
  }

  datatype PendOutcome = Returned(err: Err) | Blocked

  /** OSSemPend up to its call of OS_Sched. */
  function SemPend(k: State, e: nat, timeout: nat): (State, PendOutcome)
    requires IsSem(k, e) && k.cur in k.tasks
  {
    var ecb := k.events[e];
    if k.intNesting > 0 then (k, Returned(ErrPendIsr))
    else if ecb.cnt > 0 then (k.(events := k.events[e := ecb.(cnt := ecb.cnt - 1)]), Returned(ErrNone))
    else
      var t := k.tasks[k.cur].(pend := true, status := PendOk, dly := timeout, event := Some(e));
      (k.(tasks := k.tasks[k.cur := t],
          events := k.events[e := ecb.(waiters := ecb.waiters + {k.cur})],
          ready := k.ready - {k.cur}),
       Blocked)
  }

  /** OSSemPend after OS_Sched has returned to the pending task. */
  function SemPendResume(k: State, e: nat): (State, Err)
    requires IsSem(k, e) && k.cur in k.tasks
  {
    var t := k.tasks[k.cur];
    if t.status == PendOk then (k.(tasks := k.tasks[k.cur := t.(pend := false)]), ErrNone)
    else
      var ecb := k.events[e];
      (k.(tasks := k.tasks[k.cur := t.(pend := false, status := PendOk, event := None)],
          events := k.events[e := ecb.(waiters := ecb.waiters - {k.cur})]),
       if t.status == PendTimeout then ErrTimeout else ErrPendAbort)
  }

  /** The critical section of OSSemPost; the flag says whether a waiter got the token (and OS_Sched follows). */
  ghost function SemPost(k: State, e: nat): (State, Err, bool)
    requires IsSem(k, e) && k.events[e].waiters <= k.tasks.Keys
  {
    var ecb := k.events[e];
    if ecb.waiters != {} then
      var p := Least(ecb.waiters);
      var t := k.tasks[p].(dly := 0, pend := false, status := PendOk);
      (k.(tasks := k.tasks[p := t.(event := None)],
          events := k.events[e := ecb.(waiters := ecb.waiters - {p})],
          ready := if t.susp then k.ready else k.ready + {p}),
       ErrNone, true)
    else if ecb.cnt < SEM_MAX then (k.(events := k.events[e := ecb.(cnt := ecb.cnt + 1)]), ErrNone, false)
    else (k, ErrSemOvf, false)
  }

  // ---------------------------------------------------------------- suspension

  /** The critical section of OSTaskSuspend; the flag says whether the caller suspended itself. */
  function TaskSuspend(k: State, prio: nat): (State, Err, bool)
  {
    if prio == k.lowest then (k, ErrTaskSuspendIdle, false)
    else if prio >= k.lowest && prio != PRIO_SELF then (k, ErrPrioInvalid, false)
    else
      var p := if prio == PRIO_SELF then k.cur else prio;
      if p in k.reserved then (k, ErrTaskNotExist, false)
      else if p !in k.tasks then (k, ErrTaskSuspendPrio, false)
      else (k.(ready := k.ready - {p}, tasks := k.tasks[p := k.tasks[p].(susp := true)]), ErrNone, p == k.cur)
  }

  /** The critical section of OSTaskResume; the flag says whether the task was made ready. */
  function TaskResume(k: State, prio: nat): (State, Err, bool)
  {
    if prio >= k.lowest then (k, ErrPrioInvalid, false)
    else if prio in k.reserved then (k, ErrTaskNotExist, false)
    else if prio !in k.tasks then (k, ErrTaskResumePrio, false)
    else if !k.tasks[prio].susp then (k, ErrTaskNotSuspended, false)
    else
      var t := k.tasks[prio].(susp := false);
      var k' := k.(tasks := k.tasks[prio := t]);
      if Eligible(t) then (k'.(ready := k.ready + {prio}), ErrNone, true) else (k', ErrNone, false)
  }

  // ---------------------------------------------------------------- task creation, one critical section at a time

  /** OSTaskCreate claims the priority. */
  function CreateReserve(k: State, prio: nat): (State, Err) {
    if prio > k.lowest then (k, ErrPrioInvalid)
    else if k.intNesting > 0 then (k, ErrTaskCreateIsr)
    else if prio in k.tasks || prio in k.reserved then (k, ErrPrioExist)
    else (k.(reserved := k.reserved + {prio}), ErrNone)
  }

  /** OS_TCBInit takes a control block off the free list. */
  function CreateAlloc(k: State): (State, Err) {
    if k.freeTcbs > 0 then (k.(freeTcbs := k.freeTcbs - 1), ErrNone) else (k, ErrNoMoreTcb)
  }

  /** OS_TCBInit points the priority table at the filled-in control block. */
  function CreateInstall(k: State, prio: nat): State {
    k.(tasks := k.tasks[prio := FRESH_TASK], reserved := k.reserved - {prio})
  }

  /** OS_TCBInit links the control block and makes the task ready. */
  function CreateLink(k: State, prio: nat): State {
    k.(linked := [prio] + k.linked, ready := k.ready + {prio})
  }

  /** OSTaskCreate gives the priority back after OS_TCBInit found no control block. */
  function CreateRollback(k: State, prio: nat): State {
    k.(reserved := k.reserved - {prio})
  }

  /** OSTaskCreate when nothing runs between its critical sections, without the final OS_Sched. */
  function TaskCreate(k: State, prio: nat): (State, Err) {
    var (k1, err) := CreateReserve(k, prio);
    if err != ErrNone then (k1, err)
    else
      var (k2, err2) := CreateAlloc(k1);
      if err2 == ErrNone then (CreateLink(CreateInstall(k2, prio), prio), ErrNone)
      else (CreateRollback(k2, prio), err2)
  }

  /** Cleared tables and full free lists. */
  function EmptyState(lowest: nat, tcbs: nat, events: nat): State {
    State(lowest, false, {}, map[], {}, [], tcbs, seq(events, i => Unused), seq(events, i => i), 0, 0, 0, 0)
  }

  /** OSInit: empty lists, then the idle task. */
  function InitState(lowest: nat, tcbs: nat, events: nat): State {
    TaskCreate(EmptyState(lowest, tcbs, events), lowest).0
  }

  lemma InitCreatesIdle(lowest: nat, tcbs: nat, events: nat)
    requires tcbs > 0
    ensures InitState(lowest, tcbs, events).linked == [lowest]
    ensures InitState(lowest, tcbs, events).tasks == map[lowest := FRESH_TASK]
  {}

  /** A create that finds no control block leaves the whole state as it was. */
  lemma FailedCreateChangesNothing(k: State, prio: nat)
    requires TaskCreate(k, prio).1 != ErrNone
    ensures TaskCreate(k, prio).0 == k
  {
    assert prio !in k.reserved ==> k.reserved + {prio} - {prio} == k.reserved;
  }

  lemma CreateWellFormed(k: State, prio: nat)
    requires WellFormed(k)
    ensures var (k', err) := TaskCreate(k, prio);
            && WellFormed(k') && k'.running == k.running
            && (err == ErrNone ==> prio in k'.ready) && (err != ErrNone ==> k' == k)
  {
    if TaskCreate(k, prio).1 != ErrNone {
      FailedCreateChangesNothing(k, prio);
    }
  }
}
