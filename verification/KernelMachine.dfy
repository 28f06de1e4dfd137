/**
 * The kernel as a state machine. A step is one critical section, run by the current task or by an
 * interrupt handler; between two critical sections of one kernel call anything else may run, so
 * every task has a program counter. A ledger counts each semaphore's tokens.
 */
module KernelMachine {
  import opened Prelude
  import opened KernelSpec

  /** Where a task is: in its own code, or between two critical sections of a kernel call. */
  datatype Pc =
    | User
    | AtSched                    // about to call OS_Sched, then back to its own code
    | PendSched(e: nat)          // in OSSemPend, about to call OS_Sched
    | PendResume(e: nat)         // in OSSemPend, OS_Sched has returned or will return
    | CreateReserved(np: nat)    // in OSTaskCreate of priority np
    | CreateAllocated(np: nat)
    | CreateFailed(np: nat)
    | CreateInstalled(np: nat)

  /**
   * One semaphore's tokens: what it was created with, successful posts, accepts that took one,
   * pends granted one (at once, or picked by a post), and pends that returned OS_ERR_NONE.
   */
  datatype Ledger = Ledger(init: nat, posted: nat, accepted: nat, granted: nat, collected: nat)

  datatype Machine = Machine(k: State, pc: map<nat, Pc>, ledger: seq<Ledger>, won: set<nat>)

  datatype Step =
    // interrupt handlers
    | StepIntEnter
    | StepIntExit
    | StepTick
    // tasks and interrupt handlers
    | StepPost(e: nat)
    | StepAccept(e: nat)
    | StepSuspend(prio: nat)
    | StepResume(prio: nat)
    // the current task
    | StepSched
    | StepLock
    | StepUnlock
    | StepDly(ticks: nat)
    | StepPend(e: nat, timeout: nat)
    | StepPendResume
    | StepSemCreate(cnt: nat)
    | StepReserve(prio: nat)
    | StepAlloc
    | StepInstall
    | StepLink
    | StepRollback

  predicate InKernel(c: Pc) {
    c.AtSched? || c.PendSched?
  }

  predicate Pending(c: Pc) {
    c.PendSched? || c.PendResume?
  }

  function Creating(c: Pc): Option<nat> {
    match c
    case CreateReserved(np) => Some(np)
    case CreateAllocated(np) => Some(np)
    case CreateFailed(np) => Some(np)
    case CreateInstalled(np) => Some(np)
    case _ => None
  }

  // ---------------------------------------------------------------- steps

  /** A task step: no interrupt handler is running and the current task is at the given place. */
  predicate AtTask(m: Machine) {
    m.k.intNesting == 0 && m.k.cur in m.pc
  }

  predicate AtUser(m: Machine) {
    AtTask(m) && m.pc[m.k.cur].User?
  }

  /** Where a handler runs, or a task in its own code. */
  predicate AtUserOrIsr(m: Machine) {
    m.k.intNesting > 0 || AtUser(m)
  }

  /**
   * When a step can happen. The idle task neither blocks nor suspends itself, and OSSemPend is not
   * called with the scheduler locked; 32-bit arguments are in range.
   */
  predicate Enabled(m: Machine, s: Step) {
    match s
    case StepIntEnter => m.k.intNesting < NESTING_MAX
    case StepIntExit => m.k.intNesting > 0
    case StepTick => m.k.intNesting > 0
    case StepPost(e) => AtUserOrIsr(m) && IsSem(m.k, e)
    case StepAccept(e) => AtUserOrIsr(m) && IsSem(m.k, e)
    case StepSuspend(prio) => AtUserOrIsr(m) && !(prio == PRIO_SELF && m.k.cur == m.k.lowest)
    case StepResume(prio) => AtUserOrIsr(m)
    case StepSched => AtTask(m) && InKernel(m.pc[m.k.cur])
    case StepLock => AtUser(m)
    case StepUnlock => AtUser(m)
    case StepDly(ticks) => AtUser(m) && m.k.cur != m.k.lowest && ticks < TIME_MODULUS
    case StepPend(e, timeout) =>
      AtUser(m) && m.k.cur != m.k.lowest && m.k.lockNesting == 0 && timeout < TIME_MODULUS && IsSem(m.k, e)
    case StepPendResume => AtTask(m) && m.pc[m.k.cur].PendResume? && IsSem(m.k, m.pc[m.k.cur].e)
    case StepSemCreate(cnt) => AtUser(m) && cnt <= SEM_MAX
    case StepReserve(prio) => AtUser(m)
    case StepAlloc => AtTask(m) && m.pc[m.k.cur].CreateReserved?
    case StepInstall => AtTask(m) && m.pc[m.k.cur].CreateAllocated?
    case StepLink => AtTask(m) && m.pc[m.k.cur].CreateInstalled?
    case StepRollback => AtTask(m) && m.pc[m.k.cur].CreateFailed?
  }

  /** Moves the current task's program counter. */
  function Goto(m: Machine, c: Pc): Machine {
    m.(pc := m.pc[m.k.cur := c])
  }

  /** OS_Sched is called next, unless a handler runs: there it does nothing. */
  function ThenSched(m: Machine, resched: bool): Machine {
    if resched && m.k.intNesting == 0 then Goto(m, AtSched) else m
  }

  ghost function DoIntExit(m: Machine): Machine
    requires m.k.ready != {}
  {
    m.(k := IntExit(m.k))
  }

  ghost function DoPost(m: Machine, e: nat): Machine
    requires IsSem(m.k, e) && e < |m.ledger| && m.k.events[e].waiters <= m.k.tasks.Keys
  {
    var (k', err, resched) := SemPost(m.k, e);
    var l := m.ledger[e];
    var l' := if err != ErrNone then l
              else if resched then l.(posted := l.posted + 1, granted := l.granted + 1)
              else l.(posted := l.posted + 1);
    ThenSched(m.(k := k', ledger := m.ledger[e := l'],
                 won := if resched then m.won + {Least(m.k.events[e].waiters)} else m.won), resched)
  }

  function DoAccept(m: Machine, e: nat): Machine
    requires IsSem(m.k, e) && e < |m.ledger|
  {
    var (k', cnt) := SemAccept(m.k, e);
    var l := m.ledger[e];
    m.(k := k', ledger := m.ledger[e := if cnt > 0 then l.(accepted := l.accepted + 1) else l])
  }

  function DoSuspend(m: Machine, prio: nat): Machine {
    var (k', err, self) := TaskSuspend(m.k, prio);
    ThenSched(m.(k := k'), self)
  }

  function DoResume(m: Machine, prio: nat): Machine {
    var (k', err, readied) := TaskResume(m.k, prio);
    ThenSched(m.(k := k'), readied)
  }

  ghost function DoSched(m: Machine): Machine
    requires m.k.ready != {} && m.k.cur in m.pc
  {
    var c := m.pc[m.k.cur];
    Goto(m, if c.PendSched? then PendResume(c.e) else User).(k := Schedule(m.k))
  }

  function DoUnlock(m: Machine): Machine {
    var (k', resched) := SchedUnlock(m.k);
    ThenSched(m.(k := k'), resched)
  }

  function DoDly(m: Machine, ticks: nat): Machine
    requires m.k.cur in m.k.tasks
  {
    var (k', resched) := TimeDly(m.k, ticks);
    ThenSched(m.(k := k'), resched)
  }

  function DoPend(m: Machine, e: nat, timeout: nat): Machine
    requires IsSem(m.k, e) && e < |m.ledger| && m.k.cur in m.k.tasks
  {
    var (k', out) := SemPend(m.k, e, timeout);
    var l := m.ledger[e];
    if out.Blocked? then Goto(m.(k := k'), PendSched(e))
    else if out.err == ErrNone then
      m.(k := k', ledger := m.ledger[e := l.(granted := l.granted + 1, collected := l.collected + 1)])
    else m
  }

  function DoPendResume(m: Machine): Machine
    requires m.k.cur in m.pc && m.pc[m.k.cur].PendResume?
    requires IsSem(m.k, m.pc[m.k.cur].e) && m.pc[m.k.cur].e < |m.ledger| && m.k.cur in m.k.tasks
  {
    var e := m.pc[m.k.cur].e;
    var (k', err) := SemPendResume(m.k, e);
    var l := m.ledger[e];
    Goto(m, User).(k := k', won := m.won - {m.k.cur},
                   ledger := m.ledger[e := if err == ErrNone then l.(collected := l.collected + 1) else l])
  }

  function DoSemCreate(m: Machine, cnt: nat): Machine
    requires forall i :: 0 <= i < |m.k.freeEvents| ==> m.k.freeEvents[i] < |m.k.events|
    requires |m.ledger| == |m.k.events|
  {
    var (k', e) := SemCreate(m.k, cnt);
    if e.Some? then m.(k := k', ledger := m.ledger[m.k.freeEvents[0] := Ledger(cnt, 0, 0, 0, 0)]) else m.(k := k')
  }

  function DoReserve(m: Machine, prio: nat): Machine {
    var (k', err) := CreateReserve(m.k, prio);
    if err == ErrNone then Goto(m.(k := k'), CreateReserved(prio)) else m
  }

  function DoAlloc(m: Machine, np: nat): Machine {
    var (k', err) := CreateAlloc(m.k);
    Goto(m.(k := k'), if err == ErrNone then CreateAllocated(np) else CreateFailed(np))
  }

  function DoInstall(m: Machine, np: nat): Machine {
    m.(k := CreateInstall(m.k, np), pc := m.pc[m.k.cur := CreateInstalled(np)][np := User])
  }

  function DoLink(m: Machine, np: nat): Machine {
    Goto(m.(k := CreateLink(m.k, np)), AtSched)
  }

  function DoRollback(m: Machine, np: nat): Machine {
    Goto(m.(k := CreateRollback(m.k, np)), User)
  }

  ghost function Apply(m: Machine, s: Step): Machine
    requires WellFormed(m.k) && m.k.running && |m.ledger| == |m.k.events| && Enabled(m, s)
  {
    match s
    case StepIntEnter => m.(k := IntEnter(m.k))
    case StepIntExit => DoIntExit(m)
    case StepTick => m.(k := TimeTick(m.k))
    case StepPost(e) => DoPost(m, e)
    case StepAccept(e) => DoAccept(m, e)
    case StepSuspend(prio) => DoSuspend(m, prio)
    case StepResume(prio) => DoResume(m, prio)
    case StepSched => DoSched(m)
    case StepLock => m.(k := SchedLock(m.k))
    case StepUnlock => DoUnlock(m)
    case StepDly(ticks) => DoDly(m, ticks)
    case StepPend(e, timeout) => DoPend(m, e, timeout)
    case StepPendResume => DoPendResume(m)
    case StepSemCreate(cnt) => DoSemCreate(m, cnt)
    case StepReserve(prio) => DoReserve(m, prio)
    case StepAlloc => DoAlloc(m, m.pc[m.k.cur].np)
    case StepInstall => DoInstall(m, m.pc[m.k.cur].np)
    case StepLink => DoLink(m, m.pc[m.k.cur].np)
    case StepRollback => DoRollback(m, m.pc[m.k.cur].np)
  }

  // ---------------------------------------------------------------- the invariant

  /** What holds of one created task `p`. */
  ghost predicate TaskOk(m: Machine, p: nat)
    requires p in m.k.tasks && p in m.pc
  {
    var t, c := m.k.tasks[p], m.pc[p];
    // the ready bit
    && (p in m.k.ready ==> Eligible(t))
    && (p in m.k.linked && Eligible(t) ==> p in m.k.ready)
    // the wait list
    && (t.event.Some? ==> IsSem(m.k, t.event.value) && p in m.k.events[t.event.value].waiters)
    && (t.event.Some? ==> (c == PendSched(t.event.value) || c == PendResume(t.event.value)))
    && (t.event.Some? ==> if t.pend then t.status == PendOk else t.status == PendTimeout && t.dly == 0)
    && (t.event.None? ==> !t.pend && t.status == PendOk)
    // the pending call
    && (Pending(c) ==> IsSem(m.k, c.e))
    && (p in m.won <==> Pending(c) && t.event.None?)
    && t.dly < TIME_MODULUS
  }

  /** What holds of one semaphore. */
  ghost predicate SemOk(m: Machine, e: nat)
    requires e < |m.k.events| && |m.ledger| == |m.k.events|
  {
    m.k.events[e].Sem? ==>
      var ecb, l := m.k.events[e], m.ledger[e];
      && (forall p :: p in ecb.waiters ==> p in m.k.tasks && m.k.tasks[p].event == Some(e))
      && (ecb.cnt > 0 ==> ecb.waiters == {})
      && ecb.cnt <= SEM_MAX
      && l.init + l.posted == ecb.cnt + l.accepted + l.granted
  }

  /** The tasks that a post has picked and that have not yet resumed from their pend. */
  ghost function Winners(m: Machine, e: nat): (w: set<nat>)
    ensures forall p :: p in w <==> p in m.won && p in m.pc && Pending(m.pc[p]) && m.pc[p].e == e
  {
    set p | p in m.won && p in m.pc && Pending(m.pc[p]) && m.pc[p].e == e
  }

  /** Every granted token is collected by one pend, or about to be. */
  ghost predicate WinOk(m: Machine, e: nat)
    requires e < |m.ledger|
  {
    m.ledger[e].granted == m.ledger[e].collected + |Winners(m, e)|
  }

  /** What holds of the current task. */
  ghost predicate CurOk(m: Machine)
    requires m.k.cur in m.k.tasks && m.k.cur in m.pc
  {
    var t, c := m.k.tasks[m.k.cur], m.pc[m.k.cur];
    && (t.dly > 0 || t.pend ==> InKernel(c) && m.k.lockNesting == 0)
    && (Pending(c) ==> m.k.lockNesting == 0)
    && (m.k.intNesting == 0 && m.k.lockNesting == 0 && !InKernel(c) ==> IsLeast(m.k.ready, m.k.cur))
  }

  /** The idle task is always ready and always the last of the task list. */
  ghost predicate IdleOk(m: Machine) {
    && m.k.lowest in m.k.tasks && m.k.lowest in m.pc
    && Eligible(m.k.tasks[m.k.lowest]) && !Pending(m.pc[m.k.lowest])
    && m.k.linked != [] && m.k.linked[|m.k.linked| - 1] == m.k.lowest
  }

  /** A creation in progress owns its priority. */
  ghost predicate CreationOk(m: Machine, p: nat)
    requires p in m.pc
  {
    var c := m.pc[p];
    && (c.CreateReserved? || c.CreateAllocated? || c.CreateFailed? ==> c.np in m.k.reserved)
    && (c.CreateInstalled? ==> c.np in m.k.tasks && c.np !in m.k.linked)
    && (forall q :: q in m.pc && q != p && Creating(c).Some? ==> Creating(m.pc[q]) != Creating(c))
  }

  ghost predicate Structure(m: Machine) {
    && WellFormed(m.k) && m.k.running
    && m.pc.Keys == m.k.tasks.Keys
    && m.won <= m.k.tasks.Keys
    && |m.ledger| == |m.k.events|
    && m.k.reserved !! m.k.tasks.Keys
    && (forall p :: p in m.k.reserved ==> p <= m.k.lowest)
    && NoDuplicates(m.k.linked)
    && NoDuplicates(m.k.freeEvents)
    && (forall i :: 0 <= i < |m.k.freeEvents| ==> m.k.events[m.k.freeEvents[i]].Unused?)
  }

  ghost predicate Tasks(m: Machine)
    requires Structure(m)
  {
    forall p {:trigger TaskOk(m, p)} :: p in m.k.tasks ==> TaskOk(m, p)
  }

  ghost predicate Creations(m: Machine)
    requires Structure(m)
  {
    forall p {:trigger CreationOk(m, p)} :: p in m.pc ==> CreationOk(m, p)
  }

  ghost predicate Sems(m: Machine)
    requires Structure(m)
  {
    forall e {:trigger SemOk(m, e)} :: 0 <= e < |m.k.events| ==> SemOk(m, e)
  }

  ghost predicate Wins(m: Machine)
    requires Structure(m)
  {
    forall e {:trigger WinOk(m, e)} :: 0 <= e < |m.k.events| ==> WinOk(m, e)
  }

  ghost predicate Inv(m: Machine) {
    Structure(m) && IdleOk(m) && CurOk(m) && Tasks(m) && Creations(m) && Sems(m)
  }

  /** The one hazard: nobody may have suspended, or started, the task that is being linked. */
  ghost predicate LinkSafe(m: Machine, s: Step)
    requires Structure(m) && Enabled(m, s)
  {
    s.StepLink? ==> m.pc[m.k.cur].np in m.k.tasks && Eligible(m.k.tasks[m.pc[m.k.cur].np])
  }
}
