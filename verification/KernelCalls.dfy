/**
 * What a caller can rely on from the kernel's services in terms of calls and numbers: which error each one
 * returns, what handlers cannot do, and what counters and semaphores show at any point of a run.
 */
module KernelCalls {
  import opened Prelude
  import opened KernelSpec
  import opened KernelMachine
  import opened KernelTokens
  import opened KernelRuns
  import opened KernelTheorems
  import opened KernelTimers
  import Rings

  // ---------------------------------------------------------------- handlers and locks

  /** A handler can neither block, nor create, nor touch the scheduler lock; a call that would do so changes nothing. */
  lemma HandlersChangeNothing(k: State, e: nat, n: nat)
    requires WellFormed(k) && k.running && k.intNesting > 0 && IsSem(k, e)
    ensures Schedule(k) == SchedLock(k) == k && SchedUnlock(k) == (k, false)
    ensures TimeDly(k, n) == (k, false) && SemPend(k, e, n) == (k, Returned(ErrPendIsr))
    ensures SemCreate(k, n) == (k, None)
    ensures TaskCreate(k, n) == (k, if n <= k.lowest then ErrTaskCreateIsr else ErrPrioInvalid)
    ensures forall h, min, s, ms: nat :: TimeDlyHmsm(k, h, min, s, ms) == (k, ErrTimeDlyIsr, false)
  {}

  /** Neither does a task that holds the scheduler lock switch or delay. */
  lemma LockHoldersKeepRunning(k: State, n: nat)
    requires WellFormed(k) && k.running && k.intNesting == 0 && k.lockNesting > 0
    ensures Schedule(k) == k && TimeDly(k, n) == (k, false)
    ensures forall h, min, s, ms: nat :: TimeDlyHmsm(k, h, min, s, ms) == (k, ErrSchedLocked, false)
  {}

  /** Before OSStart handlers, locks and ticks leave the tasks alone; OSStart starts multitasking once. */
  lemma BeforeAndAfterStart(k: State)
    requires WellFormed(k) && k.ready != {}
    ensures !k.running ==> IntEnter(k) == IntExit(k) == SchedLock(k) == k && SchedUnlock(k) == (k, false)
    ensures !k.running ==> TimeTick(k) == k.(time := TimeTick(k).time)
    ensures Start(k).running && Start(Start(k)) == Start(k) && (k.running ==> Start(k) == k)
  {}

  /** What a 32-bit tick counter shows. */
  function Clock(ticks: nat): nat {
    ticks % 0x1_0000_0000
  }

  function TimedBy(time: nat, s: Step): nat {
    if s.StepTick? then Clock(time + 1) else time
  }

  /** Handlers entered and not yet left. */
  function Depth(steps: seq<Step>): int {
    if steps == [] then 0
    else (if steps[0].StepIntEnter? then 1 else if steps[0].StepIntExit? then -1 else 0) + Depth(steps[1..])
  }

  /** The scheduler lock's depth after one call; it stays between 0 and 255. */
  function LockedBy(depth: nat, s: Step): nat {
    if s.StepLock? then if depth < 255 then depth + 1 else depth
    else if s.StepUnlock? then if depth > 0 then depth - 1 else 0
    else depth
  }

  function LockDepth(depth: nat, steps: seq<Step>): nat
    decreases |steps|
  {
    if steps == [] then depth else LockDepth(LockedBy(depth, steps[0]), steps[1..])
  }

  lemma SharedCounts(m: Machine, s: Step)
    requires Structure(m) && Enabled(m, s)
    requires s.StepIntEnter? || s.StepIntExit? || s.StepTick? || s.StepPost? || s.StepAccept? || s.StepSuspend? || s.StepResume?
    ensures var k, k' := m.k, Apply(m, s).k;
            && k'.time == TimedBy(k.time, s)
            && k'.intNesting == k.intNesting + Depth([s]) && k'.lockNesting == LockedBy(k.lockNesting, s)
  {
    assert [s][1..] == [];
  }

  lemma TaskCounts(m: Machine, s: Step)
    requires Structure(m) && Enabled(m, s)
    requires !s.StepIntEnter? && !s.StepIntExit? && !s.StepTick? && !s.StepPost? && !s.StepAccept? && !s.StepSuspend? && !s.StepResume?
    ensures var k, k' := m.k, Apply(m, s).k;
            k'.time == k.time && k'.intNesting == k.intNesting && k'.lockNesting == LockedBy(k.lockNesting, s)
  {}

  lemma StepCounts(m: Machine, s: Step)
    requires Structure(m) && Enabled(m, s)
    ensures var k, k' := m.k, Apply(m, s).k;
            && k'.time == TimedBy(k.time, s)
            && k'.intNesting == k.intNesting + Depth([s]) && k'.lockNesting == LockedBy(k.lockNesting, s)
  {
    if s.StepIntEnter? || s.StepIntExit? || s.StepTick? || s.StepPost? || s.StepAccept? || s.StepSuspend? || s.StepResume? {
      SharedCounts(m, s);
    } else {
      TaskCounts(m, s);
      assert [s][1..] == [];
    }
  }

  lemma CountsHead(depth: nat, steps: seq<Step>)
    requires steps != []
    ensures Depth(steps) == Depth([steps[0]]) + Depth(steps[1..])
    ensures LockDepth(depth, steps) == LockDepth(LockedBy(depth, steps[0]), steps[1..])
    ensures Ticks(steps) == Ticks([steps[0]]) + Ticks(steps[1..])
  {
    assert [steps[0]][1..] == [];
  }

  lemma RunStep(m: Machine, steps: seq<Step>)
    requires ValidRun(m, steps) && steps != []
    ensures Structure(m) && Enabled(m, steps[0]) && WellFormed(m.k) && m.k.running && |m.ledger| == |m.k.events|
    ensures ValidRun(Apply(m, steps[0]), steps[1..]) && Run(m, steps) == Run(Apply(m, steps[0]), steps[1..])
  {
    hide Apply, Enabled, LinkSafe;
  }

  lemma ClockTicks(t: nat, s: Step)
    ensures TimedBy(Clock(t), s) == Clock(t + Ticks([s]))
  {
    assert [s][1..] == [];
    Rings.ModOfSum(t, 1, 0x1_0000_0000);
  }

  lemma {:induction false} RunTime(m: Machine, steps: seq<Step>, t: nat)
    requires ValidRun(m, steps) && m.k.time == Clock(t)
    ensures Run(m, steps).k.time == Clock(t + Ticks(steps))
    decreases |steps|
  {
    hide Clock, Structure, Enabled, Apply, LinkSafe;
    if steps != [] {
      RunStep(m, steps);
      hide *;
      ClockTicks(t, steps[0]);
      StepCounts(m, steps[0]);
      CountsHead(0, steps);
      RunTime(Apply(m, steps[0]), steps[1..], t + Ticks([steps[0]]));
    }
  }

  lemma {:induction false} RunNesting(m: Machine, steps: seq<Step>)
    requires ValidRun(m, steps)
    ensures Run(m, steps).k.intNesting == m.k.intNesting + Depth(steps)
    ensures Run(m, steps).k.lockNesting == LockDepth(m.k.lockNesting, steps)
    decreases |steps|
  {
    if steps != [] {
      RunStep(m, steps);
      hide *;
      StepCounts(m, steps[0]);
      RunNesting(Apply(m, steps[0]), steps[1..]);
      CountsHead(m.k.lockNesting, steps);
    }
  }

  /**
   * In every run from start-up: the time is the number of ticks, the nesting level that of handlers entered and not
   * left, and the lock depth what the lock and unlock calls say.
   */
  lemma RunCounts(c: Config, steps: seq<Step>)
    requires ValidConfig(c) && ValidRun(Booted(c), steps)
    ensures var k := Run(Booted(c), steps).k;
            && k.time == Clock(Ticks(steps)) && k.intNesting == Depth(steps) && k.lockNesting == LockDepth(0, steps)
  {
    hide *;
    BootedEvents(c);
    RunTime(Booted(c), steps, 0);
    RunNesting(Booted(c), steps);
  }

  // ---------------------------------------------------------------- semaphores

  /** The tokens a semaphore has left: what went in, less what was accepted or granted to a pend. */
  function Tokens(l: Ledger): int {
    l.init + l.posted - l.accepted - l.granted
  }

  /**
   * At any point of any run: OSSemAccept returns the tokens left, OSSemPend at task level takes one at once
   * exactly when there is one and else blocks, and OSSemPost fails exactly when there are 65535.
   */
  lemma SemaphoresShowTokens(c: Config, steps: seq<Step>, e: nat, timeout: nat)
    requires ValidConfig(c) && ValidRun(Booted(c), steps) && IsSem(Run(Booted(c), steps).k, e)
    ensures var m := Run(Booted(c), steps);
            && e < |m.ledger| && m.k.cur in m.k.tasks && m.k.events[e].waiters <= m.k.tasks.Keys
            && var tokens := Tokens(m.ledger[e]);
            && 0 <= tokens <= 65535
            && SemAccept(m.k, e).1 == tokens
            && (m.k.intNesting == 0 ==> SemPend(m.k, e, timeout).1 == if tokens > 0 then Returned(ErrNone) else Blocked)
            && (SemPost(m.k, e).1 == if tokens == 65535 then ErrSemOvf else ErrNone)
            && (SemPost(m.k, e).1 != ErrNone ==> SemPost(m.k, e).0 == m.k)
  {
    ReachedGood(c, steps);
    assert SemOk(Run(Booted(c), steps), e);
  }

  /** An event control block is unused exactly while it is on the free list. */
  ghost predicate EventsOk(k: State) {
    && (forall i :: 0 <= i < |k.freeEvents| ==> k.freeEvents[i] < |k.events|)
    && (forall e: nat :: e < |k.events| ==> (k.events[e].Unused? <==> e in k.freeEvents))
  }

  lemma SemCreateEvents(k: State, cnt: nat)
    requires EventsOk(k) && NoDuplicates(k.freeEvents)
    ensures EventsOk(SemCreate(k, cnt).0)
  {
    if k.freeEvents != [] {
      var rest := k.freeEvents[1..];
      assert k.freeEvents == [k.freeEvents[0]] + rest;
      assert k.freeEvents[0] !in rest;
    }
  }

  /** Nothing but a creation takes a block, and a semaphore stays one. */
  ghost predicate SameEvents(k: State, k': State) {
    k'.freeEvents == k.freeEvents && |k'.events| == |k.events|
    && forall e: nat :: e < |k.events| ==> (k'.events[e].Unused? <==> k.events[e].Unused?)
  }

  lemma SharedSameEvents(m: Machine, s: Step)
    requires Structure(m) && Enabled(m, s)
    requires s.StepIntEnter? || s.StepIntExit? || s.StepTick? || s.StepPost? || s.StepAccept? || s.StepSuspend? || s.StepResume?
    ensures SameEvents(m.k, Apply(m, s).k)
  {}

  lemma TaskSameEvents(m: Machine, s: Step)
    requires Structure(m) && Enabled(m, s) && !s.StepSemCreate?
    requires !s.StepIntEnter? && !s.StepIntExit? && !s.StepTick? && !s.StepPost? && !s.StepAccept? && !s.StepSuspend? && !s.StepResume?
    ensures SameEvents(m.k, Apply(m, s).k)
  {}

  lemma StepKeepsEvents(m: Machine, s: Step)
    requires Structure(m) && Enabled(m, s) && EventsOk(m.k)
    ensures EventsOk(Apply(m, s).k) && |Apply(m, s).k.events| == |m.k.events|
  {
    if s.StepSemCreate? {
      SemCreateEvents(m.k, s.cnt);
    } else if s.StepIntEnter? || s.StepIntExit? || s.StepTick? || s.StepPost? || s.StepAccept? || s.StepSuspend? || s.StepResume? {
      SharedSameEvents(m, s);
      hide Apply;
    } else {
      TaskSameEvents(m, s);
      hide Apply;
    }
  }

  lemma {:induction false} RunKeepsEvents(m: Machine, steps: seq<Step>)
    requires Good(m) && ValidRun(m, steps) && EventsOk(m.k)
    ensures EventsOk(Run(m, steps).k) && |Run(m, steps).k.events| == |m.k.events|
    decreases |steps|
  {
    if steps != [] {
      StepKeepsEvents(m, steps[0]);
      StepKeepsWins(m, steps[0]);
      hide Good, Apply, Enabled, LinkSafe, EventsOk;
      RunKeepsEvents(Apply(m, steps[0]), steps[1..]);
    }
  }

  lemma {:induction false} BootKeepsEvents(k: State, calls: seq<BootCall>)
    requires Idle(k) && EventsOk(k) && forall i :: 0 <= i < |calls| ==> (calls[i].BootSem? ==> calls[i].cnt <= SEM_MAX)
    ensures EventsOk(BootAll(k, calls)) && |BootAll(k, calls).events| == |k.events| && BootAll(k, calls).time == k.time
    decreases |calls|
  {
    if calls != [] {
      BootOneKeeps(k, calls[0]);
      if calls[0].BootSem? {
        SemCreateEvents(k, calls[0].cnt);
      }
      BootKeepsEvents(BootOne(k, calls[0]), calls[1..]);
    }
  }

  ghost function Semaphores(k: State): set<nat> {
    set e: nat | e < |k.events| && k.events[e].Sem?
  }

  ghost function FreeBlocks(k: State): set<nat> {
    set e: nat | e < |k.events| && k.events[e].Unused?
  }

  lemma {:induction false} Elements(s: seq<nat>, t: set<nat>)
    requires NoDuplicates(s) && forall x :: x in t <==> x in s
    ensures |t| == |s|
  {
    if s != [] {
      var last := s[|s| - 1];
      var rest := s[..|s| - 1];
      assert s == rest + [last];
      assert last !in rest;
      Elements(rest, t - {last});
    }
  }

  ghost function UpTo(n: nat): (s: set<nat>)
    ensures (forall i: nat :: i in s <==> i < n) && |s| == n
  {
    if n == 0 then {} else UpTo(n - 1) + {n - 1}
  }

  lemma CountEvents(k: State)
    requires EventsOk(k) && NoDuplicates(k.freeEvents)
    ensures |Semaphores(k)| + |k.freeEvents| == |k.events|
  {
    Elements(k.freeEvents, FreeBlocks(k));
    assert Semaphores(k) + FreeBlocks(k) == UpTo(|k.events|);
  }

  /** In every run no event control block is lost: those not on the free list are semaphores, and a semaphore can be created while one is free. */
  lemma EventBlocksConserved(c: Config, steps: seq<Step>, cnt: nat)
    requires ValidConfig(c) && ValidRun(Booted(c), steps)
    ensures var k := Run(Booted(c), steps).k;
            && |Semaphores(k)| + |k.freeEvents| == c.events
            && (forall i :: 0 <= i < |k.freeEvents| ==> k.freeEvents[i] < |k.events|)
            && (SemCreate(k, cnt).1.Some? <==> k.intNesting == 0 && |Semaphores(k)| < c.events)
  {
    BootedEvents(c);
    BootedGood(c);
    ReachedGood(c, steps);
    hide Booted;
    RunKeepsEvents(Booted(c), steps);
    CountEvents(Run(Booted(c), steps).k);
  }

  lemma InitEvents(lowest: nat, tcbs: nat, events: nat)
    ensures var k := InitState(lowest, tcbs, events); EventsOk(k) && |k.events| == events && k.time == 0
  {
    var k := EmptyState(lowest, tcbs, events);
    forall e: nat | e < |k.events| ensures e in k.freeEvents {
      assert k.freeEvents[e] == e;
    }
  }

  lemma BootedEvents(c: Config)
    requires ValidConfig(c)
    ensures EventsOk(Booted(c).k) && |Booted(c).k.events| == c.events && Booted(c).k.time == Clock(0) && Booted(c).k.intNesting == Booted(c).k.lockNesting == 0
  {
    InitIdle(c);
    InitEvents(c.lowest, c.tcbs, c.events);
    hide Idle, BootAll, InitState, EventsOk;
    BootKeepsEvents(Init(c), c.calls);
  }

  // ---------------------------------------------------------------- errors

  /** Why OSTaskCreate fails, uninterrupted; and what it does else: a fresh, ready task at the head of the list. */
  lemma CreateEffect(k: State, prio: nat)
    requires WellFormed(k)
    ensures var (k', err) := TaskCreate(k, prio);
            var used := prio in k.tasks || prio in k.reserved;
            && (err == ErrPrioInvalid <==> prio > k.lowest)
            && (err == ErrTaskCreateIsr <==> prio <= k.lowest && k.intNesting > 0)
            && (err == ErrPrioExist <==> prio <= k.lowest && k.intNesting == 0 && used)
            && (err == ErrNoMoreTcb <==> prio <= k.lowest && k.intNesting == 0 && !used && k.freeTcbs == 0)
            && (err == ErrNone <==> prio <= k.lowest && k.intNesting == 0 && !used && k.freeTcbs > 0)
            && (err == ErrNone ==>
                  && k'.linked == [prio] + k.linked && k'.freeTcbs == k.freeTcbs - 1 && k'.reserved == k.reserved
                  && k'.tasks == k.tasks[prio := Task(false, false, PendOk, 0, None)] && k'.ready == k.ready + {prio}
                  && k' == k.(linked := k'.linked, freeTcbs := k'.freeTcbs, tasks := k'.tasks, ready := k'.ready))
  {
    assert prio !in k.reserved ==> k.reserved + {prio} - {prio} == k.reserved;
  }

  /** Which error OSTimeDlyHMSM returns, for all arguments. */
  lemma HmsmErrors(k: State, hours: nat, minutes: nat, seconds: nat, ms: nat)
    requires k.cur in k.tasks
    ensures var err := TimeDlyHmsm(k, hours, minutes, seconds, ms).1;
            var called := k.intNesting == 0 && k.lockNesting == 0;
            && (err == ErrTimeDlyIsr <==> k.intNesting > 0)
            && (err == ErrSchedLocked <==> k.intNesting == 0 && k.lockNesting > 0)
            && (err == ErrTimeZeroDly <==> called && hours + minutes + seconds + ms == 0)
            && (err == ErrTimeInvalidMinutes <==> called && minutes > 59)
            && (err == ErrTimeInvalidSeconds <==> called && minutes <= 59 && seconds > 59)
            && (err == ErrTimeInvalidMs <==> called && minutes <= 59 && seconds <= 59 && ms > 999)
            && (err == ErrNone <==> called && minutes <= 59 && seconds <= 59 && ms <= 999 && hours + minutes + seconds + ms > 0)
  {}
}
