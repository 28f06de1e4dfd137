/**
 * Suspension in terms of calls: a task is suspended exactly when, of the successful OSTaskSuspend and
 * OSTaskResume calls that named it, the last was a suspend. Readiness and exact wake-up follow in the same terms.
 */
module KernelSuspend {
  import opened KernelSpec
  import opened KernelMachine
  import opened KernelTokens
  import opened KernelRuns
  import opened KernelWindow
  import opened KernelTheorems
  import opened KernelTimers

  // ---------------------------------------------------------------- one call

  /** Whom an OSTaskSuspend names: OS_PRIO_SELF is the current task. */
  function Named(k: State, prio: nat): nat {
    if prio == 0xFF then k.cur else prio
  }

  /** Which error OSTaskSuspend returns, and what it changes: with an error nothing, else that one task. */
  lemma SuspendEffect(k: State, prio: nat)
    requires WellFormed(k) && k.reserved !! k.tasks.Keys
    ensures var (k', err, self) := TaskSuspend(k, prio);
            var p := Named(k, prio);
            && (err == ErrNone <==> (prio < k.lowest || prio == 0xFF) && p in k.tasks)
            && (err == ErrTaskSuspendIdle <==> prio == k.lowest)
            && (err == ErrPrioInvalid <==> prio > k.lowest && prio != 0xFF)
            && (err == ErrTaskNotExist <==> (prio < k.lowest || prio == 0xFF) && p in k.reserved)
            && (err != ErrNone ==> k' == k && !self)
            && (err == ErrNone ==>
                  && k' == k.(tasks := k'.tasks, ready := k'.ready) && k'.tasks.Keys == k.tasks.Keys
                  && k'.tasks[p].susp && p !in k'.ready && (self <==> p == k.cur)
                  && k'.tasks[p].(susp := k.tasks[p].susp) == k.tasks[p]
                  && forall q :: q in k.tasks && q != p ==> k'.tasks[q] == k.tasks[q] && (q in k'.ready <==> q in k.ready))
  {}

  /** The same for OSTaskResume, which succeeds on suspended tasks only. */
  lemma ResumeEffect(k: State, prio: nat)
    requires WellFormed(k) && k.reserved !! k.tasks.Keys
    ensures var (k', err, readied) := TaskResume(k, prio);
            && (err == ErrNone <==> prio < k.lowest && prio in k.tasks && k.tasks[prio].susp)
            && (err == ErrPrioInvalid <==> prio >= k.lowest)
            && (err == ErrTaskNotExist <==> prio < k.lowest && prio in k.reserved)
            && (err == ErrTaskNotSuspended <==> prio < k.lowest && prio in k.tasks && !k.tasks[prio].susp)
            && (err != ErrNone ==> k' == k && !readied)
            && (err == ErrNone ==>
                  && k' == k.(tasks := k'.tasks, ready := k'.ready) && k'.tasks.Keys == k.tasks.Keys
                  && !k'.tasks[prio].susp && k'.tasks[prio].(susp := true) == k.tasks[prio]
                  && (readied <==> !k.tasks[prio].pend && k.tasks[prio].dly == 0)
                  && (prio in k'.ready <==> prio in k.ready || readied)
                  && forall q :: q in k.tasks && q != prio ==> k'.tasks[q] == k.tasks[q] && (q in k'.ready <==> q in k.ready))
  {}

  /** A resume undoes a suspend: the kernel is exactly as before, whatever the task was waiting for. */
  lemma ResumeUndoesSuspend(k: State, prio: nat)
    requires WellFormed(k) && k.reserved !! k.tasks.Keys
    requires prio < k.lowest && prio in k.tasks && !k.tasks[prio].susp && (prio in k.ready <==> Eligible(k.tasks[prio]))
    ensures TaskSuspend(k, prio).1 == ErrNone
    ensures TaskResume(TaskSuspend(k, prio).0, prio).1 == ErrNone
    ensures TaskResume(TaskSuspend(k, prio).0, prio).0 == k
  {
    var k' := TaskResume(TaskSuspend(k, prio).0, prio).0;
    assert k'.ready == k.ready;
    assert k'.tasks == k.tasks;
  }

  // ---------------------------------------------------------------- every step

  ghost predicate Suspended(m: Machine, p: nat) {
    p in m.k.tasks && m.k.tasks[p].susp
  }

  /** A successful OSTaskSuspend of `p`. */
  ghost predicate SuspendCall(m: Machine, s: Step, p: nat) {
    s.StepSuspend? && p == Named(m.k, s.prio) && TaskSuspend(m.k, s.prio).1 == ErrNone
  }

  /** A successful OSTaskResume of `p`. */
  ghost predicate ResumeCall(m: Machine, s: Step, p: nat) {
    s.StepResume? && p == s.prio && TaskResume(m.k, s.prio).1 == ErrNone
  }

  /** Whether `p` is suspended after a step, as far as calls can tell. */
  ghost predicate SuspendedAfter(m: Machine, s: Step, p: nat) {
    SuspendCall(m, s, p) || (Suspended(m, p) && !ResumeCall(m, s, p))
  }

  lemma CallSuspends(m: Machine, s: Step, p: nat)
    requires Good(m) && Enabled(m, s) && (s.StepSuspend? || s.StepResume?)
    ensures Suspended(Apply(m, s), p) <==> SuspendedAfter(m, s, p)
  {
    hide Tasks, TaskOk, Creations, CreationOk, Sems, SemOk, Wins, WinOk, IdleOk, CurOk;
    if s.StepSuspend? {
      SuspendEffect(m.k, s.prio);
    } else {
      ResumeEffect(m.k, s.prio);
    }
    hide TaskSuspend, TaskResume;
  }

  lemma WakeSuspends(m: Machine, s: Step, p: nat)
    requires Good(m) && Enabled(m, s) && (s.StepTick? || s.StepPost? || s.StepPend? || s.StepPendResume? || s.StepDly?)
    ensures Suspended(Apply(m, s), p) <==> Suspended(m, p)
  {
    hide Tasks, TaskOk, Creations, CreationOk, Sems, SemOk, Wins, WinOk, IdleOk, CurOk;
  }

  lemma QuietSuspends(m: Machine, s: Step, p: nat)
    requires Good(m) && Enabled(m, s)
    requires s.StepIntEnter? || s.StepIntExit? || s.StepSched? || s.StepLock? || s.StepUnlock? || s.StepAccept? || s.StepSemCreate?
    ensures Suspended(Apply(m, s), p) <==> Suspended(m, p)
  {
    hide Tasks, TaskOk, Creations, CreationOk, Sems, SemOk, Wins, WinOk, IdleOk, CurOk;
  }

  lemma CreateSuspends(m: Machine, s: Step, p: nat)
    requires Good(m) && Enabled(m, s)
    requires s.StepReserve? || s.StepAlloc? || s.StepInstall? || s.StepLink? || s.StepRollback?
    ensures Suspended(Apply(m, s), p) <==> Suspended(m, p)
  {
    hide Tasks, TaskOk, Sems, SemOk, Wins, WinOk, IdleOk, CurOk;
    assert CreationOk(m, m.k.cur);
  }

  /** Nothing but those two calls suspends a task or ends its suspension: no tick, post, timeout or creation. */
  lemma StepSuspends(m: Machine, s: Step, p: nat)
    requires Good(m) && Enabled(m, s)
    ensures Suspended(Apply(m, s), p) <==> SuspendedAfter(m, s, p)
  {
    if s.StepSuspend? || s.StepResume? {
      CallSuspends(m, s, p);
    } else if s.StepTick? || s.StepPost? || s.StepPend? || s.StepPendResume? || s.StepDly? {
      WakeSuspends(m, s, p);
    } else if s.StepReserve? || s.StepAlloc? || s.StepInstall? || s.StepLink? || s.StepRollback? {
      CreateSuspends(m, s, p);
    } else {
      QuietSuspends(m, s, p);
    }
  }

  // ---------------------------------------------------------------- every run

  ghost predicate NoResume(m: Machine, steps: seq<Step>, p: nat)
    requires ValidRun(m, steps)
    decreases |steps|
  {
    steps != [] ==> !ResumeCall(m, steps[0], p) && NoResume(Apply(m, steps[0]), steps[1..], p)
  }

  /** Some successful suspend of `p` in the run has no successful resume of it after it. */
  ghost predicate LastCallSuspends(m: Machine, steps: seq<Step>, p: nat)
    requires ValidRun(m, steps)
    decreases |steps|
  {
    steps != [] &&
    var m1, rest := Apply(m, steps[0]), steps[1..];
    (SuspendCall(m, steps[0], p) && NoResume(m1, rest, p)) || LastCallSuspends(m1, rest, p)
  }

  lemma {:induction false} RunSuspends(m: Machine, steps: seq<Step>, p: nat)
    requires Good(m) && ValidRun(m, steps)
    ensures Suspended(Run(m, steps), p) <==> LastCallSuspends(m, steps, p) || (Suspended(m, p) && NoResume(m, steps, p))
    decreases |steps|
  {
    if steps != [] {
      hide Good, Apply, Enabled, LinkSafe, Suspended, SuspendCall, ResumeCall;
      StepKeeps(m, steps[0]);
      StepSuspends(m, steps[0], p);
      RunSuspends(Apply(m, steps[0]), steps[1..], p);
    }
  }

  lemma StepKeeps(m: Machine, s: Step)
    requires Good(m) && Enabled(m, s) && LinkSafe(m, s)
    ensures Good(Apply(m, s))
  {
    StepKeepsWins(m, s);
  }

  lemma BootedUnsuspended(c: Config, p: nat)
    requires ValidConfig(c)
    ensures Good(Booted(c)) && !Suspended(Booted(c), p)
  {
    BootedGood(c);
    hide Good, BootAll, Init;
  }

  /** In every run from start-up a task is suspended exactly when its last successful suspend or resume was a suspend. */
  lemma SuspendedIffLastCall(c: Config, steps: seq<Step>, p: nat)
    requires ValidConfig(c) && ValidRun(Booted(c), steps) && p in Run(Booted(c), steps).k.tasks
    ensures Run(Booted(c), steps).k.tasks[p].susp <==> LastCallSuspends(Booted(c), steps, p)
  {
    hide Booted, Good;
    BootedUnsuspended(c, p);
    RunSuspends(Booted(c), steps, p);
  }

  /**
   * In every run in which no OSTaskSuspend names a half-made task: a task on the task list is ready exactly
   * when it is not in a pend, has no delay left, and was not suspended by the last call to say so.
   */
  lemma ReadyInTermsOfCalls(c: Config, steps: seq<Step>, p: nat)
    requires ValidConfig(c) && AnyRun(Booted(c), steps) && Careful(Booted(c), steps)
    ensures ValidRun(Booted(c), steps)
    ensures var k := Run(Booted(c), steps).k;
            p in k.tasks && p in k.linked ==>
              (p in k.ready <==> !k.tasks[p].pend && k.tasks[p].dly == 0 && !LastCallSuspends(Booted(c), steps, p))
  {
    hide Booted, LastCallSuspends;
    ReadyExactlyWhenLinkedAndEligible(c, steps, p);
    if p in Run(Booted(c), steps).k.tasks {
      SuspendedIffLastCall(c, steps, p);
    }
  }

  // ---------------------------------------------------------------- exact wake-up

  // A task that runs its own code with the scheduler unlocked is not suspended.
  lemma RunningUnsuspended(m: Machine)
    requires Good(m) && AtUser(m) && m.k.lockNesting == 0
    ensures !Suspended(m, m.k.cur)
  {
    assert TaskOk(m, m.k.cur);
  }

  /**
   * OSTimeDly(n), whatever runs then and whoever suspends and resumes the task: it is not ready before the
   * n-th tick, and that tick makes it ready exactly unless the last call to say so suspended it.
   */
  lemma DelayEndsUnlessSuspended(m: Machine, n: nat, steps: seq<Step>)
    requires Good(m) && Enabled(m, StepDly(n)) && n > 0 && m.k.lockNesting == 0 && WindowOk(m)
    requires ValidRun(Apply(m, StepDly(n)), steps) && Ticks(steps) == n - 1 && Run(Apply(m, StepDly(n)), steps).k.intNesting > 0
    ensures var p, m1 := m.k.cur, Apply(m, StepDly(n));
            var m' := Run(m1, steps);
            && Good(m') && p in m'.k.tasks && p !in m'.k.ready
            && (p in TimeTick(m'.k).ready <==> !LastCallSuspends(m1, steps, p))
  {
    var p, m1 := m.k.cur, Apply(m, StepDly(n));
    RunningUnsuspended(m);
    StepSuspends(m, StepDly(n), p);
    StepKeeps(m, StepDly(n));
    DelayEndsAtNthTick(m, n, steps);
    hide Good, Apply, WindowOk;
    RunSuspends(m1, steps, p);
  }

  /** The same for a blocked OSSemPend with a timeout of n ticks that no post ends. */
  lemma TimeoutReadiesUnlessSuspended(m: Machine, e: nat, n: nat, steps: seq<Step>)
    requires Good(m) && Enabled(m, StepPend(e, n)) && m.k.events[e].cnt == 0 && n > 0 && WindowOk(m)
    requires var m1 := Apply(m, StepPend(e, n));
             ValidRun(m1, steps) && Ticks(steps) == n - 1 && Run(m1, steps).k.intNesting > 0 && !SomePick(m1, steps, m.k.cur)
    ensures var p, m1 := m.k.cur, Apply(m, StepPend(e, n));
            var m' := Run(m1, steps);
            && Good(m') && p in m'.k.tasks && p !in m'.k.ready
            && TimeTick(m'.k).tasks[p].status == PendTimeout
            && (p in TimeTick(m'.k).ready <==> !LastCallSuspends(m1, steps, p))
  {
    var p, m1 := m.k.cur, Apply(m, StepPend(e, n));
    RunningUnsuspended(m);
    StepSuspends(m, StepPend(e, n), p);
    StepKeeps(m, StepPend(e, n));
    PendTimesOutAtNthTick(m, e, n, steps);
    hide Good, Apply, WindowOk;
    RunSuspends(m1, steps, p);
  }
}
