/**
 * What OSTaskSuspend of a half-made task leads to. Left suspended, the task is made ready all the same
 * when the creation goes on. Resumed at once, it runs before it is on the task list, where the tick
 * does not find it.
 */
module KernelHazard {
  import opened Prelude
  import opened KernelSpec
  import opened KernelMachine
  import opened KernelRuns

  /** The current task creates `np`; before it links the task, a handler suspends it. */
  function WindowSteps(np: nat): seq<Step> {
    [StepReserve(np), StepAlloc, StepInstall, StepIntEnter, StepSuspend(np), StepIntExit]
  }

  // Where the creation stands after a number of those steps.
  ghost predicate Creates(m: Machine, np: nat, c: Pc) {
    && Good(m) && AtTask(m) && m.pc[m.k.cur] == c
    && np < m.k.lowest && np != m.k.cur && np !in m.k.ready
  }

  lemma Reserves(m: Machine, np: nat)
    requires Good(m) && AtUser(m) && np < m.k.lowest && m.k.freeTcbs > 0
    requires np !in m.k.tasks && np !in m.k.reserved
    ensures ValidRun(m, [StepReserve(np)])
    ensures var m1 := Run(m, [StepReserve(np)]); 
            && Creates(m1, np, CreateReserved(np)) && m1.k.freeTcbs > 0
            && m1.k.lockNesting == m.k.lockNesting && m1.k.cur == m.k.cur
  {
    assert ValidRun(m, []) && [] + [StepReserve(np)] == [StepReserve(np)];
    GoodRunStep(m, [], StepReserve(np));
  }

  lemma Allocates(m: Machine, run: seq<Step>, np: nat)
    requires ValidRun(m, run) && Creates(Run(m, run), np, CreateReserved(np)) && Run(m, run).k.freeTcbs > 0
    ensures ValidRun(m, run + [StepAlloc])
    ensures var m1, m2 := Run(m, run), Run(m, run + [StepAlloc]);
            && Creates(m2, np, CreateAllocated(np))
            && m2.k.lockNesting == m1.k.lockNesting && m2.k.cur == m1.k.cur
  {
    GoodRunStep(m, run, StepAlloc);
  }

  lemma Installs(m: Machine, run: seq<Step>, np: nat)
    requires ValidRun(m, run) && Creates(Run(m, run), np, CreateAllocated(np))
    ensures ValidRun(m, run + [StepInstall])
    ensures var m3 := Run(m, run + [StepInstall]);
            && Creates(m3, np, CreateInstalled(np)) && np in m3.k.tasks && np !in m3.k.reserved
            && m3.k.tasks[np] == FRESH_TASK && np !in m3.k.linked && np in m3.pc && m3.pc[np] == User
            && m3.k.lockNesting == Run(m, run).k.lockNesting && m3.k.cur == Run(m, run).k.cur
  {
    GoodRunStep(m, run, StepInstall);
    assert CreationOk(Run(m, run), Run(m, run).k.cur);
  }

  // The handler in the window.
  lemma HandlerSuspends(m: Machine, run: seq<Step>, np: nat)
    requires ValidRun(m, run)
    requires var m3 := Run(m, run);
             Creates(m3, np, CreateInstalled(np)) && np in m3.k.tasks && np !in m3.k.reserved
    ensures ValidRun(m, run + [StepIntEnter] + [StepSuspend(np)])
    ensures var m3, m5 := Run(m, run), Run(m, run + [StepIntEnter] + [StepSuspend(np)]);
            && Good(m5) && m5.pc == m3.pc && m5.k.cur == m3.k.cur && m5.k.intNesting == 1
            && m5.k.lockNesting == m3.k.lockNesting && m5.k.ready == m3.k.ready && m5.k.linked == m3.k.linked
            && np in m5.k.tasks && m5.k.tasks[np] == m3.k.tasks[np].(susp := true) && m5.k.reserved == m3.k.reserved
  {
    GoodRunStep(m, run, StepIntEnter);
    GoodRunStep(m, run + [StepIntEnter], StepSuspend(np));
    var m3 := Run(m, run);
    assert m3.k.ready - {np} == m3.k.ready;
  }

  lemma HandlerReturns(m: Machine, run: seq<Step>, cur: nat)
    requires ValidRun(m, run) && Good(Run(m, run)) && Run(m, run).k.intNesting == 1
    requires Run(m, run).k.cur == cur && (Run(m, run).k.lockNesting == 0 ==> IsLeast(Run(m, run).k.ready, cur))
    ensures ValidRun(m, run + [StepIntExit])
    ensures var m5, m6 := Run(m, run), Run(m, run + [StepIntExit]);
            Good(m6) && m6.pc == m5.pc && m6.k.cur == cur && m6.k.intNesting == 0 && m6.k.tasks == m5.k.tasks
  {
    GoodRunStep(m, run, StepIntExit);
    if Run(m, run).k.lockNesting == 0 {
      LeastIs(Run(m, run).k.ready, cur);
    }
  }

  lemma LinkOverrules(m: Machine, np: nat)
    requires Good(m) && AtTask(m) && m.pc[m.k.cur] == CreateInstalled(np) && np in m.k.tasks && m.k.tasks[np].susp
    ensures Enabled(m, StepLink) && !LinkSafe(m, StepLink)
    ensures var k' := Apply(m, StepLink).k; np in k'.linked && np in k'.ready && np in k'.tasks && k'.tasks[np].susp
  {}

  /**
   * From every good state with a free priority and a free control block, the run that suspends the
   * half-created task is a run of the machine, and linking after it leaves a suspended ready task.
   */
  lemma SuspendedTaskBecomesReady(m: Machine, np: nat)
    requires Good(m) && AtUser(m) && np < m.k.lowest && m.k.freeTcbs > 0
    requires np !in m.k.tasks && np !in m.k.reserved
    ensures ValidRun(m, WindowSteps(np))
    ensures var m6 := Run(m, WindowSteps(np));
            && Good(m6) && Enabled(m6, StepLink) && !LinkSafe(m6, StepLink)
            && var k7 := Apply(m6, StepLink).k;
               np in k7.linked && np in k7.ready && np in k7.tasks && k7.tasks[np].susp
  {
    var r1 := [StepReserve(np)];
    Reserves(m, np);
    Allocates(m, r1, np);
    Installs(m, r1 + [StepAlloc], np);
    var r3 := r1 + [StepAlloc] + [StepInstall];
    HandlerSuspends(m, r3, np);
    var r5 := r3 + [StepIntEnter] + [StepSuspend(np)];
    HandlerReturns(m, r5, Run(m, r3).k.cur);
    assert WindowSteps(np) == r5 + [StepIntExit];
    LinkOverrules(Run(m, WindowSteps(np)), np);
  }

  // ---------------------------------------------------------------- a task that runs before it is linked

  /** The same window, but the handler resumes the task again: it is ready, and preempts its creator. */
  function EarlyStart(np: nat): seq<Step> {
    [StepReserve(np), StepAlloc, StepInstall, StepIntEnter, StepSuspend(np), StepResume(np), StepIntExit]
  }

  lemma HandlerResumes(m: Machine, run: seq<Step>, np: nat)
    requires ValidRun(m, run) && Good(Run(m, run)) && np < Run(m, run).k.lowest && np in Run(m, run).k.tasks
    requires Run(m, run).k.intNesting == 1 && Run(m, run).k.tasks[np] == FRESH_TASK.(susp := true)
    requires np !in Run(m, run).k.reserved
    ensures ValidRun(m, run + [StepResume(np)])
    ensures var m5, m6 := Run(m, run), Run(m, run + [StepResume(np)]);
            && Good(m6) && m6.pc == m5.pc && m6.k == m5.k.(ready := m5.k.ready + {np}, tasks := m5.k.tasks[np := FRESH_TASK])
  {
    GoodRunStep(m, run, StepResume(np));
  }

  lemma HandlerSwitches(m: Machine, run: seq<Step>, np: nat)
    requires ValidRun(m, run) && Good(Run(m, run)) && Run(m, run).k.intNesting == 1 && Run(m, run).k.lockNesting == 0
    requires IsLeast(Run(m, run).k.ready, np)
    ensures ValidRun(m, run + [StepIntExit])
    ensures var m6, m7 := Run(m, run), Run(m, run + [StepIntExit]);
            Good(m7) && m7.pc == m6.pc && m7.k == m6.k.(cur := np, intNesting := 0)
  {
    GoodRunStep(m, run, StepIntExit);
    LeastIs(Run(m, run).k.ready, np);
  }

  /**
   * From every good state with a free priority more urgent than the current task's: a run of safe steps
   * that ends in a good state whose current task is not on the task list.
   */
  lemma TaskRunsBeforeItIsLinked(m: Machine, np: nat)
    requires Good(m) && AtUser(m) && m.k.lockNesting == 0 && np < m.k.cur && m.k.freeTcbs > 0
    requires np !in m.k.tasks && np !in m.k.reserved
    ensures ValidRun(m, EarlyStart(np))
    ensures var m7 := Run(m, EarlyStart(np));
            && Good(m7) && m7.k.cur == np && AtUser(m7) && m7.k.lockNesting == 0 && np !in m7.k.linked && np != m7.k.lowest
  {
    var r1 := [StepReserve(np)];
    Reserves(m, np);
    Allocates(m, r1, np);
    Installs(m, r1 + [StepAlloc], np);
    var r3 := r1 + [StepAlloc] + [StepInstall];
    HandlerSuspends(m, r3, np);
    var r5 := r3 + [StepIntEnter] + [StepSuspend(np)];
    HandlerResumes(m, r5, np);
    BeforeTheSwitch(m, r3, r5 + [StepResume(np)], np);
    HandlerSwitches(m, r5 + [StepResume(np)], np);
    assert EarlyStart(np) == r5 + [StepResume(np)] + [StepIntExit];
  }

  lemma BeforeTheSwitch(m: Machine, r3: seq<Step>, r6: seq<Step>, np: nat)
    requires ValidRun(m, r3) && ValidRun(m, r6) && Creates(Run(m, r3), np, CreateInstalled(np))
    requires Run(m, r3).k.lockNesting == 0 && np < Run(m, r3).k.cur
    requires Run(m, r6).k.ready == Run(m, r3).k.ready + {np}
    ensures IsLeast(Run(m, r6).k.ready, np)
  {
    assert IsLeast(Run(m, r3).k.ready, Run(m, r3).k.cur);
  }

  // A task on its way into a delay of one tick.
  ghost predicate Dozing(m: Machine, p: nat) {
    && Good(m) && p in m.k.tasks && m.k.tasks[p].dly == 1 && p !in m.k.linked && p !in m.k.ready
  }

  lemma Dozes(m: Machine)
    requires Good(m) && AtUser(m) && m.k.lockNesting == 0 && m.k.cur !in m.k.linked && m.k.cur != m.k.lowest
    ensures ValidRun(m, [StepDly(1)])
    ensures Dozing(Run(m, [StepDly(1)]), m.k.cur) && Run(m, [StepDly(1)]).k.intNesting == 0
  {
    assert ValidRun(m, []) && [] + [StepDly(1)] == [StepDly(1)];
    hide Tasks, TaskOk, Creations, CreationOk, Sems, SemOk, Wins, WinOk, IdleOk;
    GoodRunStep(m, [], StepDly(1));
  }

  lemma DozesOn(m: Machine, run: seq<Step>, p: nat, s: Step)
    requires ValidRun(m, run) && Dozing(Run(m, run), p) && Enabled(Run(m, run), s) && (s.StepIntEnter? || s.StepTick?)
    ensures ValidRun(m, run + [s]) && Dozing(Run(m, run + [s]), p)
    ensures s.StepIntEnter? ==> Run(m, run + [s]).k.intNesting > 0
  {
    hide Tasks, TaskOk, Creations, CreationOk, Sems, SemOk, Wins, WinOk, IdleOk, CurOk;
    GoodRunStep(m, run, s);
  }

  /** The walk of OSTimeTick does not see such a task: its delay of one tick is not over at the next tick. */
  lemma UnlinkedDelayDoesNotEnd(m: Machine)
    requires Good(m) && AtUser(m) && m.k.lockNesting == 0 && m.k.cur !in m.k.linked && m.k.cur != m.k.lowest
    ensures var late := [StepDly(1), StepIntEnter, StepTick];
            && ValidRun(m, late)
            && var k := Run(m, late).k; m.k.cur in k.tasks && k.tasks[m.k.cur].dly == 1 && m.k.cur !in k.ready
  {
    hide Good, Apply;
    var p := m.k.cur;
    Dozes(m);
    DozesOn(m, [StepDly(1)], p, StepIntEnter);
    DozesOn(m, [StepDly(1)] + [StepIntEnter], p, StepTick);
    assert [StepDly(1)] + [StepIntEnter] + [StepTick] == [StepDly(1), StepIntEnter, StepTick];
  }

  // ---------------------------------------------------------------- start-ups from which these runs exist

  // One task, the idle task at priority 2, and a control block to spare.
  function Small(first: nat): Config {
    Config(2, 3, 0, [BootTask(first)])
  }

  lemma SmallInit()
    ensures var k := Init(Small(0));
            k.tasks.Keys == {2} && k.ready == {2} && k.reserved == {} && k.freeTcbs == 2 && k.lowest == 2
            && !k.running && k.intNesting == 0
  {}

  lemma SmallBooted(first: nat)
    requires first < 2
    ensures ValidConfig(Small(first)) && Idle(Init(Small(first)))
    ensures var k := BootAll(Init(Small(first)), Small(first).calls);
            && k.tasks.Keys == k.ready == {first, 2} && k.reserved == {} && k.freeTcbs == 1 && k.lowest == 2
            && k.intNesting == 0 && k.lockNesting == 0 && !k.running
  {
    InitIdle(Small(first));
    SmallInit();
    var k := Init(Small(first));
    BootOneKeeps(k, BootTask(first));
    assert Small(first).calls[1..] == [];
    assert BootAll(k, Small(first).calls) == BootAll(BootOne(k, BootTask(first)), []) == BootOne(k, BootTask(first));
  }

  lemma SmallBoots(first: nat)
    requires first < 2
    ensures ValidConfig(Small(first))
    ensures var m := Booted(Small(first));
            && Good(m) && AtUser(m) && m.k.cur == first && m.k.lockNesting == 0 && m.k.lowest == 2
            && m.k.freeTcbs > 0 && 1 - first !in m.k.tasks && 1 - first !in m.k.reserved
  {
    hide Good, BootAll, Init, Idle, ValidConfig, Small;
    SmallBooted(first);
    BootedGood(Small(first));
    LeastIs({first, 2}, first);
  }

  /** A start-up from which a run leaves a suspended task ready: priority 1 is created and suspended in the window. */
  lemma HazardIsReachable()
    ensures ValidConfig(Small(0)) && ValidRun(Booted(Small(0)), WindowSteps(1))
    ensures var m6 := Run(Booted(Small(0)), WindowSteps(1));
            && Good(m6) && Enabled(m6, StepLink)
            && var k7 := Apply(m6, StepLink).k;
               1 in k7.linked && 1 in k7.ready && 1 in k7.tasks && k7.tasks[1].susp
  {
    hide Good, Booted, Small, ValidConfig, WindowSteps;
    SmallBoots(0);
    SuspendedTaskBecomesReady(Booted(Small(0)), 1);
  }

  /** A start-up from which a task delays for one tick and is not woken by the next. */
  lemma LateWakeUpIsReachable()
    ensures ValidConfig(Small(1)) && ValidRun(Booted(Small(1)), EarlyStart(0))
    ensures var m7 := Run(Booted(Small(1)), EarlyStart(0));
            var late := [StepDly(1), StepIntEnter, StepTick];
            && Good(m7) && m7.k.cur == 0 && ValidRun(m7, late)
            && var k := Run(m7, late).k; 0 in k.tasks && k.tasks[0].dly == 1 && 0 !in k.ready
  {
    hide Good, Booted, Small, ValidConfig, EarlyStart;
    SmallBoots(1);
    TaskRunsBeforeItIsLinked(Booted(Small(1)), 0);
    UnlinkedDelayDoesNotEnd(Run(Booted(Small(1)), EarlyStart(0)));
  }
}
