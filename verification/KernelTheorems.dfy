/** What every run of the kernel promises. */
module KernelTheorems {
  import opened Prelude
  import opened KernelSpec
  import opened KernelMachine
  import opened KernelInvariant
  import opened KernelTokens
  import opened KernelRuns
  import opened KernelWindow

  lemma ReachedGood(c: Config, steps: seq<Step>)
    requires ValidConfig(c) && ValidRun(Booted(c), steps)
    ensures Good(Run(Booted(c), steps))
  {
    BootedGood(c);
    RunKeepsGood(Booted(c), steps);
  }

  // ---------------------------------------------------------------- ready list

  /**
   * Every run keeps: a created task is ready exactly when it is not pending, not suspended and
   * has no delay left; a task still being created is at most as ready.
   */
  lemma ReadyExactlyWhenEligible(c: Config, steps: seq<Step>, p: nat)
    requires ValidConfig(c) && ValidRun(Booted(c), steps)
    requires p in Run(Booted(c), steps).k.tasks
    ensures var k := Run(Booted(c), steps).k;
            && (p in k.linked ==> (p in k.ready <==> !k.tasks[p].pend && !k.tasks[p].susp && k.tasks[p].dly == 0))
            && (p in k.ready ==> !k.tasks[p].pend && !k.tasks[p].susp && k.tasks[p].dly == 0)
  {
    ReachedGood(c, steps);
    assert TaskOk(Run(Booted(c), steps), p);
  }

  /**
   * Linking a new task keeps the invariant exactly when the task is then neither pending, suspended nor
   * delayed. `KernelWindow` says which calls make sure of that.
   */
  lemma LinkKeepsInvIff(m: Machine)
    requires Inv(m) && Enabled(m, StepLink)
    ensures Inv(Apply(m, StepLink)) <==> LinkSafe(m, StepLink)
  {
    assert CreationOk(m, m.k.cur);
    if LinkSafe(m, StepLink) {
      LinkKeeps(m);
    } else {
      var m' := Apply(m, StepLink);
      assert !TaskOk(m', m.pc[m.k.cur].np);
    }
  }

  ghost predicate InvThroughout(m: Machine, steps: seq<Step>)
    requires AnyRun(m, steps)
    decreases |steps|
  {
    Inv(m) && (steps != [] ==> InvThroughout(Apply(m, steps[0]), steps[1..]))
  }

  ghost predicate LinkSafeThroughout(m: Machine, steps: seq<Step>)
    requires AnyRun(m, steps)
    decreases |steps|
  {
    steps != [] ==> LinkSafe(m, steps[0]) && LinkSafeThroughout(Apply(m, steps[0]), steps[1..])
  }

  /**
   * Of all runs, exactly those that never link a pending, suspended or delayed task keep the invariant in
   * every state - and with it that ready means eligible.
   */
  lemma {:induction false} InvThroughoutIff(m: Machine, steps: seq<Step>)
    requires Inv(m) && AnyRun(m, steps)
    ensures InvThroughout(m, steps) <==> LinkSafeThroughout(m, steps)
    decreases |steps|
  {
    if steps != [] {
      InvAfter(m, steps[0]);
      if LinkSafe(m, steps[0]) {
        InvThroughoutIff(Apply(m, steps[0]), steps[1..]);
      }
    }
  }

  lemma InvAfter(m: Machine, s: Step)
    requires Inv(m) && Enabled(m, s)
    ensures Inv(Apply(m, s)) <==> LinkSafe(m, s)
  {
    if s.StepLink? {
      LinkKeepsInvIff(m);
    } else {
      StepKeepsInv(m, s);
    }
  }

  // ---------------------------------------------------------------- wait lists

  /**
   * Every run keeps: a task is on a semaphore's wait list exactly when its event pointer says so,
   * and then it is still pending, or timed out and not yet resumed.
   */
  lemma WaitListMatchesEventPointer(c: Config, steps: seq<Step>, p: nat, e: nat)
    requires ValidConfig(c) && ValidRun(Booted(c), steps)
    requires p in Run(Booted(c), steps).k.tasks && IsSem(Run(Booted(c), steps).k, e)
    ensures var m := Run(Booted(c), steps);
            var t := m.k.tasks[p];
            && (p in m.k.events[e].waiters <==> t.event == Some(e))
            && (t.event == Some(e) ==>
                  && p in m.pc && (m.pc[p] == PendSched(e) || m.pc[p] == PendResume(e))
                  && ((t.pend && t.status == PendOk) || (!t.pend && t.status == PendTimeout && t.dly == 0)))
  {
    ReachedGood(c, steps);
    assert TaskOk(Run(Booted(c), steps), p);
    assert SemOk(Run(Booted(c), steps), e);
  }

  // ---------------------------------------------------------------- semaphores

  /**
   * Every run conserves tokens: what a semaphore started with and was posted is in its count, was
   * accepted, was collected by a pend that returned OS_ERR_NONE, or is held by a task a post picked.
   */
  lemma TokensConserved(c: Config, steps: seq<Step>, e: nat)
    requires ValidConfig(c) && ValidRun(Booted(c), steps)
    requires IsSem(Run(Booted(c), steps).k, e)
    ensures var m := Run(Booted(c), steps);
            e < |m.ledger| &&
            var l, ecb := m.ledger[e], m.k.events[e];
            && l.init + l.posted == ecb.cnt + l.accepted + l.granted
            && l.granted == l.collected + |Winners(m, e)|
            && (ecb.cnt > 0 ==> ecb.waiters == {})
            && ecb.cnt <= SEM_MAX
  {
    ReachedGood(c, steps);
    assert SemOk(Run(Booted(c), steps), e);
    assert WinOk(Run(Booted(c), steps), e);
  }

  /** A post picks this task: it is the most urgent waiter. */
  ghost predicate Picks(m: Machine, s: Step, p: nat) {
    s.StepPost? && IsSem(m.k, s.e) && m.k.events[s.e].waiters != {} && Least(m.k.events[s.e].waiters) == p
  }

  /**
   * When a blocked OSSemPend returns, it returns OS_ERR_NONE if a post picked the task and
   * OS_ERR_TIMEOUT otherwise, never OS_ERR_PEND_ABORT, and the task is on no wait list.
   */
  lemma PendReturnsNoneIffWon(m: Machine)
    requires Good(m) && Enabled(m, StepPendResume)
    ensures var (k', err) := SemPendResume(m.k, m.pc[m.k.cur].e);
            && err == (if m.k.cur in m.won then ErrNone else ErrTimeout)
            && k'.tasks[m.k.cur].event == None
            && forall e: nat :: IsSem(k', e) ==> m.k.cur !in k'.events[e].waiters
  {
    var p := m.k.cur;
    assert TaskOk(m, p);
    var (k', err) := SemPendResume(m.k, m.pc[p].e);
    forall e: nat | IsSem(k', e) ensures p !in k'.events[e].waiters {
      assert SemOk(m, e);
    }
  }

  /** Only a post that picks a task makes it a winner, and only its own return ends that. */
  lemma WonOnlyByPick(m: Machine, s: Step, p: nat)
    requires Good(m) && Enabled(m, s) && LinkSafe(m, s)
    requires !(s.StepPendResume? && m.k.cur == p)
    ensures p in Apply(m, s).won <==> p in m.won || Picks(m, s, p)
  {}

  ghost predicate ResumesFromPend(m: Machine, s: Step, p: nat) {
    s.StepPendResume? && m.k.cur == p
  }

  ghost predicate SomePick(m: Machine, steps: seq<Step>, p: nat)
    requires ValidRun(m, steps)
    decreases |steps|
  {
    steps != [] && (Picks(m, steps[0], p) || SomePick(Apply(m, steps[0]), steps[1..], p))
  }

  ghost predicate StaysInPend(m: Machine, steps: seq<Step>, p: nat)
    requires ValidRun(m, steps)
    decreases |steps|
  {
    steps == [] || (!ResumesFromPend(m, steps[0], p) && StaysInPend(Apply(m, steps[0]), steps[1..], p))
  }

  /** Over the whole run of a blocked pend: the task is a winner exactly when some post picked it. */
  lemma {:induction false} WonIffPosted(m: Machine, steps: seq<Step>, p: nat)
    requires Good(m) && ValidRun(m, steps) && StaysInPend(m, steps, p)
    ensures p in Run(m, steps).won <==> p in m.won || SomePick(m, steps, p)
    decreases |steps|
  {
    if steps != [] {
      StepKeepsWins(m, steps[0]);
      WonOnlyByPick(m, steps[0], p);
      WonIffPosted(Apply(m, steps[0]), steps[1..], p);
    }
  }

  lemma {:induction false} StaysPending(m: Machine, steps: seq<Step>, p: nat, e: nat)
    requires Good(m) && ValidRun(m, steps) && StaysInPend(m, steps, p)
    requires p in m.pc && Pending(m.pc[p]) && m.pc[p].e == e
    ensures var m' := Run(m, steps); p in m'.pc && Pending(m'.pc[p]) && m'.pc[p].e == e
    decreases |steps|
  {
    if steps != [] {
      StepKeepsWins(m, steps[0]);
      StepStaysPending(m, steps[0], p);
      hide Good, Apply;
      StaysPending(Apply(m, steps[0]), steps[1..], p, e);
    }
  }

  lemma StepStaysPending(m: Machine, s: Step, p: nat)
    requires Good(m) && Enabled(m, s) && !ResumesFromPend(m, s, p) && p in m.pc && Pending(m.pc[p])
    ensures var m' := Apply(m, s); p in m'.pc && Pending(m'.pc[p]) && m'.pc[p].e == m.pc[p].e
  {
    hide Tasks, TaskOk, Sems, SemOk, Wins, WinOk, IdleOk, CurOk;
    assert CreationOk(m, m.k.cur);
  }

  /**
   * The whole of a pend that blocks, through any run up to its return: it returns OS_ERR_NONE if some post
   * picked the task on the way, timed out by then or not, and OS_ERR_TIMEOUT otherwise.
   */
  lemma PendReturnsNoneIffPosted(m: Machine, e: nat, timeout: nat, steps: seq<Step>)
    requires Good(m) && Enabled(m, StepPend(e, timeout)) && m.k.events[e].cnt == 0
    requires var m1 := Apply(m, StepPend(e, timeout));
             && ValidRun(m1, steps) && StaysInPend(m1, steps, m.k.cur)
             && Run(m1, steps).k.cur == m.k.cur && Enabled(Run(m1, steps), StepPendResume)
    ensures var m1 := Apply(m, StepPend(e, timeout));
            && IsSem(Run(m1, steps).k, e) && Run(m1, steps).k.cur in Run(m1, steps).k.tasks
            && SemPendResume(Run(m1, steps).k, e).1 == if SomePick(m1, steps, m.k.cur) then ErrNone else ErrTimeout
  {
    var p, m1 := m.k.cur, Apply(m, StepPend(e, timeout));
    StepKeepsWins(m, StepPend(e, timeout));
    PendStarts(m, e, timeout);
    hide Good, Apply, Enabled;
    RunKeepsGood(m1, steps);
    StaysPending(m1, steps, p, e);
    WonIffPosted(m1, steps, p);
    Returns(Run(m1, steps));
  }

  lemma PendStarts(m: Machine, e: nat, timeout: nat)
    requires Good(m) && Enabled(m, StepPend(e, timeout)) && m.k.events[e].cnt == 0
    ensures var m1 := Apply(m, StepPend(e, timeout)); m1.pc == m.pc[m.k.cur := PendSched(e)] && m.k.cur !in m1.won
  {
    assert TaskOk(m, m.k.cur);
  }

  lemma Returns(m: Machine)
    requires Good(m) && Enabled(m, StepPendResume)
    ensures m.k.cur in m.k.tasks && m.k.cur in m.pc && m.pc[m.k.cur].PendResume? && IsSem(m.k, m.pc[m.k.cur].e)
    ensures SemPendResume(m.k, m.pc[m.k.cur].e).1 == if m.k.cur in m.won then ErrNone else ErrTimeout
  {
    PendReturnsNoneIffWon(m);
  }

  // ---------------------------------------------------------------- dispatch

  /**
   * Whenever a task runs its own code (or waits in a kernel call past its OS_Sched) with no
   * interrupt handler active and the scheduler unlocked, it is the most urgent ready task.
   */
  lemma MostUrgentReadyTaskRuns(c: Config, steps: seq<Step>)
    requires ValidConfig(c) && ValidRun(Booted(c), steps)
    ensures var m := Run(Booted(c), steps);
            && m.k.cur in m.pc
            && (m.k.intNesting == 0 && m.k.lockNesting == 0 && !InKernel(m.pc[m.k.cur]) ==>
                  m.k.ready != {} && m.k.cur == Least(m.k.ready))
  {
    ReachedGood(c, steps);
    var m := Run(Booted(c), steps);
    if m.k.intNesting == 0 && m.k.lockNesting == 0 && !InKernel(m.pc[m.k.cur]) {
      LeastIs(m.k.ready, m.k.cur);
    }
  }

  /**
   * A step changes the running task only in OS_Sched or when the last handler returns, only with the
   * scheduler unlocked, and only to the most urgent ready task.
   */
  lemma SwitchesOnlyToMostUrgent(m: Machine, s: Step)
    requires Good(m) && Enabled(m, s) && LinkSafe(m, s) && Apply(m, s).k.cur != m.k.cur
    ensures var k' := Apply(m, s).k;
            && (s.StepSched? || (s.StepIntExit? && m.k.intNesting == 1))
            && m.k.lockNesting == 0 && IsLeast(k'.ready, k'.cur)
  {
    hide Tasks, TaskOk, Creations, CreationOk, Sems, SemOk, Wins, WinOk, IdleOk, CurOk;
  }

  /** The scheduler is locked in every state of the run. */
  ghost predicate StaysLocked(m: Machine, steps: seq<Step>)
    requires ValidRun(m, steps)
    decreases |steps|
  {
    m.k.lockNesting > 0 && (steps != [] ==> StaysLocked(Apply(m, steps[0]), steps[1..]))
  }

  /** As long as the scheduler stays locked the same task stays current, whatever becomes ready. */
  lemma {:induction false} LockedTaskStaysCurrent(m: Machine, steps: seq<Step>)
    requires Good(m) && ValidRun(m, steps) && StaysLocked(m, steps)
    ensures Run(m, steps).k.cur == m.k.cur
    decreases |steps|
  {
    if steps != [] {
      StepKeepsWins(m, steps[0]);
      if Apply(m, steps[0]).k.cur != m.k.cur {
        SwitchesOnlyToMostUrgent(m, steps[0]);
      }
      LockedTaskStaysCurrent(Apply(m, steps[0]), steps[1..]);
    }
  }

  /** Lock and unlock nest: an unlock takes back one lock, and the scheduler runs only when the last is taken back. */
  lemma UnlockUndoesLock(k: State)
    requires k.running && k.intNesting == 0 && k.lockNesting < NESTING_MAX
    ensures SchedUnlock(SchedLock(k)) == (k, k.lockNesting == 0)
    ensures SchedLock(k).lockNesting == k.lockNesting + 1
  {}

  // ---------------------------------------------------------------- the promises in terms of calls

  /**
   * The same promises under a condition on the calls: in every run from start-up in which no OSTaskSuspend
   * names a task whose OSTaskCreate has installed but not linked it.
   */
  lemma CarefulRunPromises(c: Config, steps: seq<Step>, p: nat, e: nat)
    requires ValidConfig(c) && AnyRun(Booted(c), steps) && Careful(Booted(c), steps)
    ensures ValidRun(Booted(c), steps)
    ensures var m := Run(Booted(c), steps);
            var k := m.k;
            // the ready list
            && (p in k.tasks ==> (p in k.ready <==> p in k.linked && Eligible(k.tasks[p])))
            // wait lists and tokens
            && (IsSem(k, e) && p in k.tasks ==> (p in k.events[e].waiters <==> k.tasks[p].event == Some(e)))
            && (IsSem(k, e) ==>
                  e < |m.ledger| && m.ledger[e].init + m.ledger[e].posted == k.events[e].cnt + m.ledger[e].accepted + m.ledger[e].granted
                  && (k.events[e].cnt > 0 ==> k.events[e].waiters == {}) && k.events[e].cnt <= SEM_MAX)
            // dispatch
            && k.cur in k.linked && k.cur in m.pc
            && (k.intNesting == 0 && k.lockNesting == 0 && !InKernel(m.pc[k.cur]) ==> IsLeast(k.ready, k.cur))
  {
    ReadyExactlyWhenLinkedAndEligible(c, steps, p);
    var m := Run(Booted(c), steps);
    if IsSem(m.k, e) {
      TokensConserved(c, steps, e);
      if p in m.k.tasks {
        WaitListMatchesEventPointer(c, steps, p, e);
      }
    }
    MostUrgentReadyTaskRuns(c, steps);
    hide Booted;
  }

  /**
   * A create that found no control block, whatever ran meanwhile: its priority is still claimed and still
   * without a task, and giving it back changes nothing else.
   */
  lemma FailedCreateGivesPriorityBack(m: Machine)
    requires Good(m) && Enabled(m, StepRollback)
    ensures var np, m' := m.pc[m.k.cur].np, Apply(m, StepRollback);
            && np in m.k.reserved && np !in m.k.tasks
            && m'.k == m.k.(reserved := m.k.reserved - {np}) && m'.pc == m.pc[m.k.cur := User]
            && np !in m'.k.tasks && np !in m'.k.reserved
  {
    assert CreationOk(m, m.k.cur);
  }

  // ---------------------------------------------------------------- timers

  /** A linked task with `d` ticks to go. */
  ghost predicate Timed(m: Machine, p: nat, d: nat) {
    p in m.k.tasks && p in m.k.linked && d > 0 && m.k.tasks[p].dly == d
  }

  /** A task whose timer runs executes nothing: if it is current, it is on its way out through OS_Sched. */
  lemma TimedTaskDoesNotRun(m: Machine, s: Step, p: nat, d: nat)
    requires Good(m) && Timed(m, p, d) && Enabled(m, s) && m.k.cur == p && m.k.intNesting == 0
    ensures s.StepSched? || s.StepIntEnter?
    ensures s.StepSched? ==> m.k.lockNesting == 0
  {}

  /** One step of a run, seen by a task whose timer runs and which no post picks. */
  lemma TimedStep(m: Machine, s: Step, p: nat, d: nat)
    requires Good(m) && Timed(m, p, d) && Enabled(m, s) && LinkSafe(m, s) && !Picks(m, s, p) && !s.StepTick?
    ensures var m' := Apply(m, s);
            && Timed(m', p, d)
            && m'.k.tasks[p].pend == m.k.tasks[p].pend && m'.k.tasks[p].event == m.k.tasks[p].event
  {
    if m.k.cur == p && m.k.intNesting == 0 {
      TimedTaskDoesNotRun(m, s, p, d);
    } else {
      TimedStepOfOthers(m, s, p, d);
    }
  }

  lemma TimedStepOfOthers(m: Machine, s: Step, p: nat, d: nat)
    requires Good(m) && Timed(m, p, d) && Enabled(m, s) && !Picks(m, s, p) && !s.StepTick?
    requires m.k.cur != p || m.k.intNesting > 0
    ensures var m' := Apply(m, s);
            && Timed(m', p, d)
            && m'.k.tasks[p].pend == m.k.tasks[p].pend && m'.k.tasks[p].event == m.k.tasks[p].event
  {
    if s.StepPost? || s.StepAccept? || s.StepSuspend? || s.StepResume? || s.StepPend? || s.StepPendResume? || s.StepDly? {
      TimedCallOfOthers(m, s, p, d);
    } else {
      assert CreationOk(m, m.k.cur);
      hide Wins, Sems, SemOk, Creations, CreationOk, Tasks, IdleOk, CurOk;
    }
  }

  lemma TimedCallOfOthers(m: Machine, s: Step, p: nat, d: nat)
    requires Good(m) && Timed(m, p, d) && Enabled(m, s) && !Picks(m, s, p)
    requires m.k.cur != p || m.k.intNesting > 0
    requires s.StepPost? || s.StepAccept? || s.StepSuspend? || s.StepResume? || s.StepPend? || s.StepPendResume? || s.StepDly?
    ensures var m' := Apply(m, s);
            && Timed(m', p, d)
            && m'.k.tasks[p].pend == m.k.tasks[p].pend && m'.k.tasks[p].event == m.k.tasks[p].event
  {
    hide Wins, Sems, SemOk, Creations, CreationOk, Tasks, IdleOk, CurOk;
  }

  lemma TimedTick(m: Machine, p: nat, d: nat)
    requires Good(m) && Timed(m, p, d) && Enabled(m, StepTick)
    ensures var m' := Apply(m, StepTick);
            var t, t' := m.k.tasks[p], m'.k.tasks[p];
            && t'.event == t.event && t'.susp == t.susp
            && (d > 1 ==> Timed(m', p, d - 1) && t'.pend == t.pend)
            && (d == 1 ==> t'.dly == 0 && !t'.pend && (p in m'.k.ready <==> !t.susp)
                           && t'.status == if t.pend then PendTimeout else PendOk)
  {
    assert TaskOk(m, p);
  }
}
