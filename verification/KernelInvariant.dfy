/** Every step of the kernel machine keeps its invariant, so every run does. */
module KernelInvariant {
  import opened Prelude
  import opened KernelSpec
  import opened KernelMachine

  lemma IdleIsReady(m: Machine)
    requires Inv(m)
    ensures m.k.lowest in m.k.ready
  {
    assert TaskOk(m, m.k.lowest);
    assert m.k.linked[|m.k.linked| - 1] in m.k.linked;
  }

  // ---------------------------------------------------------------- what a step leaves alone

  /** A step that moves nobody in or out of OSTaskCreate. */
  lemma CreationsFrame(m: Machine, m': Machine)
    requires Inv(m) && Structure(m')
    requires m'.k.tasks.Keys == m.k.tasks.Keys && m'.k.reserved == m.k.reserved && m'.k.linked == m.k.linked
    requires forall p :: p in m.pc ==> m'.pc[p] == m.pc[p] || (Creating(m.pc[p]).None? && Creating(m'.pc[p]).None?)
    ensures Creations(m')
  {
    forall p | p in m'.pc ensures CreationOk(m', p) {
      assert CreationOk(m, p);
    }
  }

  /** A step that touches no semaphore and no task's event pointer. */
  lemma SemsFrame(m: Machine, m': Machine)
    requires Inv(m) && Structure(m')
    requires m'.k.events == m.k.events && m'.ledger == m.ledger && m.k.tasks.Keys <= m'.k.tasks.Keys
    requires forall p :: p in m.k.tasks ==> m'.k.tasks[p].event == m.k.tasks[p].event
    ensures Sems(m')
  {
    forall e | 0 <= e < |m'.k.events| ensures SemOk(m', e) {
      assert SemOk(m, e);
    }
  }

  /** Nothing that `TaskOk` says of `p` has changed. */
  ghost predicate Untouched(m: Machine, m': Machine, p: nat) {
    && p in m.k.tasks && p in m'.k.tasks && p in m.pc && p in m'.pc
    && m'.k.tasks[p] == m.k.tasks[p] && m'.pc[p] == m.pc[p]
    && (p in m'.k.ready <==> p in m.k.ready)
    && (p in m'.k.linked ==> p in m.k.linked)
    && (p in m'.won <==> p in m.won)
    && |m'.k.events| == |m.k.events|
    && (forall e: nat :: IsSem(m.k, e) ==>
          IsSem(m'.k, e) && (p in m'.k.events[e].waiters <==> p in m.k.events[e].waiters))
  }

  lemma TasksFrame(m: Machine, m': Machine, changed: set<nat>)
    requires Inv(m) && Structure(m')
    requires forall p :: p in m'.k.tasks && p !in changed ==> Untouched(m, m', p)
    requires forall p :: p in m'.k.tasks && p in changed ==> TaskOk(m', p)
    ensures Tasks(m')
  {
    forall p | p in m'.k.tasks ensures TaskOk(m', p) {
      if p !in changed {
        assert Untouched(m, m', p);
        assert TaskOk(m, p);
      }
    }
  }

  // ---------------------------------------------------------------- one lemma a step

  // Only the current task's program counter moved, from and to places outside OSSemPend and OSTaskCreate.
  lemma PcFrame(m: Machine, m': Machine)
    requires Inv(m) && Structure(m') && AtUserOrIsr(m)
    requires m.k.cur in m'.pc && m'.pc == m.pc[m.k.cur := m'.pc[m.k.cur]]
    requires m'.pc[m.k.cur] == m.pc[m.k.cur] || (AtUser(m) && m'.pc[m.k.cur].AtSched?)
    ensures forall p :: p in m.pc ==> m'.pc[p] == m.pc[p] || (Creating(m.pc[p]).None? && Creating(m'.pc[p]).None?)
    ensures Pending(m'.pc[m.k.cur]) == Pending(m.pc[m.k.cur])
  {}

  lemma SchedKeeps(m: Machine)
    requires Inv(m) && AtTask(m) && InKernel(m.pc[m.k.cur])
    ensures Inv(DoSched(m))
  {
    var m' := DoSched(m);
    SchedKeepsTasks(m);
    CreationsFrame(m, m');
    SemsFrame(m, m');
    assert TaskOk(m, m.k.cur);
    assert TaskOk(m, m'.k.cur);
  }

  lemma SchedKeepsTasks(m: Machine)
    requires Inv(m) && AtTask(m) && InKernel(m.pc[m.k.cur])
    ensures Structure(DoSched(m)) && Tasks(DoSched(m))
  {
    assert TaskOk(m, m.k.cur);
    TasksFrame(m, DoSched(m), {m.k.cur});
  }

  lemma IntEnterKeeps(m: Machine)
    requires Inv(m) && m.k.intNesting < NESTING_MAX
    ensures Inv(m.(k := IntEnter(m.k)))
  {
    var m' := m.(k := IntEnter(m.k));
    CreationsFrame(m, m');
    SemsFrame(m, m');
    TasksFrame(m, m', {});
  }

  lemma IntExitKeeps(m: Machine)
    requires Inv(m) && m.k.intNesting > 0
    ensures Inv(DoIntExit(m))
  {
    var m' := DoIntExit(m);
    CreationsFrame(m, m');
    SemsFrame(m, m');
    TasksFrame(m, m', {});
    assert TaskOk(m, m'.k.cur);
  }

  lemma LockKeeps(m: Machine)
    requires Inv(m) && AtUser(m)
    ensures Inv(m.(k := SchedLock(m.k)))
  {
    var m' := m.(k := SchedLock(m.k));
    CreationsFrame(m, m');
    SemsFrame(m, m');
    TasksFrame(m, m', {});
  }

  lemma UnlockKeepsTasks(m: Machine)
    requires Inv(m) && AtUser(m)
    ensures Structure(DoUnlock(m)) && Tasks(DoUnlock(m)) && Sems(DoUnlock(m))
  {
    assert TaskOk(m, m.k.cur);
    TasksFrame(m, DoUnlock(m), {m.k.cur});
    SemsFrame(m, DoUnlock(m));
  }

  lemma UnlockKeeps(m: Machine)
    requires Inv(m) && AtUser(m)
    ensures Inv(DoUnlock(m))
  {
    var m' := DoUnlock(m);
    UnlockKeepsTasks(m);
    PcFrame(m, m');
    CreationsFrame(m, m');
  }

  lemma TickKeepsTasks(m: Machine)
    requires Inv(m) && m.k.intNesting > 0
    ensures Structure(m.(k := TimeTick(m.k))) && Tasks(m.(k := TimeTick(m.k)))
  {
    IdleIsReady(m);
    var m' := m.(k := TimeTick(m.k));
    forall p | p in m'.k.tasks ensures TaskOk(m', p) {
      assert TaskOk(m, p);
    }
  }

  lemma TickKeeps(m: Machine)
    requires Inv(m) && m.k.intNesting > 0
    ensures Inv(m.(k := TimeTick(m.k)))
  {
    var m' := m.(k := TimeTick(m.k));
    TickKeepsTasks(m);
    CreationsFrame(m, m');
    SemsFrame(m, m');
  }

  lemma PostKeepsSems(m: Machine, e: nat)
    requires Inv(m) && AtUserOrIsr(m) && IsSem(m.k, e)
    ensures Structure(DoPost(m, e)) && Sems(DoPost(m, e)) && IdleOk(DoPost(m, e))
  {
    IdleIsReady(m);
    var m' := DoPost(m, e);
    assert SemOk(m, e);
    forall i | 0 <= i < |m'.k.events| ensures SemOk(m', i) {
      assert SemOk(m, i);
    }
  }

  // The waiter a post picks.
  lemma PostKeepsWinner(m: Machine, e: nat)
    requires Inv(m) && AtUserOrIsr(m) && IsSem(m.k, e) && m.k.events[e].waiters != {}
    requires Structure(DoPost(m, e))
    ensures var p := Least(m.k.events[e].waiters); p in m.pc && Pending(m.pc[p]) && TaskOk(DoPost(m, e), p)
  {
    var p := Least(m.k.events[e].waiters);
    assert SemOk(m, e);
    assert TaskOk(m, p);
  }

  lemma PostKeepsCaller(m: Machine, e: nat)
    requires Inv(m) && AtUserOrIsr(m) && IsSem(m.k, e) && Structure(DoPost(m, e))
    ensures TaskOk(DoPost(m, e), m.k.cur)
  {
    assert TaskOk(m, m.k.cur);
    if m.k.events[e].waiters != {} {
      PostKeepsWinner(m, e);
    }
  }

  lemma PostKeepsTasks(m: Machine, e: nat)
    requires Inv(m) && AtUserOrIsr(m) && IsSem(m.k, e) && Structure(DoPost(m, e))
    ensures Tasks(DoPost(m, e))
  {
    hide Creations, CreationOk, CurOk, IdleOk;
    PostKeepsCaller(m, e);
    if m.k.events[e].waiters == {} {
      TasksFrame(m, DoPost(m, e), {});
    } else {
      PostKeepsWinner(m, e);
      TasksFrame(m, DoPost(m, e), {m.k.cur, Least(m.k.events[e].waiters)});
    }
  }

  lemma PostKeeps(m: Machine, e: nat)
    requires Inv(m) && AtUserOrIsr(m) && IsSem(m.k, e)
    ensures Inv(DoPost(m, e))
  {
    var m' := DoPost(m, e);
    PostKeepsSems(m, e);
    PostKeepsTasks(m, e);
    PcFrame(m, m');
    CreationsFrame(m, m');
    assert TaskOk(m, m.k.cur);
  }

  lemma AcceptKeeps(m: Machine, e: nat)
    requires Inv(m) && IsSem(m.k, e)
    ensures Inv(DoAccept(m, e))
  {
    var m' := DoAccept(m, e);
    CreationsFrame(m, m');
    TasksFrame(m, m', {});
    forall i | 0 <= i < |m'.k.events| ensures SemOk(m', i) {
      assert SemOk(m, i);
    }
  }

  lemma SuspendKeepsStructure(m: Machine, prio: nat)
    requires Inv(m) && AtUserOrIsr(m) && !(prio == PRIO_SELF && m.k.cur == m.k.lowest)
    ensures Structure(DoSuspend(m, prio)) && IdleOk(DoSuspend(m, prio))
  {
    IdleIsReady(m);
    assert m.k.lowest in DoSuspend(m, prio).k.ready;
  }

  lemma SuspendKeepsTasks(m: Machine, prio: nat)
    requires Inv(m) && AtUserOrIsr(m) && Structure(DoSuspend(m, prio))
    ensures Tasks(DoSuspend(m, prio))
  {
    hide Sems, SemOk, Creations, CreationOk, CurOk, IdleOk;
    var p := if prio == PRIO_SELF then m.k.cur else prio;
    if p in m.k.tasks {
      assert TaskOk(m, p);
      TasksFrame(m, DoSuspend(m, prio), {p});
    }
  }

  lemma SuspendKeepsCur(m: Machine, prio: nat)
    requires Inv(m) && AtUserOrIsr(m) && Structure(DoSuspend(m, prio))
    ensures CurOk(DoSuspend(m, prio)) && Sems(DoSuspend(m, prio))
  {
    SemsFrame(m, DoSuspend(m, prio));
  }

  lemma SuspendKeeps(m: Machine, prio: nat)
    requires Inv(m) && AtUserOrIsr(m) && !(prio == PRIO_SELF && m.k.cur == m.k.lowest)
    ensures Inv(DoSuspend(m, prio))
  {
    SuspendKeepsStructure(m, prio);
    SuspendKeepsTasks(m, prio);
    SuspendKeepsCur(m, prio);
    PcFrame(m, DoSuspend(m, prio));
    CreationsFrame(m, DoSuspend(m, prio));
  }

  lemma ResumeKeepsStructure(m: Machine, prio: nat)
    requires Inv(m) && AtUserOrIsr(m)
    ensures Structure(DoResume(m, prio)) && IdleOk(DoResume(m, prio)) && Sems(DoResume(m, prio))
  {
    hide Tasks, TaskOk, Creations, CreationOk, CurOk;
    IdleIsReady(m);
    SemsFrame(m, DoResume(m, prio));
  }

  // The resumed task, and the caller when it goes on to OS_Sched.
  lemma ResumeKeepsTask(m: Machine, prio: nat, p: nat)
    requires Inv(m) && AtUserOrIsr(m) && Structure(DoResume(m, prio))
    requires p in m.k.tasks && (p == prio || p == m.k.cur)
    ensures TaskOk(DoResume(m, prio), p)
  {
    assert TaskOk(m, p);
  }

  lemma ResumeKeepsTasks(m: Machine, prio: nat)
    requires Inv(m) && AtUserOrIsr(m) && Structure(DoResume(m, prio))
    ensures Tasks(DoResume(m, prio))
  {
    hide Sems, SemOk, Creations, CreationOk, CurOk, IdleOk;
    ResumeKeepsTask(m, prio, m.k.cur);
    if prio in m.k.tasks {
      ResumeKeepsTask(m, prio, prio);
    }
    TasksFrame(m, DoResume(m, prio), {prio, m.k.cur});
  }

  lemma ResumeKeeps(m: Machine, prio: nat)
    requires Inv(m) && AtUserOrIsr(m)
    ensures Inv(DoResume(m, prio))
  {
    ResumeKeepsStructure(m, prio);
    ResumeKeepsTasks(m, prio);
    PcFrame(m, DoResume(m, prio));
    CreationsFrame(m, DoResume(m, prio));
  }

  lemma DlyKeepsTasks(m: Machine, ticks: nat)
    requires Inv(m) && AtUser(m) && m.k.cur != m.k.lowest && ticks < TIME_MODULUS
    ensures Structure(DoDly(m, ticks)) && Tasks(DoDly(m, ticks))
  {
    IdleIsReady(m);
    assert m.k.lowest in DoDly(m, ticks).k.ready;
    assert TaskOk(m, m.k.cur);
    TasksFrame(m, DoDly(m, ticks), {m.k.cur});
  }

  lemma DlyKeeps(m: Machine, ticks: nat)
    requires Inv(m) && AtUser(m) && m.k.cur != m.k.lowest && ticks < TIME_MODULUS
    ensures Inv(DoDly(m, ticks))
  {
    var m' := DoDly(m, ticks);
    DlyKeepsTasks(m, ticks);
    PcFrame(m, m');
    CreationsFrame(m, m');
    SemsFrame(m, m');
  }

  lemma PendKeepsSems(m: Machine, e: nat, timeout: nat)
    requires Inv(m) && Enabled(m, StepPend(e, timeout))
    ensures Structure(DoPend(m, e, timeout)) && IdleOk(DoPend(m, e, timeout)) && Sems(DoPend(m, e, timeout))
  {
    var m' := DoPend(m, e, timeout);
    IdleIsReady(m);
    assert m.k.lowest in m'.k.ready;
    assert TaskOk(m, m.k.cur);
    forall i | 0 <= i < |m'.k.events| ensures SemOk(m', i) {
      assert SemOk(m, i);
    }
  }

  lemma PendKeepsTasks(m: Machine, e: nat, timeout: nat)
    requires Inv(m) && Enabled(m, StepPend(e, timeout)) && Structure(DoPend(m, e, timeout))
    ensures Tasks(DoPend(m, e, timeout))
  {
    assert TaskOk(m, m.k.cur);
    TasksFrame(m, DoPend(m, e, timeout), {m.k.cur});
  }

  lemma PendKeeps(m: Machine, e: nat, timeout: nat)
    requires Inv(m) && Enabled(m, StepPend(e, timeout))
    ensures Inv(DoPend(m, e, timeout))
  {
    var m' := DoPend(m, e, timeout);
    PendKeepsSems(m, e, timeout);
    PendKeepsTasks(m, e, timeout);
    CreationsFrame(m, m');
  }

  lemma PendResumeKeepsSems(m: Machine)
    requires Inv(m) && Enabled(m, StepPendResume)
    ensures Structure(DoPendResume(m)) && Sems(DoPendResume(m))
  {
    var m' := DoPendResume(m);
    assert TaskOk(m, m.k.cur);
    forall i | 0 <= i < |m'.k.events| ensures SemOk(m', i) {
      assert SemOk(m, i);
    }
  }

  lemma PendResumeKeepsTasks(m: Machine)
    requires Inv(m) && Enabled(m, StepPendResume) && Structure(DoPendResume(m))
    ensures Tasks(DoPendResume(m))
  {
    assert TaskOk(m, m.k.cur);
    TasksFrame(m, DoPendResume(m), {m.k.cur});
  }

  lemma PendResumeKeeps(m: Machine)
    requires Inv(m) && Enabled(m, StepPendResume)
    ensures Inv(DoPendResume(m))
  {
    assert TaskOk(m, m.k.cur);
    PendResumeKeepsSems(m);
    PendResumeKeepsTasks(m);
    CreationsFrame(m, DoPendResume(m));
  }

  lemma SemCreateKeeps(m: Machine, cnt: nat)
    requires Inv(m) && cnt <= SEM_MAX
    ensures Inv(DoSemCreate(m, cnt))
  {
    var m' := DoSemCreate(m, cnt);
    CreationsFrame(m, m');
    TasksFrame(m, m', {});
    forall i | 0 <= i < |m'.k.events| ensures SemOk(m', i) {
      assert SemOk(m, i);
    }
  }

  // ---------------------------------------------------------------- the sections of OSTaskCreate

  lemma ReserveKeepsTasks(m: Machine, prio: nat)
    requires Inv(m) && AtUser(m)
    ensures Structure(DoReserve(m, prio)) && Tasks(DoReserve(m, prio)) && Sems(DoReserve(m, prio))
  {
    assert TaskOk(m, m.k.cur);
    TasksFrame(m, DoReserve(m, prio), {m.k.cur});
    SemsFrame(m, DoReserve(m, prio));
  }

  lemma ReserveKeeps(m: Machine, prio: nat)
    requires Inv(m) && AtUser(m)
    ensures Inv(DoReserve(m, prio))
  {
    var m' := DoReserve(m, prio);
    ReserveKeepsTasks(m, prio);
    forall p | p in m'.pc ensures CreationOk(m', p) {
      assert CreationOk(m, p);
      forall q | q in m'.pc && q != p && Creating(m'.pc[p]).Some? ensures Creating(m'.pc[q]) != Creating(m'.pc[p]) {
        assert CreationOk(m, q);
      }
    }
  }

  lemma AllocKeepsTasks(m: Machine)
    requires Inv(m) && AtTask(m) && m.pc[m.k.cur].CreateReserved?
    ensures var m' := DoAlloc(m, m.pc[m.k.cur].np); Structure(m') && Tasks(m')
  {
    hide Sems, SemOk, Creations, CreationOk, CurOk, IdleOk;
    var m' := DoAlloc(m, m.pc[m.k.cur].np);
    assert TaskOk(m, m.k.cur);
    TasksFrame(m, m', {m.k.cur});
  }

  lemma AllocKeeps(m: Machine)
    requires Inv(m) && AtTask(m) && m.pc[m.k.cur].CreateReserved?
    ensures Inv(DoAlloc(m, m.pc[m.k.cur].np))
  {
    hide SemOk, CreationOk, TaskOk, Tasks;
    var m' := DoAlloc(m, m.pc[m.k.cur].np);
    AllocKeepsTasks(m);
    SemsFrame(m, m');
    CreationsMove(m, m');
  }

  // The current task goes on with the same creation; its priority stays claimed.
  lemma CreationsMove(m: Machine, m': Machine)
    requires Inv(m) && Structure(m') && AtTask(m)
    requires m'.k.tasks.Keys == m.k.tasks.Keys && m'.k.reserved == m.k.reserved && m'.k.linked == m.k.linked
    requires m'.pc == m.pc[m.k.cur := m'.pc[m.k.cur]]
    requires m.pc[m.k.cur].CreateReserved? && (m'.pc[m.k.cur].CreateAllocated? || m'.pc[m.k.cur].CreateFailed?)
    requires m'.pc[m.k.cur].np == m.pc[m.k.cur].np
    ensures Creations(m')
  {
    forall p | p in m'.pc ensures CreationOk(m', p) {
      assert CreationOk(m, p);
      assert CreationOk(m, m.k.cur);
    }
  }

  lemma InstallKeepsTasks(m: Machine)
    requires Inv(m) && AtTask(m) && m.pc[m.k.cur].CreateAllocated?
    ensures var m' := DoInstall(m, m.pc[m.k.cur].np); Structure(m') && Tasks(m') && Sems(m')
  {
    var np := m.pc[m.k.cur].np;
    var m' := DoInstall(m, np);
    assert CreationOk(m, m.k.cur);
    assert TaskOk(m, m.k.cur);
    TasksFrame(m, m', {m.k.cur, np});
    SemsFrame(m, m');
  }

  lemma InstallKeeps(m: Machine)
    requires Inv(m) && AtTask(m) && m.pc[m.k.cur].CreateAllocated?
    ensures Inv(DoInstall(m, m.pc[m.k.cur].np))
  {
    var m' := DoInstall(m, m.pc[m.k.cur].np);
    InstallKeepsTasks(m);
    assert CreationOk(m, m.k.cur);
    forall p | p in m'.pc ensures CreationOk(m', p) {
      if p in m.pc {
        assert CreationOk(m, p);
      }
    }
  }

  lemma RollbackKeeps(m: Machine)
    requires Inv(m) && AtTask(m) && m.pc[m.k.cur].CreateFailed?
    ensures Inv(DoRollback(m, m.pc[m.k.cur].np))
  {
    var m' := DoRollback(m, m.pc[m.k.cur].np);
    assert TaskOk(m, m.k.cur);
    TasksFrame(m, m', {m.k.cur});
    SemsFrame(m, m');
    assert CreationOk(m, m.k.cur);
    forall p | p in m'.pc ensures CreationOk(m', p) {
      assert CreationOk(m, p);
    }
  }

  lemma LinkKeepsStructure(m: Machine)
    requires Inv(m) && Enabled(m, StepLink)
    ensures var m' := DoLink(m, m.pc[m.k.cur].np); Structure(m') && Sems(m') && IdleOk(m')
  {
    assert CreationOk(m, m.k.cur);
    SemsFrame(m, DoLink(m, m.pc[m.k.cur].np));
  }

  lemma LinkKeepsTasks(m: Machine)
    requires Inv(m) && Enabled(m, StepLink) && LinkSafe(m, StepLink)
    requires Structure(DoLink(m, m.pc[m.k.cur].np))
    ensures Tasks(DoLink(m, m.pc[m.k.cur].np))
  {
    var np := m.pc[m.k.cur].np;
    assert CreationOk(m, m.k.cur);
    assert TaskOk(m, m.k.cur);
    assert TaskOk(m, np);
    TasksFrame(m, DoLink(m, np), {m.k.cur, np});
  }

  lemma LinkKeeps(m: Machine)
    requires Inv(m) && Enabled(m, StepLink) && LinkSafe(m, StepLink)
    ensures Inv(DoLink(m, m.pc[m.k.cur].np))
  {
    hide Tasks, TaskOk, Sems, SemOk, IdleOk;
    var m' := DoLink(m, m.pc[m.k.cur].np);
    LinkKeepsStructure(m);
    LinkKeepsTasks(m);
    assert CreationOk(m, m.k.cur);
    forall p | p in m'.pc ensures CreationOk(m', p) {
      assert CreationOk(m, p);
    }
  }

  // ---------------------------------------------------------------- every step

  lemma StepKeepsInv(m: Machine, s: Step)
    requires Inv(m) && Enabled(m, s) && LinkSafe(m, s)
    ensures Inv(Apply(m, s))
  {
    match s
    case StepIntEnter => IntEnterKeeps(m);
    case StepIntExit => IntExitKeeps(m);
    case StepTick => TickKeeps(m);
    case StepPost(e) => PostKeeps(m, e);
    case StepAccept(e) => AcceptKeeps(m, e);
    case StepSuspend(prio) => SuspendKeeps(m, prio);
    case StepResume(prio) => ResumeKeeps(m, prio);
    case StepSched => SchedKeeps(m);
    case StepLock => LockKeeps(m);
    case StepUnlock => UnlockKeeps(m);
    case StepDly(ticks) => DlyKeeps(m, ticks);
    case StepPend(e, timeout) => PendKeeps(m, e, timeout);
    case StepPendResume => PendResumeKeeps(m);
    case StepSemCreate(cnt) => SemCreateKeeps(m, cnt);
    case StepReserve(prio) => ReserveKeeps(m, prio);
    case StepAlloc => AllocKeeps(m);
    case StepInstall => InstallKeeps(m);
    case StepLink => LinkKeeps(m);
    case StepRollback => RollbackKeeps(m);
  }
}
