/** Task control blocks over whole runs: none is lost, none appears. */
module KernelBlocks {
  import opened Prelude
  import opened KernelSpec
  import opened KernelMachine
  import opened KernelTokens
  import opened KernelRuns
  import opened KernelTheorems

  predicate HoldsBlock(c: Pc) {
    c.CreateAllocated? || c.CreateInstalled?
  }

  /** The tasks inside OSTaskCreate that have taken a control block and not yet linked it. */
  ghost function Holders(pc: map<nat, Pc>): (s: set<nat>)
    ensures forall p :: p in s <==> p in pc && HoldsBlock(pc[p])
  {
    set p | p in pc && HoldsBlock(pc[p])
  }

  ghost function Blocks(m: Machine): nat {
    |m.k.linked| + m.k.freeTcbs + |Holders(m.pc)|
  }

  /** A task that moves from and to places without a block of its own. */
  lemma QuietMove(pc: map<nat, Pc>, p: nat, c: Pc)
    requires !HoldsBlock(c) && (p in pc ==> !HoldsBlock(pc[p]))
    ensures Holders(pc[p := c]) == Holders(pc)
  {}

  lemma TakeMove(pc: map<nat, Pc>, p: nat, c: Pc)
    requires HoldsBlock(c) && (p in pc ==> !HoldsBlock(pc[p]))
    ensures Holders(pc[p := c]) == Holders(pc) + {p} && |Holders(pc[p := c])| == |Holders(pc)| + 1
  {
    assert Holders(pc[p := c]) == Holders(pc) + {p};
  }

  lemma KeepMove(pc: map<nat, Pc>, p: nat, c: Pc)
    requires HoldsBlock(c) && p in pc && HoldsBlock(pc[p])
    ensures Holders(pc[p := c]) == Holders(pc)
  {}

  lemma GiveMove(pc: map<nat, Pc>, p: nat, c: Pc)
    requires !HoldsBlock(c) && p in pc && HoldsBlock(pc[p])
    ensures |Holders(pc[p := c])| == |Holders(pc)| - 1
  {
    assert Holders(pc) == Holders(pc[p := c]) + {p};
  }

  lemma AllocConserves(m: Machine)
    requires Good(m) && Enabled(m, StepAlloc)
    ensures Blocks(Apply(m, StepAlloc)) == Blocks(m)
  {
    hide Holders, Tasks, Creations, Sems, Wins, IdleOk, CurOk;
    var np := m.pc[m.k.cur].np;
    if m.k.freeTcbs > 0 {
      TakeMove(m.pc, m.k.cur, CreateAllocated(np));
    } else {
      QuietMove(m.pc, m.k.cur, CreateFailed(np));
    }
  }

  lemma InstallConserves(m: Machine)
    requires Good(m) && Enabled(m, StepInstall)
    ensures Blocks(Apply(m, StepInstall)) == Blocks(m)
  {
    hide Holders, Tasks, Sems, Wins, IdleOk, CurOk;
    var np := m.pc[m.k.cur].np;
    assert CreationOk(m, m.k.cur);
    assert np !in m.pc;
    KeepMove(m.pc, m.k.cur, CreateInstalled(np));
    QuietMove(m.pc[m.k.cur := CreateInstalled(np)], np, User);
  }

  lemma LinkConserves(m: Machine)
    requires Good(m) && Enabled(m, StepLink)
    ensures Blocks(Apply(m, StepLink)) == Blocks(m)
  {
    hide Holders, Tasks, Creations, Sems, Wins, IdleOk, CurOk;
    GiveMove(m.pc, m.k.cur, AtSched);
  }

  /** Every other step moves at most the current task, between places that hold no block. */
  predicate QuietStep(m: Machine, m': Machine) {
    && m'.k.linked == m.k.linked && m'.k.freeTcbs == m.k.freeTcbs
    && (m'.pc == m.pc ||
        (m.k.cur in m.pc && m.k.cur in m'.pc && !HoldsBlock(m.pc[m.k.cur]) && !HoldsBlock(m'.pc[m.k.cur])
         && m'.pc == m.pc[m.k.cur := m'.pc[m.k.cur]]))
  }

  lemma OthersAreQuiet(m: Machine, s: Step)
    requires Structure(m) && Enabled(m, s) && !s.StepAlloc? && !s.StepInstall? && !s.StepLink?
    ensures QuietStep(m, Apply(m, s))
  {
    if s.StepIntEnter? || s.StepIntExit? || s.StepTick? || s.StepPost? || s.StepAccept? || s.StepSuspend? || s.StepResume? {
      SharedStepsAreQuiet(m, s);
    } else {
      TaskStepsAreQuiet(m, s);
    }
  }

  lemma SharedStepsAreQuiet(m: Machine, s: Step)
    requires Structure(m) && Enabled(m, s)
    requires s.StepIntEnter? || s.StepIntExit? || s.StepTick? || s.StepPost? || s.StepAccept? || s.StepSuspend? || s.StepResume?
    ensures QuietStep(m, Apply(m, s))
  {}

  lemma TaskStepsAreQuiet(m: Machine, s: Step)
    requires Structure(m) && Enabled(m, s) && !s.StepAlloc? && !s.StepInstall? && !s.StepLink?
    requires !s.StepIntEnter? && !s.StepIntExit? && !s.StepTick? && !s.StepPost? && !s.StepAccept? && !s.StepSuspend? && !s.StepResume?
    ensures QuietStep(m, Apply(m, s))
  {}

  lemma OtherStepConserves(m: Machine, s: Step)
    requires Good(m) && Enabled(m, s) && !s.StepAlloc? && !s.StepInstall? && !s.StepLink?
    ensures Blocks(Apply(m, s)) == Blocks(m)
  {
    OthersAreQuiet(m, s);
    hide Apply, Holders, HoldsBlock;
    var m' := Apply(m, s);
    if m'.pc != m.pc {
      QuietMove(m.pc, m.k.cur, m'.pc[m.k.cur]);
    }
  }

  lemma StepConserves(m: Machine, s: Step)
    requires Good(m) && Enabled(m, s)
    ensures Blocks(Apply(m, s)) == Blocks(m)
  {
    match s
    case StepAlloc => AllocConserves(m);
    case StepInstall => InstallConserves(m);
    case StepLink => LinkConserves(m);
    case _ => OtherStepConserves(m, s);
  }

  lemma {:induction false} RunConserves(m: Machine, steps: seq<Step>)
    requires Good(m) && ValidRun(m, steps)
    ensures Blocks(Run(m, steps)) == Blocks(m)
    decreases |steps|
  {
    if steps != [] {
      StepKeepsWins(m, steps[0]);
      StepConserves(m, steps[0]);
      RunConserves(Apply(m, steps[0]), steps[1..]);
    }
  }

  /**
   * In every run the control blocks that are linked, free, or held by a creation in progress are as
   * many as the table has; the task list has no repetition and ends with the idle task.
   */
  lemma BlocksConserved(c: Config, steps: seq<Step>)
    requires ValidConfig(c) && ValidRun(Booted(c), steps)
    ensures var m := Run(Booted(c), steps);
            && |m.k.linked| + m.k.freeTcbs + |Holders(m.pc)| == c.tcbs
            && NoDuplicates(m.k.linked) && m.k.linked != [] && m.k.linked[|m.k.linked| - 1] == c.lowest
  {
    hide *;
    BootedGood(c);
    BootedBlocks(c);
    ReachedGood(c, steps);
    RunConserves(Booted(c), steps);
    RunKeepsLowest(Booted(c), steps);
    GoodList(Run(Booted(c), steps));
    BlocksAre(Run(Booted(c), steps));
  }

  lemma GoodList(m: Machine)
    requires Good(m)
    ensures NoDuplicates(m.k.linked) && m.k.linked != [] && m.k.linked[|m.k.linked| - 1] == m.k.lowest
  {}

  lemma BlocksAre(m: Machine)
    ensures Blocks(m) == |m.k.linked| + m.k.freeTcbs + |Holders(m.pc)|
  {}

  lemma BootedBlocks(c: Config)
    requires ValidConfig(c)
    ensures Blocks(Booted(c)) == c.tcbs && Booted(c).k.lowest == c.lowest
  {
    InitIdle(c);
    BootKeepsLowest(Init(c), c.calls);
    hide Idle, BootAll, Init;
    assert Holders(Booted(c).pc) == {};
  }

  lemma {:induction false} BootKeepsLowest(k: State, calls: seq<BootCall>)
    requires Idle(k) && forall i :: 0 <= i < |calls| ==> (calls[i].BootSem? ==> calls[i].cnt <= SEM_MAX)
    ensures BootAll(k, calls).lowest == k.lowest
    decreases |calls|
  {
    if calls != [] {
      BootOneKeeps(k, calls[0]);
      BootKeepsLowest(BootOne(k, calls[0]), calls[1..]);
    }
  }

  lemma {:induction false} RunKeepsLowest(m: Machine, steps: seq<Step>)
    requires ValidRun(m, steps)
    ensures Run(m, steps).k.lowest == m.k.lowest
    decreases |steps|
  {
    if steps != [] {
      RunKeepsLowest(Apply(m, steps[0]), steps[1..]);
    }
  }
}
