/**
 * The window inside OSTaskCreate between installing a control block in the priority table and linking
 * it. In it every service finds the task by its priority, though the task is neither on the task list
 * nor ready. One call is harmful there: OSTaskSuspend naming that task.
 */
module KernelWindow {
  import opened KernelSpec
  import opened KernelMachine
  import opened KernelTokens
  import opened KernelRuns

  /** A creation of `np` is in the window. */
  ghost predicate HalfMade(m: Machine, np: nat) {
    exists p :: p in m.pc && m.pc[p] == CreateInstalled(np)
  }

  /** Nothing has happened to the task since it was installed. */
  ghost predicate Fresh(m: Machine, np: nat) {
    np in m.k.tasks && m.k.tasks[np] == FRESH_TASK && np !in m.k.ready && np != m.k.cur
  }

  ghost predicate HalfMadeFresh(m: Machine) {
    forall p {:trigger m.pc[p]} :: p in m.pc && m.pc[p].CreateInstalled? ==> Fresh(m, m.pc[p].np)
  }

  ghost predicate UnlinkedHalfMade(m: Machine) {
    forall q :: q in m.k.tasks && q !in m.k.linked ==> HalfMade(m, q)
  }

  /** Every half-made task is fresh, and only half-made tasks are off the task list. */
  ghost predicate WindowOk(m: Machine) {
    HalfMadeFresh(m) && UnlinkedHalfMade(m)
  }

  /** The call the kernel does not survive: OSTaskSuspend of a task whose OSTaskCreate is in the window. */
  ghost predicate SuspendsHalfMade(m: Machine, s: Step) {
    s.StepSuspend? && HalfMade(m, s.prio)
  }

  // ---------------------------------------------------------------- one lemma a group of steps

  /** No creation enters or leaves the window. */
  ghost predicate SameWindows(m: Machine, m': Machine) {
    && m'.k.tasks.Keys == m.k.tasks.Keys && m'.k.linked == m.k.linked && m'.pc.Keys == m.pc.Keys
    && forall p {:trigger m'.pc[p]} {:trigger m.pc[p]} :: p in m.pc ==>
         m'.pc[p] == m.pc[p] || (!m'.pc[p].CreateInstalled? && !m.pc[p].CreateInstalled?)
  }

  lemma WindowFrame(m: Machine, m': Machine)
    requires WindowOk(m) && SameWindows(m, m')
    requires forall np :: HalfMade(m, np) ==> Fresh(m', np)
    ensures WindowOk(m')
  {
    forall p | p in m'.pc && m'.pc[p].CreateInstalled? ensures Fresh(m', m'.pc[p].np) {
      assert m.pc[p] == m'.pc[p];
      assert HalfMade(m, m.pc[p].np);
    }
    forall q | q in m'.k.tasks && q !in m'.k.linked ensures HalfMade(m', q) {
      assert HalfMade(m, q);
      var p :| p in m.pc && m.pc[p] == CreateInstalled(q);
      assert m'.pc[p] == m.pc[p];
    }
  }

  lemma HalfMadeIsFresh(m: Machine, np: nat)
    requires WindowOk(m) && HalfMade(m, np)
    ensures Fresh(m, np)
  {
    var p :| p in m.pc && m.pc[p] == CreateInstalled(np);
    assert m.pc[p].CreateInstalled?;
  }

  // What makes a half-made task different from any other.
  lemma HalfMadeIsOff(m: Machine, np: nat)
    requires Good(m) && HalfMade(m, np)
    ensures np in m.k.tasks && np !in m.k.linked && np <= 63 && np != m.k.lowest && np !in m.k.reserved
  {
    var p :| p in m.pc && m.pc[p] == CreateInstalled(np);
    assert CreationOk(m, p);
  }

  lemma PostKeepsFresh(m: Machine, e: nat, np: nat)
    requires Good(m) && Enabled(m, StepPost(e)) && Fresh(m, np)
    ensures Fresh(Apply(m, StepPost(e)), np)
  {
    hide Tasks, TaskOk, Creations, CreationOk, Wins, WinOk, IdleOk, CurOk;
    assert SemOk(m, e);
  }

  lemma TickKeepsFresh(m: Machine, np: nat)
    requires Good(m) && Enabled(m, StepTick) && Fresh(m, np)
    ensures Fresh(Apply(m, StepTick), np)
  {
    hide Tasks, TaskOk, Creations, CreationOk, Wins, WinOk, Sems, SemOk, IdleOk, CurOk;
  }

  /** What any other step leaves fresh; only a suspend of the task itself does not. */
  lemma StatusKeepsFresh(m: Machine, s: Step, np: nat)
    requires Good(m) && Enabled(m, s) && Fresh(m, np) && np <= 63 && np !in m.k.linked
    requires (s.StepSuspend? && s.prio != np) || s.StepResume? || s.StepDly? || s.StepUnlock? || s.StepLock?
    ensures Fresh(Apply(m, s), np)
  {
    hide Tasks, TaskOk, Creations, CreationOk, Wins, WinOk, Sems, SemOk, IdleOk, CurOk;
  }

  lemma DispatchKeepsFresh(m: Machine, s: Step, np: nat)
    requires Good(m) && Enabled(m, s) && Fresh(m, np)
    requires s.StepIntEnter? || s.StepIntExit? || s.StepSched?
    ensures Fresh(Apply(m, s), np)
  {
    hide Tasks, TaskOk, Creations, CreationOk, Wins, WinOk, Sems, SemOk, IdleOk, CurOk;
  }

  lemma SemKeepsFresh(m: Machine, s: Step, np: nat)
    requires Good(m) && Enabled(m, s) && Fresh(m, np)
    requires s.StepAccept? || s.StepPend? || s.StepPendResume? || s.StepSemCreate?
    ensures Fresh(Apply(m, s), np)
  {
    hide Tasks, TaskOk, Creations, CreationOk, Wins, WinOk, Sems, SemOk, IdleOk, CurOk;
  }

  lemma ClaimKeepsFresh(m: Machine, s: Step, np: nat)
    requires Good(m) && Enabled(m, s) && Fresh(m, np) && (s.StepReserve? || s.StepAlloc? || s.StepRollback?)
    ensures Fresh(Apply(m, s), np)
  {
    hide Tasks, TaskOk, Creations, CreationOk, Wins, WinOk, Sems, SemOk, IdleOk, CurOk;
  }

  lemma StepKeepsFresh(m: Machine, s: Step, np: nat)
    requires Good(m) && Enabled(m, s) && Fresh(m, np) && HalfMade(m, np)
    requires !s.StepInstall? && !s.StepLink? && !(s.StepSuspend? && s.prio == np)
    ensures Fresh(Apply(m, s), np)
  {
    HalfMadeIsOff(m, np);
    hide Good, Fresh, HalfMade, Enabled, Apply;
    match s
    case StepPost(e) => PostKeepsFresh(m, e, np);
    case StepTick => TickKeepsFresh(m, np);
    case StepSuspend(_) => StatusKeepsFresh(m, s, np);
    case StepResume(_) => StatusKeepsFresh(m, s, np);
    case StepDly(_) => StatusKeepsFresh(m, s, np);
    case StepLock => StatusKeepsFresh(m, s, np);
    case StepUnlock => StatusKeepsFresh(m, s, np);
    case StepIntEnter => DispatchKeepsFresh(m, s, np);
    case StepIntExit => DispatchKeepsFresh(m, s, np);
    case StepSched => DispatchKeepsFresh(m, s, np);
    case StepReserve(_) => ClaimKeepsFresh(m, s, np);
    case StepAlloc => ClaimKeepsFresh(m, s, np);
    case StepRollback => ClaimKeepsFresh(m, s, np);
    case _ => SemKeepsFresh(m, s, np);
  }

  lemma SharedSameWindows(m: Machine, s: Step)
    requires Structure(m) && Enabled(m, s)
    requires s.StepIntEnter? || s.StepIntExit? || s.StepTick? || s.StepPost? || s.StepAccept? || s.StepSuspend? || s.StepResume?
    ensures SameWindows(m, Apply(m, s))
  {}

  lemma TaskSameWindows(m: Machine, s: Step)
    requires Structure(m) && Enabled(m, s)
    requires s.StepSched? || s.StepLock? || s.StepUnlock? || s.StepDly?
    ensures SameWindows(m, Apply(m, s))
  {}

  lemma SemSameWindows(m: Machine, s: Step)
    requires Structure(m) && Enabled(m, s) && (s.StepPend? || s.StepPendResume? || s.StepSemCreate?)
    ensures SameWindows(m, Apply(m, s))
  {}

  lemma ClaimSameWindows(m: Machine, s: Step)
    requires Structure(m) && Enabled(m, s) && (s.StepReserve? || s.StepAlloc? || s.StepRollback?)
    ensures SameWindows(m, Apply(m, s))
  {}

  lemma OtherStepKeepsWindow(m: Machine, s: Step)
    requires Good(m) && WindowOk(m) && Enabled(m, s) && !s.StepInstall? && !s.StepLink? && !SuspendsHalfMade(m, s)
    ensures WindowOk(Apply(m, s))
  {
    if s.StepIntEnter? || s.StepIntExit? || s.StepTick? || s.StepPost? || s.StepAccept? || s.StepSuspend? || s.StepResume? {
      SharedSameWindows(m, s);
    } else if s.StepReserve? || s.StepAlloc? || s.StepRollback? {
      ClaimSameWindows(m, s);
    } else if s.StepPend? || s.StepPendResume? || s.StepSemCreate? {
      SemSameWindows(m, s);
    } else {
      TaskSameWindows(m, s);
    }
    forall np | HalfMade(m, np) ensures Fresh(Apply(m, s), np) {
      HalfMadeIsFresh(m, np);
      StepKeepsFresh(m, s, np);
    }
    hide Good, Enabled, Apply, SameWindows, Fresh;
    WindowFrame(m, Apply(m, s));
  }

  lemma InstallKeepsWindow(m: Machine)
    requires Good(m) && WindowOk(m) && Enabled(m, StepInstall)
    ensures WindowOk(Apply(m, StepInstall))
  {
    hide Tasks, TaskOk, Wins, WinOk, Sems, SemOk, IdleOk, CurOk;
    var np, m' := m.pc[m.k.cur].np, Apply(m, StepInstall);
    assert CreationOk(m, m.k.cur);
    forall p | p in m'.pc && m'.pc[p].CreateInstalled? ensures Fresh(m', m'.pc[p].np) {
      if p != m.k.cur {
        assert Fresh(m, m.pc[p].np);
      }
    }
    forall q | q in m'.k.tasks && q !in m'.k.linked ensures HalfMade(m', q) {
      if q == np {
        assert m'.pc[m.k.cur] == CreateInstalled(np);
      } else {
        assert HalfMade(m, q);
        var p :| p in m.pc && m.pc[p] == CreateInstalled(q);
        assert m'.pc[p] == m.pc[p];
      }
    }
  }

  lemma LinkKeepsFresh(m: Machine)
    requires Good(m) && WindowOk(m) && Enabled(m, StepLink)
    ensures HalfMadeFresh(Apply(m, StepLink))
  {
    hide Tasks, TaskOk, Wins, WinOk, Sems, SemOk, IdleOk, CurOk, UnlinkedHalfMade;
    var m' := Apply(m, StepLink);
    assert CreationOk(m, m.k.cur);
    forall p | p in m'.pc && m'.pc[p].CreateInstalled? ensures Fresh(m', m'.pc[p].np) {
      assert m.pc[p] == m'.pc[p] && Fresh(m, m.pc[p].np);
    }
  }

  lemma LinkKeepsWindow(m: Machine)
    requires Good(m) && WindowOk(m) && Enabled(m, StepLink)
    ensures LinkSafe(m, StepLink) && WindowOk(Apply(m, StepLink))
  {
    hide Tasks, TaskOk, Wins, WinOk, Sems, SemOk, IdleOk, CurOk, Creations, CreationOk, HalfMade, UnlinkedHalfMade;
    assert Fresh(m, m.pc[m.k.cur].np);
    hide Fresh, HalfMadeFresh;
    LinkKeepsFresh(m);
    LinkKeepsUnlinked(m);
  }

  lemma LinkKeepsUnlinked(m: Machine)
    requires Structure(m) && UnlinkedHalfMade(m) && Enabled(m, StepLink)
    ensures UnlinkedHalfMade(Apply(m, StepLink))
  {
    var np, m' := m.pc[m.k.cur].np, Apply(m, StepLink);
    forall q | q in m'.k.tasks && q !in m'.k.linked ensures HalfMade(m', q) {
      assert HalfMade(m, q);
      var p :| p in m.pc && m.pc[p] == CreateInstalled(q);
      assert m'.pc[p] == m.pc[p];
    }
  }

  lemma SuspendBreaksWindow(m: Machine, s: Step)
    requires Good(m) && WindowOk(m) && Enabled(m, s) && SuspendsHalfMade(m, s)
    ensures !WindowOk(Apply(m, s)) && LinkSafe(m, s)
    ensures var m' := Apply(m, s); s.prio in m'.k.tasks && m'.k.tasks[s.prio].susp
  {
    HalfMadeIsOff(m, s.prio);
    SharedSameWindows(m, s);
    var p :| p in m.pc && m.pc[p] == CreateInstalled(s.prio);
    var m' := Apply(m, s);
    assert m'.pc[p] == m.pc[p];
    assert !Fresh(m', m'.pc[p].np);
  }

  /**
   * A step leaves every half-made task fresh exactly when it is not an OSTaskSuspend that names one;
   * and as long as they are fresh every link is safe.
   */
  lemma StepKeepsWindowIff(m: Machine, s: Step)
    requires Good(m) && WindowOk(m) && Enabled(m, s)
    ensures LinkSafe(m, s)
    ensures WindowOk(Apply(m, s)) <==> !SuspendsHalfMade(m, s)
  {
    hide Good, WindowOk, Enabled, Apply;
    if SuspendsHalfMade(m, s) {
      SuspendBreaksWindow(m, s);
    } else if s.StepInstall? {
      InstallKeepsWindow(m);
    } else if s.StepLink? {
      LinkKeepsWindow(m);
    } else {
      OtherStepKeepsWindow(m, s);
    }
  }

  // ---------------------------------------------------------------- runs

  /** No call in the run suspends a half-made task. */
  ghost predicate Careful(m: Machine, steps: seq<Step>)
    requires AnyRun(m, steps)
    decreases |steps|
  {
    steps != [] ==> !SuspendsHalfMade(m, steps[0]) && Careful(Apply(m, steps[0]), steps[1..])
  }

  ghost predicate WindowThroughout(m: Machine, steps: seq<Step>)
    requires AnyRun(m, steps)
    decreases |steps|
  {
    Inv(m) && WindowOk(m) && (steps != [] ==> WindowThroughout(Apply(m, steps[0]), steps[1..]))
  }

  /** Of all runs, exactly those without such a call keep the invariant, with fresh half-made tasks, in every state. */
  lemma {:induction false} WindowThroughoutIff(m: Machine, steps: seq<Step>)
    requires Good(m) && WindowOk(m) && AnyRun(m, steps)
    ensures WindowThroughout(m, steps) <==> Careful(m, steps)
    decreases |steps|
  {
    if steps != [] {
      hide WindowOk, Enabled, Apply, LinkSafe;
      StepKeepsWindowIff(m, steps[0]);
      StepKeepsWins(m, steps[0]);
      if WindowOk(Apply(m, steps[0])) {
        WindowThroughoutIff(Apply(m, steps[0]), steps[1..]);
      }
    }
  }

  /** A run without such a call only links safely, so what holds in valid runs holds in it. */
  lemma {:induction false} CarefulRunIsValid(m: Machine, steps: seq<Step>)
    requires Good(m) && WindowOk(m) && AnyRun(m, steps) && Careful(m, steps)
    ensures ValidRun(m, steps) && Good(Run(m, steps)) && WindowOk(Run(m, steps))
    decreases |steps|
  {
    if steps != [] {
      hide WindowOk, Enabled, Apply, LinkSafe;
      StepKeepsWindowIff(m, steps[0]);
      StepKeepsWins(m, steps[0]);
      CarefulRunIsValid(Apply(m, steps[0]), steps[1..]);
    }
  }

  lemma BootedWindow(c: Config)
    requires ValidConfig(c)
    ensures Good(Booted(c)) && WindowOk(Booted(c))
  {
    BootedGood(c);
    hide Good, BootAll, Init;
  }

  /** Nobody runs before it is linked. */
  lemma CurrentIsLinked(m: Machine)
    requires Good(m) && WindowOk(m)
    ensures m.k.cur in m.k.linked
  {
    if m.k.cur !in m.k.linked {
      assert HalfMade(m, m.k.cur);
      HalfMadeIsFresh(m, m.k.cur);
    }
  }

  /**
   * In every run in which no OSTaskSuspend names a half-made task: a task is ready exactly when it is on
   * the task list with no pend bit, no suspend bit and no delay; a task that is not on the list is as
   * its creation left it; and the current task is on the list.
   */
  lemma ReadyExactlyWhenLinkedAndEligible(c: Config, steps: seq<Step>, p: nat)
    requires ValidConfig(c) && AnyRun(Booted(c), steps) && Careful(Booted(c), steps)
    ensures ValidRun(Booted(c), steps)
    ensures var k := Run(Booted(c), steps).k;
            && k.cur in k.linked
            && (p in k.tasks ==>
                  && (p in k.ready <==> p in k.linked && !k.tasks[p].pend && !k.tasks[p].susp && k.tasks[p].dly == 0)
                  && (p !in k.linked ==> k.tasks[p] == FRESH_TASK))
  {
    BootedWindow(c);
    CarefulRunIsValid(Booted(c), steps);
    var m := Run(Booted(c), steps);
    CurrentIsLinked(m);
    if p in m.k.tasks {
      assert TaskOk(m, p);
      if p !in m.k.linked {
        assert HalfMade(m, p);
        HalfMadeIsFresh(m, p);
      }
    }
  }
}
