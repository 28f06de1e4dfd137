/** Tokens handed to waiters are collected: the second half of a semaphore's account. */
module KernelTokens {
  import opened Prelude
  import opened KernelSpec
  import opened KernelMachine
  import opened KernelInvariant

  /** A step that hands out and collects nothing. */
  lemma WinsFrame(m: Machine, m': Machine)
    requires Inv(m) && Wins(m) && Structure(m')
    requires m'.won == m.won && m'.ledger == m.ledger
    requires forall p :: p in m.pc ==> p in m'.pc && (m'.pc[p] == m.pc[p] || (Pending(m.pc[p]) && Pending(m'.pc[p]) && m'.pc[p].e == m.pc[p].e)
                                                     || (!Pending(m.pc[p]) && !Pending(m'.pc[p])))
    ensures Wins(m')
  {
    forall e | 0 <= e < |m'.k.events| ensures WinOk(m', e) {
      assert WinOk(m, e);
      assert Winners(m', e) == Winners(m, e);
    }
  }

  lemma PostWinners(m: Machine, e: nat, i: nat)
    requires Inv(m) && AtUserOrIsr(m) && IsSem(m.k, e) && m.k.events[e].waiters != {}
    ensures var p := Least(m.k.events[e].waiters);
            p !in m.won && Winners(DoPost(m, e), i) == if i == e then Winners(m, i) + {p} else Winners(m, i)
  {
    var p := Least(m.k.events[e].waiters);
    assert SemOk(m, e);
    assert TaskOk(m, p);
  }

  lemma PostWins(m: Machine, e: nat)
    requires Inv(m) && Wins(m) && AtUserOrIsr(m) && IsSem(m.k, e) && Structure(DoPost(m, e))
    ensures Wins(DoPost(m, e))
  {
    var m' := DoPost(m, e);
    forall i | 0 <= i < |m'.k.events| ensures WinOk(m', i) {
      assert WinOk(m, i);
      if m.k.events[e].waiters != {} {
        PostWinners(m, e, i);
      } else {
        assert Winners(m', i) == Winners(m, i);
      }
    }
  }

  lemma AcceptWins(m: Machine, e: nat)
    requires Inv(m) && Wins(m) && IsSem(m.k, e) && Structure(DoAccept(m, e))
    ensures Wins(DoAccept(m, e))
  {
    var m' := DoAccept(m, e);
    forall i | 0 <= i < |m'.k.events| ensures WinOk(m', i) {
      assert WinOk(m, i);
      assert Winners(m', i) == Winners(m, i);
    }
  }

  lemma PendWins(m: Machine, e: nat, timeout: nat)
    requires Inv(m) && Wins(m) && Enabled(m, StepPend(e, timeout)) && Structure(DoPend(m, e, timeout))
    ensures Wins(DoPend(m, e, timeout))
  {
    var m' := DoPend(m, e, timeout);
    assert TaskOk(m, m.k.cur);
    forall i | 0 <= i < |m'.k.events| ensures WinOk(m', i) {
      assert WinOk(m, i);
      assert Winners(m', i) == Winners(m, i);
    }
  }

  lemma PendResumeWins(m: Machine)
    requires Inv(m) && Wins(m) && Enabled(m, StepPendResume) && Structure(DoPendResume(m))
    ensures Wins(DoPendResume(m))
  {
    var m' := DoPendResume(m);
    var e := m.pc[m.k.cur].e;
    assert TaskOk(m, m.k.cur);
    forall i | 0 <= i < |m'.k.events| ensures WinOk(m', i) {
      assert WinOk(m, i);
      assert Winners(m', i) == Winners(m, i) - {m.k.cur};
    }
  }

  lemma SemCreateWins(m: Machine, cnt: nat)
    requires Inv(m) && Wins(m) && Structure(DoSemCreate(m, cnt))
    ensures Wins(DoSemCreate(m, cnt))
  {
    var m' := DoSemCreate(m, cnt);
    forall i | 0 <= i < |m'.k.events| ensures WinOk(m', i) {
      assert WinOk(m, i);
      assert Winners(m', i) == Winners(m, i);
      forall p | p in Winners(m, i) ensures IsSem(m.k, i) {
        assert TaskOk(m, p);
      }
      if m.k.events[i].Unused? {
        assert Winners(m, i) == {};
      }
    }
  }

  lemma QuietWins(m: Machine, k: State)
    requires Inv(m) && Wins(m) && Structure(m.(k := k))
    ensures Wins(m.(k := k))
  {
    WinsFrame(m, m.(k := k));
  }

  lemma SchedWins(m: Machine)
    requires Inv(m) && Wins(m) && AtTask(m) && InKernel(m.pc[m.k.cur]) && Structure(DoSched(m))
    ensures Wins(DoSched(m))
  {
    WinsFrame(m, DoSched(m));
  }

  lemma SuspendWins(m: Machine, prio: nat)
    requires Inv(m) && Wins(m) && AtUserOrIsr(m) && Structure(DoSuspend(m, prio))
    ensures Wins(DoSuspend(m, prio))
  {
    WinsFrame(m, DoSuspend(m, prio));
  }

  lemma ResumeWins(m: Machine, prio: nat)
    requires Inv(m) && Wins(m) && AtUserOrIsr(m) && Structure(DoResume(m, prio))
    ensures Wins(DoResume(m, prio))
  {
    WinsFrame(m, DoResume(m, prio));
  }

  lemma UnlockWins(m: Machine)
    requires Inv(m) && Wins(m) && AtUser(m) && Structure(DoUnlock(m))
    ensures Wins(DoUnlock(m))
  {
    WinsFrame(m, DoUnlock(m));
  }

  lemma DlyWins(m: Machine, ticks: nat)
    requires Inv(m) && Wins(m) && AtUser(m) && Structure(DoDly(m, ticks))
    ensures Wins(DoDly(m, ticks))
  {
    WinsFrame(m, DoDly(m, ticks));
  }

  lemma ReserveWins(m: Machine, prio: nat)
    requires Inv(m) && Wins(m) && AtUser(m) && Structure(DoReserve(m, prio))
    ensures Wins(DoReserve(m, prio))
  {
    WinsFrame(m, DoReserve(m, prio));
  }

  lemma AllocWins(m: Machine)
    requires Inv(m) && Wins(m) && Enabled(m, StepAlloc) && Structure(DoAlloc(m, m.pc[m.k.cur].np))
    ensures Wins(DoAlloc(m, m.pc[m.k.cur].np))
  {
    WinsFrame(m, DoAlloc(m, m.pc[m.k.cur].np));
  }

  lemma InstallWins(m: Machine)
    requires Inv(m) && Wins(m) && Enabled(m, StepInstall) && Structure(DoInstall(m, m.pc[m.k.cur].np))
    ensures Wins(DoInstall(m, m.pc[m.k.cur].np))
  {
    assert CreationOk(m, m.k.cur);
    WinsFrame(m, DoInstall(m, m.pc[m.k.cur].np));
  }

  lemma LinkWins(m: Machine)
    requires Inv(m) && Wins(m) && Enabled(m, StepLink) && Structure(DoLink(m, m.pc[m.k.cur].np))
    ensures Wins(DoLink(m, m.pc[m.k.cur].np))
  {
    WinsFrame(m, DoLink(m, m.pc[m.k.cur].np));
  }

  lemma RollbackWins(m: Machine)
    requires Inv(m) && Wins(m) && Enabled(m, StepRollback) && Structure(DoRollback(m, m.pc[m.k.cur].np))
    ensures Wins(DoRollback(m, m.pc[m.k.cur].np))
  {
    WinsFrame(m, DoRollback(m, m.pc[m.k.cur].np));
  }

  lemma StepKeepsWins(m: Machine, s: Step)
    requires Inv(m) && Wins(m) && Enabled(m, s) && LinkSafe(m, s)
    ensures Inv(Apply(m, s)) && Wins(Apply(m, s))
  {
    StepKeepsInv(m, s);
    match s
    case StepIntEnter => QuietWins(m, IntEnter(m.k));
    case StepIntExit => QuietWins(m, IntExit(m.k));
    case StepTick => QuietWins(m, TimeTick(m.k));
    case StepPost(e) => PostWins(m, e);
    case StepAccept(e) => AcceptWins(m, e);
    case StepSuspend(prio) => SuspendWins(m, prio);
    case StepResume(prio) => ResumeWins(m, prio);
    case StepSched => SchedWins(m);
    case StepLock => QuietWins(m, SchedLock(m.k));
    case StepUnlock => UnlockWins(m);
    case StepDly(ticks) => DlyWins(m, ticks);
    case StepPend(e, timeout) => PendWins(m, e, timeout);
    case StepPendResume => PendResumeWins(m);
    case StepSemCreate(cnt) => SemCreateWins(m, cnt);
    case StepReserve(prio) => ReserveWins(m, prio);
    case StepAlloc => AllocWins(m);
    case StepInstall => InstallWins(m);
    case StepLink => LinkWins(m);
    case StepRollback => RollbackWins(m);
  }
}
