/** Delays and pend timeouts end at exactly the tick they ask for. */
module KernelTimers {
  import opened Prelude
  import opened KernelSpec
  import opened KernelMachine
  import opened KernelTokens
  import opened KernelRuns
  import opened KernelWindow
  import opened KernelTheorems

  function Ticks(steps: seq<Step>): nat {
    if steps == [] then 0 else (if steps[0].StepTick? then 1 else 0) + Ticks(steps[1..])
  }

  /** A tick takes one off a running delay exactly when the task is on the task list; else it leaves it alone. */
  lemma TickCountsDownIff(k: State, p: nat)
    requires WellFormed(k) && k.running && p in k.tasks && p != k.lowest && k.tasks[p].dly > 0
    ensures TimeTick(k).tasks[p].dly == k.tasks[p].dly - 1 <==> p in k.linked
    ensures p !in k.linked ==> TimeTick(k).tasks[p] == k.tasks[p] && (p in TimeTick(k).ready <==> p in k.ready)
  {}

  /** Until its timer runs out, a linked task that no post picks counts down tick by tick and is not ready. */
  lemma {:induction false} TimerCountsDown(m: Machine, steps: seq<Step>, p: nat, n: nat)
    requires Good(m) && Timed(m, p, n) && ValidRun(m, steps) && Ticks(steps) < n
    requires m.k.tasks[p].event == None || !SomePick(m, steps, p)
    ensures var m' := Run(m, steps);
            && Good(m') && Timed(m', p, n - Ticks(steps)) && p !in m'.k.ready
            && m'.k.tasks[p].pend == m.k.tasks[p].pend && m'.k.tasks[p].event == m.k.tasks[p].event
    decreases |steps|
  {
    assert TaskOk(m, p);
    if steps != [] {
      var s := steps[0];
      if m.k.tasks[p].event == None {
        NotPickedWithoutEvent(m, s, p);
      }
      StepKeepsWins(m, s);
      if s.StepTick? {
        TimedTick(m, p, n);
        TimerCountsDown(Apply(m, s), steps[1..], p, n - 1);
      } else {
        TimedStep(m, s, p, n);
        TimerCountsDown(Apply(m, s), steps[1..], p, n);
      }
    }
  }

  lemma NotPickedWithoutEvent(m: Machine, s: Step, p: nat)
    requires Good(m) && p in m.k.tasks && m.k.tasks[p].event == None
    ensures !Picks(m, s, p)
  {
    if s.StepPost? && IsSem(m.k, s.e) {
      assert SemOk(m, s.e);
    }
  }

  /**
   * OSTimeDly(n), where no OSTaskSuspend has named a half-made task: through any run with fewer than n ticks the task is not ready, and the n-th tick
   * makes it ready unless it is suspended then.
   */
  lemma DelayEndsAtNthTick(m: Machine, n: nat, steps: seq<Step>)
    requires Good(m) && Enabled(m, StepDly(n)) && n > 0 && m.k.lockNesting == 0 && WindowOk(m)
    requires ValidRun(Apply(m, StepDly(n)), steps) && Ticks(steps) < n
    ensures var p, m' := m.k.cur, Run(Apply(m, StepDly(n)), steps);
            && Good(m') && p in m'.k.tasks && p !in m'.k.ready && m'.k.tasks[p].dly == n - Ticks(steps)
            && (Ticks(steps) == n - 1 && m'.k.intNesting > 0 ==>
                  (p in TimeTick(m'.k).ready <==> !m'.k.tasks[p].susp))
  {
    var p, m1 := m.k.cur, Apply(m, StepDly(n));
    CurrentIsLinked(m);
    StepKeepsWins(m, StepDly(n));
    assert TaskOk(m, p);
    TimerCountsDown(m1, steps, p, n);
    var m' := Run(m1, steps);
    if Ticks(steps) == n - 1 && m'.k.intNesting > 0 {
      TimedTick(m', p, 1);
    }
  }

  /**
   * OSSemPend with a timeout of n ticks that blocks, where no OSTaskSuspend has named a half-made task: as long as no post picks the task, it stays
   * pending through any run with fewer than n ticks, and the n-th tick readies it as timed out.
   */
  lemma PendTimesOutAtNthTick(m: Machine, e: nat, n: nat, steps: seq<Step>)
    requires Good(m) && Enabled(m, StepPend(e, n)) && m.k.events[e].cnt == 0 && n > 0 && WindowOk(m)
    requires ValidRun(Apply(m, StepPend(e, n)), steps) && Ticks(steps) < n
    requires !SomePick(Apply(m, StepPend(e, n)), steps, m.k.cur)
    ensures var p, m' := m.k.cur, Run(Apply(m, StepPend(e, n)), steps);
            && Good(m') && p in m'.k.tasks && p !in m'.k.ready
            && m'.k.tasks[p].pend && m'.k.tasks[p].event == Some(e) && m'.k.tasks[p].dly == n - Ticks(steps)
            && (Ticks(steps) == n - 1 && m'.k.intNesting > 0 ==>
                  var k' := TimeTick(m'.k);
                  k'.tasks[p].status == PendTimeout && (p in k'.ready <==> !m'.k.tasks[p].susp))
  {
    var p, m1 := m.k.cur, Apply(m, StepPend(e, n));
    CurrentIsLinked(m);
    StepKeepsWins(m, StepPend(e, n));
    TimerCountsDown(m1, steps, p, n);
    var m' := Run(m1, steps);
    if Ticks(steps) == n - 1 && m'.k.intNesting > 0 {
      TimedTick(m', p, 1);
    }
  }

  // A pend without a timeout, seen by one step of a run in which no post picks the task.
  ghost predicate WaitsOn(m: Machine, p: nat, e: nat) {
    p in m.k.tasks && m.k.tasks[p].pend && m.k.tasks[p].event == Some(e) && m.k.tasks[p].dly == 0
  }

  lemma WaitsOnStep(m: Machine, s: Step, p: nat, e: nat)
    requires Good(m) && WaitsOn(m, p, e) && Enabled(m, s) && !Picks(m, s, p)
    ensures WaitsOn(Apply(m, s), p, e)
  {
    if s.StepPost? || s.StepAccept? || s.StepSuspend? || s.StepResume? || s.StepPend? || s.StepPendResume? || s.StepDly? {
      WaitsOnCall(m, s, p, e);
    } else {
      assert CreationOk(m, m.k.cur);
      hide Wins, Sems, SemOk, Creations, CreationOk, Tasks, IdleOk;
    }
  }

  lemma WaitsOnCall(m: Machine, s: Step, p: nat, e: nat)
    requires Good(m) && WaitsOn(m, p, e) && Enabled(m, s) && !Picks(m, s, p)
    requires s.StepPost? || s.StepAccept? || s.StepSuspend? || s.StepResume? || s.StepPend? || s.StepPendResume? || s.StepDly?
    ensures WaitsOn(Apply(m, s), p, e)
  {
    hide Wins, Sems, SemOk, Creations, CreationOk, Tasks, IdleOk;
  }

  lemma {:induction false} WaitsOnRun(m: Machine, steps: seq<Step>, p: nat, e: nat)
    requires Good(m) && WaitsOn(m, p, e) && ValidRun(m, steps) && !SomePick(m, steps, p)
    ensures Good(Run(m, steps)) && WaitsOn(Run(m, steps), p, e)
    decreases |steps|
  {
    if steps != [] {
      StepKeepsWins(m, steps[0]);
      WaitsOnStep(m, steps[0], p, e);
      hide Good, Apply, WaitsOn, Picks;
      WaitsOnRun(Apply(m, steps[0]), steps[1..], p, e);
    }
  }

  /** OSSemPend with a timeout of 0 that blocks: without a post that picks the task it waits through every run, however many ticks it has. */
  lemma PendWithoutTimeoutWaits(m: Machine, e: nat, steps: seq<Step>)
    requires Good(m) && Enabled(m, StepPend(e, 0)) && m.k.events[e].cnt == 0
    requires ValidRun(Apply(m, StepPend(e, 0)), steps) && !SomePick(Apply(m, StepPend(e, 0)), steps, m.k.cur)
    ensures var p, m' := m.k.cur, Run(Apply(m, StepPend(e, 0)), steps);
            && Good(m') && IsSem(m'.k, e) && p in m'.k.tasks && p !in m'.k.ready
            && m'.k.tasks[p].pend && p in m'.k.events[e].waiters
  {
    var p, m1 := m.k.cur, Apply(m, StepPend(e, 0));
    StepKeepsWins(m, StepPend(e, 0));
    WaitsOnRun(m1, steps, p, e);
    assert TaskOk(Run(m1, steps), p);
  }

  /** OSTimeDlyHMSM asks for one tick a millisecond, exactly, for every argument it accepts. */
  lemma HmsmTicksExact(hours: nat, minutes: nat, seconds: nat, ms: nat)
    requires hours <= 255 && minutes <= 59 && seconds <= 59 && ms <= 999
    ensures HmsmTicks(hours, minutes, seconds, ms) == ((hours * 60 + minutes) * 60 + seconds) * 1000 + ms
    ensures (hours * 3600 + minutes * 60 + seconds) * TICKS_PER_SEC + TICKS_PER_SEC * ms < TIME_MODULUS
  {
    assert TICKS_PER_SEC * (ms + 500 / TICKS_PER_SEC) / 1000 == ms;
  }

  /** An accepted OSTimeDlyHMSM is OSTimeDly of that many ticks, and it does delay. */
  lemma HmsmIsDelay(k: State, hours: nat, minutes: nat, seconds: nat, ms: nat)
    requires k.cur in k.tasks && hours <= 255
    ensures var (k', err, resched) := TimeDlyHmsm(k, hours, minutes, seconds, ms);
            && (err == ErrNone <==>
                  k.intNesting == 0 && k.lockNesting == 0 && minutes <= 59 && seconds <= 59 && ms <= 999
                  && hours + minutes + seconds + ms > 0)
            && (err == ErrNone ==> resched && k'.tasks[k.cur].dly == ((hours * 60 + minutes) * 60 + seconds) * 1000 + ms)
            && (err != ErrNone ==> k' == k && !resched)
  {
    if minutes <= 59 && seconds <= 59 && ms <= 999 {
      HmsmTicksExact(hours, minutes, seconds, ms);
    }
  }
}
