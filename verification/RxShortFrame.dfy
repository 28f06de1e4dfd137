/**
 * A run in which work is left behind: the device hands over one frame of 12 bytes, and the receive task goes
 * to sleep with it in the queue.
 */
module RxShortFrame {
  import opened Prelude
  import opened KernelSpec
  import opened KernelMachine
  import opened KernelRuns
  import opened RxSpec
  import opened RxWakeup

  lemma {:induction false} SysRunConcat(w: Wiring, y: Sys, a: seq<SysStep>, z: Sys, b: seq<SysStep>, z': Sys)
    requires SysRun(w, y, a, z) && SysRun(w, z, b, z')
    ensures SysRun(w, y, a + b, z')
    decreases |a|
  {
    hide SysApply, SysEnabled, Structure;
    if a == [] {
      assert a + b == b;
    } else {
      SysRunConcat(w, SysApply(w, y, a[0]), a[1..], z, b, z');
      assert (a + b)[1..] == a[1..] + b;
    }
  }

  lemma SysRunOne(w: Wiring, y: Sys, s: SysStep)
    requires Structure(y.m) && IsSem(y.m.k, w.e) && SysEnabled(w, y, s)
    ensures SysRun(w, y, [s], SysApply(w, y, s))
  {
    hide SysApply, SysEnabled, Structure;
    assert [s][1..] == [] && SysRun(w, SysApply(w, y, s), [], SysApply(w, y, s));
  }

  /** The receive task is about to test its queue, with `cnt` tokens there. */
  ghost predicate AtLoop(w: Wiring, y: Sys, cnt: nat) {
    && WakeInv(w, y) && y.at == Testing
    && y.m.k.cur == w.p && AtUser(y.m) && y.m.k.lockNesting == 0 && y.m.k.events[w.e].cnt == cnt
  }

  /** A run from one state to another. */
  ghost predicate Leads(w: Wiring, y: Sys, z: Sys) {
    exists steps :: SysRun(w, y, steps, z)
  }

  lemma LeadsBy(w: Wiring, y: Sys, z: Sys, s: SysStep)
    requires Leads(w, y, z) && Structure(z.m) && IsSem(z.m.k, w.e) && SysEnabled(w, z, s)
    ensures Leads(w, y, SysApply(w, z, s))
  {
    hide SysRun, SysApply, SysEnabled, Structure;
    var steps :| SysRun(w, y, steps, z);
    SysRunOne(w, z, s);
    SysRunConcat(w, y, steps, z, [s], SysApply(w, z, s));
  }

  /** The device takes the first buffer and uses it for a bare header. */
  lemma DeviceSendsHeader(w: Wiring, y: Sys) returns (z: Sys)
    requires AtLoop(w, y, 0) && y.r.n > 0 && y.r == RxInit(y.r.n)
    ensures Leads(w, y, z) && AtLoop(w, z, 0) && z.r.used == [Used(0, HDR_SIZE)] && z.r.compl == []
  {
    hide Good, Alone, Owned, Leads;
    LeadsNowhere(w, y);
    CanPend(w, y.m);
    var y1 := y.(r := DeviceTake(y.r));
    SysStepKeeps(w, y, Dev(RxTake));
    LeadsBy(w, y, y, Dev(RxTake));
    z := y1.(r := DeviceUse(y1.r, 0, HDR_SIZE));
    SysStepKeeps(w, y1, Dev(RxUse(0, HDR_SIZE)));
    LeadsBy(w, y, y1, Dev(RxUse(0, HDR_SIZE)));
  }

  // The kernel's side of one interrupt that posts the device's semaphore.
  lemma InterruptPosts(w: Wiring, m: Machine)
    requires Good(m) && Alone(w, m) && !InPend(w, m) && AtUser(m) && m.k.cur == w.p && m.k.lockNesting == 0
    requires m.k.events[w.e].cnt == 0
    ensures var m1 := Apply(m, StepIntEnter);
            && m1.k.intNesting == 1 && Structure(m1) && IsSem(m1.k, w.e)
            && var m2 := DoPost(m1, w.e);
               && m2.k.intNesting == 1 && Structure(m2) && IsSem(m2.k, w.e)
               && var m3 := Apply(m2, StepIntExit);
                  && m3.k.cur == w.p && AtUser(m3) && m3.k.lockNesting == 0
                  && IsSem(m3.k, w.e) && m3.k.events[w.e].cnt == 1
  {
    WaitersMeanPending(w, m);
    assert m.k.events[w.e].waiters == {};
    LeastIs(m.k.ready, m.k.cur);
    hide Tasks, TaskOk, Creations, CreationOk, Sems, SemOk, Wins, WinOk, IdleOk;
  }

  /** The handler moves it to the completion queue and leaves a token. */
  lemma HandlerQueuesIt(w: Wiring, y: Sys) returns (z: Sys)
    requires AtLoop(w, y, 0) && y.r.used == [Used(0, HDR_SIZE)] && y.r.compl == []
    ensures Leads(w, y, z) && AtLoop(w, z, 1) && ShortHead(z.r)
  {
    hide Good, Owned, Leads, Alone, Apply, DoPost;
    LeadsNowhere(w, y);
    CanPend(w, y.m);
    InterruptPosts(w, y.m);
    var y1 := y.(m := Apply(y.m, StepIntEnter));
    SysStepKeeps(w, y, Kern(StepIntEnter));
    LeadsBy(w, y, y, Kern(StepIntEnter));
    var y2 := IsrStep(w, y1);
    SysStepKeeps(w, y1, Isr);
    LeadsBy(w, y, y1, Isr);
    z := y2.(m := Apply(y2.m, StepIntExit));
    SysStepKeeps(w, y2, Kern(StepIntExit));
    LeadsBy(w, y, y2, Kern(StepIntExit));
  }

  lemma LeadsNowhere(w: Wiring, y: Sys)
    ensures Leads(w, y, y)
  {
    assert SysRun(w, y, [], y);
  }

  /** One pass of the loop breaks on the short head and takes the token instead of waiting. */
  lemma PassTakesToken(w: Wiring, y: Sys) returns (z: Sys)
    requires AtLoop(w, y, 1) && ShortHead(y.r)
    ensures Leads(w, y, z) && AtLoop(w, z, 0) && z.r == y.r
  {
    hide Good, Owned, Leads, Alone;
    LeadsNowhere(w, y);
    CanPend(w, y.m);
    var y1 := y.(at := Peeking);
    SysStepKeeps(w, y, Loop);
    LeadsBy(w, y, y, Loop);
    var y2 := y.(at := Drained);
    SysStepKeeps(w, y1, Loop);
    LeadsBy(w, y, y1, Loop);
    z := PendStep(w, y2);
    SysStepKeeps(w, y2, Loop);
    LeadsBy(w, y, y2, Loop);
  }

  lemma CanPend(w: Wiring, m: Machine)
    requires Good(m) && Alone(w, m)
    ensures Structure(m) && IsSem(m.k, w.e) && m.k.cur in m.k.tasks && w.p != m.k.lowest
  {}

  /**
   * From every starting point with the task at the top of its loop: a run in which the device uses one buffer
   * for 12 bytes, and at whose end the task waits with that frame in its queue.
   */
  lemma ShortFrameLeavesWork(w: Wiring, y: Sys)
    requires Initial(w, y) && y.r.n > 0 && y.m.k.cur == w.p && AtUser(y.m) && y.m.k.lockNesting == 0
    requires y.m.k.events[w.e].cnt == 0
    ensures exists steps, z :: SysRun(w, y, steps, z) && IsSem(z.m.k, w.e) && RxWakeup.Blocked(w, z.m) && z.r.compl != []
  {
    hide Good, Owned, Alone, AtUser, Leads;
    InitialWakeInv(w, y);
    var y1 := DeviceSendsHeader(w, y);
    var y2 := HandlerQueuesIt(w, y1);
    var y3 := PassTakesToken(w, y2);
    ShortHeadBlocks(w, y3);
    var z :| SysRun(w, y3, [Loop, Loop, Loop], z) && RxWakeup.Blocked(w, z.m) && z.r == y3.r && z.r.compl != [];
    Together(w, y, y1, y2, y3, [Loop, Loop, Loop], z);
  }

  lemma Together(w: Wiring, y: Sys, y1: Sys, y2: Sys, y3: Sys, last: seq<SysStep>, z: Sys)
    requires Leads(w, y, y1) && Leads(w, y1, y2) && Leads(w, y2, y3) && SysRun(w, y3, last, z)
    ensures exists steps :: SysRun(w, y, steps, z)
  {
    hide SysRun;
    var a :| SysRun(w, y, a, y1);
    var b :| SysRun(w, y1, b, y2);
    var c :| SysRun(w, y2, c, y3);
    SysRunConcat(w, y, a, y1, b, y2);
    SysRunConcat(w, y, a + b, y2, c, y3);
    SysRunConcat(w, y, a + b + c, y3, last, z);
  }

  // ---------------------------------------------------------------- a start-up from which it happens

  // The receive task at priority 0, the idle task at 1, and one semaphore.
  const GATEWAY := Config(1, 2, 1, [BootTask(0), BootSem(0)])

  lemma GatewayInit()
    ensures ValidConfig(GATEWAY) && Idle(Init(GATEWAY))
    ensures var k := Init(GATEWAY);
            k.tasks.Keys == {1} && k.ready == {1} && k.reserved == {} && k.freeTcbs == 1 && k.lowest == 1
            && !k.running && k.intNesting == 0 && k.lockNesting == 0 && k.freeEvents == [0] && |k.events| == 1
  {
    InitIdle(GATEWAY);
  }

  lemma GatewayTask()
    ensures Idle(Init(GATEWAY))
    ensures var k := BootOne(Init(GATEWAY), BootTask(0));
            && Idle(k) && k.tasks.Keys == k.ready == {0, 1} && k.lowest == 1 && k.linked != [] && k.linked[0] == 0
            && k.intNesting == 0 && k.lockNesting == 0 && !k.running && k.freeEvents == [0] && |k.events| == 1
  {
    GatewayInit();
    hide Init, Idle;
    BootOneKeeps(Init(GATEWAY), BootTask(0));
  }

  lemma BootTwo(k: State, a: BootCall, b: BootCall)
    requires Idle(k) && (a.BootSem? ==> a.cnt <= SEM_MAX) && (b.BootSem? ==> b.cnt <= SEM_MAX)
    ensures Idle(BootOne(k, a)) && BootAll(k, [a, b]) == BootOne(BootOne(k, a), b)
  {
    hide BootOne;
    BootOneKeeps(k, a);
    var k1 := BootOne(k, a);
    BootOneKeeps(k1, b);
    assert [a, b][1..] == [b] && [b][1..] == [];
    hide Idle;
    assert BootAll(k1, [b]) == BootAll(BootOne(k1, b), []);
    assert BootAll(k, [a, b]) == BootAll(k1, [b]);
  }

  lemma FirstSemaphore(k: State)
    requires Idle(k) && k.freeEvents == [0] && |k.events| == 1
    ensures BootOne(k, BootSem(0)) == k.(freeEvents := [], events := [Sem(0, {})])
  {
    assert k.freeEvents[1..] == [];
  }

  lemma GatewaySemaphore()
    ensures ValidConfig(GATEWAY) && Idle(Init(GATEWAY))
    ensures var k := BootAll(Init(GATEWAY), GATEWAY.calls);
            && k.tasks.Keys == k.ready == {0, 1} && k.lowest == 1 && k.linked != [] && k.linked[0] == 0
            && k.intNesting == 0 && k.lockNesting == 0 && !k.running && |k.events| == 1 && k.events[0] == Sem(0, {})
  {
    GatewayInit();
    GatewayTask();
    hide Idle, Init, BootOne, BootAll, ValidConfig;
    assert GATEWAY.calls == [BootTask(0), BootSem(0)];
    BootTwo(Init(GATEWAY), BootTask(0), BootSem(0));
    FirstSemaphore(BootOne(Init(GATEWAY), BootTask(0)));
  }

  lemma GatewayBoots()
    ensures ValidConfig(GATEWAY)
    ensures var m := Booted(GATEWAY);
            && Good(m) && AtUser(m) && m.k.cur == 0 && m.k.lowest == 1 && m.k.lockNesting == 0 && 0 in m.k.linked
            && IsSem(m.k, 0) && m.k.events[0].cnt == 0
  {
    hide Good, BootAll, Init, Idle, ValidConfig;
    GatewaySemaphore();
    BootedGood(GATEWAY);
    LeastIs({0, 1}, 0);
    assert BootAll(Init(GATEWAY), GATEWAY.calls).linked[0] in BootAll(Init(GATEWAY), GATEWAY.calls).linked;
  }

  /** For every queue size: from a concrete start-up the task ends up waiting with a frame in its queue. */
  lemma LostWakeUpIsReachable(n: nat)
    requires n > 0
    ensures ValidConfig(GATEWAY)
    ensures var w, y := Wiring(0, 0), Sys(Booted(GATEWAY), RxInit(n), Testing);
            && Initial(w, y)
            && exists steps, z :: SysRun(w, y, steps, z) && IsSem(z.m.k, w.e) && RxWakeup.Blocked(w, z.m) && z.r.compl != []
  {
    GatewayBoots();
    BootedInitial(Wiring(0, 0), GATEWAY, n);
    ShortFrameLeavesWork(Wiring(0, 0), Sys(Booted(GATEWAY), RxInit(n), Testing));
  }
}
