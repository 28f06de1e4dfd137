/**
 * The receive task of one device together with its interrupt handler, the device and the whole
 * kernel: is a wake-up ever lost? The system interleaves kernel steps, device steps, the handler and
 * the task's drain-and-wait loop. The wait has no timeout.
 */
module RxWakeup {
  import opened Prelude
  import opened KernelSpec
  import opened KernelMachine
  import opened KernelTokens
  import opened KernelRuns
  import opened KernelTheorems
  import opened RxSpec

  /** The receive task's priority and the device's semaphore. */
  datatype Wiring = Wiring(p: nat, e: nat)

  /** Where the receive task is in its loop. */
  datatype Place =
    | Testing                // the test of the drain loop
    | Peeking                // the test saw a pending frame
    | Holding(id: nat)       // processing the frame at the head of the completion queue
    | Publishing             // the frame is off the queue, its buffer not yet given back
    | Drained                // past the drain loop, before OSSemPend
    | Waiting                // inside OSSemPend
    | BackingOff             // OSSemPend returned an error

  datatype Sys = Sys(m: Machine, r: Rx, at: Place)

  datatype SysStep = Kern(s: Step) | Isr | Dev(d: RxStep) | Loop

  // ---------------------------------------------------------------- steps

  /** Steps of the rest of the system leave the device's semaphore to the receive task, except to post it. */
  predicate Foreign(w: Wiring, m: Machine, s: Step) {
    && s != StepAccept(w.e)
    && (s.StepPend? ==> s.e != w.e)
    && (s.StepPendResume? ==> m.k.cur in m.pc && m.pc[m.k.cur].PendResume? && m.pc[m.k.cur].e != w.e)
  }

  ghost predicate SysEnabled(w: Wiring, y: Sys, s: SysStep)
    requires Structure(y.m) && IsSem(y.m.k, w.e)
  {
    match s
    case Kern(s) => Enabled(y.m, s) && LinkSafe(y.m, s) && Foreign(w, y.m, s)
    case Isr => y.m.k.intNesting > 0
    case Dev(d) => (d.RxTake? || d.RxUse?) && RxEnabled(y.r, d)
    case Loop =>
      && y.m.k.cur == w.p
      && (y.at.Waiting? ==> Enabled(y.m, StepPendResume))
      && (!y.at.Waiting? ==> AtUser(y.m))
      && (y.at.Publishing? ==> y.r.hand.Some?)
      && (y.at.Drained? ==> Enabled(y.m, StepPend(w.e, 0)))
      && (y.at.BackingOff? ==> Enabled(y.m, StepDly(1)))
  }

  /** virtio_net_handle_rx_used: drains the used ring, and posts if anything was in it. */
  ghost function IsrStep(w: Wiring, y: Sys): Sys
    requires Structure(y.m) && IsSem(y.m.k, w.e)
  {
    y.(r := DrainUsed(y.r), m := if y.r.used != [] then DoPost(y.m, w.e) else y.m)
  }

  /** virtio_net_peek_rx_buffer_dev, and the loop's reaction to it. */
  function PeekStep(y: Sys): Sys {
    if y.r.compl == [] || y.r.compl[0].id >= y.r.n || PayloadLength(y.r.compl[0].len) == 0 then y.(at := Drained)
    else y.(at := Holding(y.r.compl[0].id))
  }

  /** The critical section of virtio_net_release_rx_buffer_dev. */
  function ReleaseStep(y: Sys, id: nat): Sys {
    if y.r.compl == [] || y.r.compl[0].id != id then y.(at := Testing)
    else y.(r := Pop(y.r), at := Publishing)
  }

  ghost function PendStep(w: Wiring, y: Sys): Sys
    requires Structure(y.m) && IsSem(y.m.k, w.e) && y.m.k.cur in y.m.k.tasks
  {
    var out := SemPend(y.m.k, w.e, 0).1;
    y.(m := DoPend(y.m, w.e, 0),
       at := if out.Blocked? then Waiting else if out.err == ErrNone then Testing else BackingOff)
  }

  /** One critical section, or one piece of straight code, of the receive task. */
  ghost function LoopStep(w: Wiring, y: Sys): Sys
    requires Structure(y.m) && IsSem(y.m.k, w.e) && SysEnabled(w, y, Loop)
  {
    match y.at
    case Testing => y.(at := if y.r.compl != [] then Peeking else Drained)
    case Peeking => PeekStep(y)
    case Holding(id) => ReleaseStep(y, id)
    case Publishing => y.(r := Publish(y.r), at := Testing)
    case Drained => PendStep(w, y)
    case Waiting =>
      var err := SemPendResume(y.m.k, y.m.pc[y.m.k.cur].e).1;
      y.(m := Apply(y.m, StepPendResume), at := if err == ErrNone then Testing else BackingOff)
    case BackingOff => y.(m := Apply(y.m, StepDly(1)), at := Testing)
  }

  ghost function SysApply(w: Wiring, y: Sys, s: SysStep): Sys
    requires Structure(y.m) && IsSem(y.m.k, w.e) && SysEnabled(w, y, s)
  {
    match s
    case Kern(s) => y.(m := Apply(y.m, s))
    case Isr => IsrStep(w, y)
    case Dev(d) => y.(r := RxApply(y.r, d))
    case Loop => LoopStep(w, y)
  }

  ghost predicate SysRun(w: Wiring, y: Sys, steps: seq<SysStep>, y': Sys)
    decreases |steps|
  {
    if steps == [] then y' == y
    else
      && Structure(y.m) && IsSem(y.m.k, w.e) && SysEnabled(w, y, steps[0])
      && SysRun(w, SysApply(w, y, steps[0]), steps[1..], y')
  }

  // ---------------------------------------------------------------- the invariant

  /** Only the receive task pends on the device's semaphore. */
  ghost predicate Alone(w: Wiring, m: Machine) {
    && IsSem(m.k, w.e) && w.p in m.k.tasks && w.p in m.pc && w.p in m.k.linked && w.p != m.k.lowest
    && forall q :: q in m.pc && q != w.p && Pending(m.pc[q]) ==> m.pc[q].e != w.e
  }

  /** The receive task is inside OSSemPend. */
  predicate InPend(w: Wiring, m: Machine) {
    w.p in m.pc && Pending(m.pc[w.p]) && m.pc[w.p].e == w.e
  }

  /** ... and waits for a post. */
  predicate Blocked(w: Wiring, m: Machine)
    requires IsSem(m.k, w.e)
  {
    w.p in m.k.events[w.e].waiters
  }

  /** It waits without a timeout. */
  predicate NoTimer(w: Wiring, m: Machine) {
    w.p in m.k.tasks && m.k.tasks[w.p].pend && m.k.tasks[w.p].dly == 0
  }

  /** The frame at the head of the queue is no longer than the header: the drain loop breaks on it. */
  predicate ShortHead(r: Rx) {
    r.compl != [] && PayloadLength(r.compl[0].len) == 0
  }

  /** Nothing the drain loop would process. */
  predicate NothingToDo(r: Rx) {
    r.compl == [] || ShortHead(r)
  }

  predicate PlaceOk(w: Wiring, y: Sys)
    requires IsSem(y.m.k, w.e)
  {
    && (y.at.Publishing? <==> y.r.hand.Some?)
    && (y.at.Waiting? <==> InPend(w, y.m))
    && (y.at.Peeking? ==> y.r.compl != [])
    && (y.at.Holding? ==> y.r.compl != [] && y.r.compl[0].id == y.at.id && !ShortHead(y.r))
    && (y.at.Drained? ==> NothingToDo(y.r) || y.m.k.events[w.e].cnt > 0)
    && !y.at.BackingOff?
  }

  ghost predicate WakeInv(w: Wiring, y: Sys) {
    && Good(y.m) && Alone(w, y.m) && Owned(y.r) && PlaceOk(w, y)
    && (Blocked(w, y.m) ==> NothingToDo(y.r) && NoTimer(w, y.m))
  }

  // ---------------------------------------------------------------- kernel steps

  /** What a kernel step of the rest of the system does to the receive task and its semaphore. */
  ghost predicate Undisturbed(w: Wiring, m: Machine, m': Machine)
    requires IsSem(m.k, w.e)
  {
    && Alone(w, m')
    && InPend(w, m') == InPend(w, m)
    && (m.k.events[w.e].cnt > 0 ==> m'.k.events[w.e].cnt > 0)
    && (Blocked(w, m') ==> Blocked(w, m))
    && (Blocked(w, m') && NoTimer(w, m) ==> NoTimer(w, m'))
  }

  lemma WaitersMeanPending(w: Wiring, m: Machine)
    requires Good(m) && IsSem(m.k, w.e)
    ensures forall q :: q in m.k.events[w.e].waiters ==> q in m.pc && Pending(m.pc[q]) && m.pc[q].e == w.e
  {
    assert SemOk(m, w.e);
    forall q | q in m.k.events[w.e].waiters ensures q in m.pc && Pending(m.pc[q]) && m.pc[q].e == w.e {
      assert TaskOk(m, q);
    }
  }

  lemma PostUndisturbed(w: Wiring, m: Machine, e: nat)
    requires Good(m) && Alone(w, m) && Enabled(m, StepPost(e))
    ensures Undisturbed(w, m, Apply(m, StepPost(e)))
    ensures e == w.e ==> var m' := Apply(m, StepPost(e));
                         !Blocked(w, m') && (!Blocked(w, m) ==> m'.k.events[w.e].cnt > 0)
  {
    WaitersMeanPending(w, m);
    assert SemOk(m, w.e) && SemOk(m, e);
    if e == w.e && m.k.events[e].waiters != {} {
      assert Least(m.k.events[e].waiters) == w.p;
      assert m.k.events[e].waiters == {w.p};
    }
  }

  lemma TickUndisturbed(w: Wiring, m: Machine)
    requires Good(m) && Alone(w, m) && Enabled(m, StepTick)
    ensures Undisturbed(w, m, Apply(m, StepTick))
  {}

  lemma PendUndisturbed(w: Wiring, m: Machine, s: Step)
    requires Good(m) && Alone(w, m) && Enabled(m, s) && Foreign(w, m, s) && (s.StepPend? || s.StepPendResume? || s.StepAccept?)
    ensures Undisturbed(w, m, Apply(m, s))
  {
    hide Wins, WinOk, Winners, Sems, SemOk, Creations, CreationOk, IdleOk;
    WaitersMeanPending(w, m);
    assert TaskOk(m, w.p);
  }

  lemma CreateUndisturbed(w: Wiring, m: Machine, s: Step)
    requires Good(m) && Alone(w, m) && Enabled(m, s) && LinkSafe(m, s)
    requires s.StepAlloc? || s.StepInstall? || s.StepLink? || s.StepRollback?
    ensures Undisturbed(w, m, Apply(m, s))
  {
    hide Wins, WinOk, Winners, Sems, SemOk, Tasks, TaskOk, IdleOk, CurOk;
    assert CreationOk(m, m.k.cur);
  }

  lemma ClaimUndisturbed(w: Wiring, m: Machine, s: Step)
    requires Good(m) && Alone(w, m) && Enabled(m, s) && (s.StepReserve? || s.StepSemCreate?)
    ensures Undisturbed(w, m, Apply(m, s))
  {
    hide Wins, WinOk, Winners, Sems, SemOk, Tasks, TaskOk, IdleOk, CurOk, Creations, CreationOk;
  }

  lemma OwnStepUndisturbed(w: Wiring, m: Machine, s: Step)
    requires Good(m) && Alone(w, m) && Enabled(m, s) && (s.StepDly? || s.StepUnlock?)
    ensures Undisturbed(w, m, Apply(m, s))
  {
    WaitersMeanPending(w, m);
    hide Good, Wins, WinOk, Winners, Sems, SemOk, Creations, CreationOk, Tasks, TaskOk, IdleOk, CurOk;
  }

  lemma StatusUndisturbed(w: Wiring, m: Machine, s: Step)
    requires Good(m) && Alone(w, m) && Enabled(m, s) && (s.StepSuspend? || s.StepResume?)
    ensures Undisturbed(w, m, Apply(m, s))
  {
    WaitersMeanPending(w, m);
    hide Good, Wins, WinOk, Winners, Sems, SemOk, Creations, CreationOk, Tasks, TaskOk, IdleOk, CurOk;
  }

  lemma DispatchUndisturbed(w: Wiring, m: Machine, s: Step)
    requires Good(m) && Alone(w, m) && Enabled(m, s)
    requires s.StepIntEnter? || s.StepIntExit? || s.StepSched? || s.StepLock?
    ensures Undisturbed(w, m, Apply(m, s))
  {}

  lemma KernUndisturbed(w: Wiring, m: Machine, s: Step)
    requires Good(m) && Alone(w, m) && Enabled(m, s) && LinkSafe(m, s) && Foreign(w, m, s)
    ensures Undisturbed(w, m, Apply(m, s))
  {
    if s.StepPost? {
      PostUndisturbed(w, m, s.e);
    } else if s.StepTick? {
      TickUndisturbed(w, m);
    } else if s.StepPend? || s.StepPendResume? || s.StepAccept? {
      PendUndisturbed(w, m, s);
    } else if s.StepDly? || s.StepUnlock? {
      OwnStepUndisturbed(w, m, s);
    } else if s.StepSuspend? || s.StepResume? {
      StatusUndisturbed(w, m, s);
    } else if s.StepIntEnter? || s.StepIntExit? || s.StepSched? || s.StepLock? {
      DispatchUndisturbed(w, m, s);
    } else if s.StepReserve? || s.StepSemCreate? {
      ClaimUndisturbed(w, m, s);
    } else {
      CreateUndisturbed(w, m, s);
    }
  }

  // ---------------------------------------------------------------- every step keeps the invariant

  lemma KernKeeps(w: Wiring, y: Sys, s: Step)
    requires WakeInv(w, y) && SysEnabled(w, y, Kern(s))
    ensures WakeInv(w, SysApply(w, y, Kern(s)))
  {
    KernUndisturbed(w, y.m, s);
    StepKeepsWins(y.m, s);
    hide Good, Alone, Owned, Apply, Enabled, LinkSafe, Foreign;
  }

  lemma IsrKeeps(w: Wiring, y: Sys)
    requires WakeInv(w, y) && SysEnabled(w, y, Isr)
    ensures WakeInv(w, SysApply(w, y, Isr))
  {
    hide Good, Owned, Apply, DoPost;
    if y.r.used == [] {
      assert DrainUsed(y.r) == y.r;
    } else {
      WaitersMeanPending(w, y.m);
      DrainKeepsOwned(y.r);
      PostWakes(w, y.m);
    }
  }

  lemma PostWakes(w: Wiring, m: Machine)
    requires Good(m) && Alone(w, m) && m.k.intNesting > 0
    ensures var m' := DoPost(m, w.e);
            && Good(m') && Undisturbed(w, m, m') && !Blocked(w, m')
            && (!Blocked(w, m) ==> m'.k.events[w.e].cnt > 0)
            && (Blocked(w, m) ==> w.p in m'.won && (w.p in m'.k.ready <==> !m.k.tasks[w.p].susp))
  {
    hide Creations, CreationOk, Wins, WinOk, Winners, IdleOk, CurOk, Sems;
    assert TaskOk(m, w.p);
    PostUndisturbed(w, m, w.e);
    StepKeepsWins(m, StepPost(w.e));
    assert Apply(m, StepPost(w.e)) == DoPost(m, w.e);
    if Blocked(w, m) {
      WaitersMeanPending(w, m);
      assert Least(m.k.events[w.e].waiters) == w.p;
    }
  }

  lemma DevKeeps(w: Wiring, y: Sys, d: RxStep)
    requires WakeInv(w, y) && SysEnabled(w, y, Dev(d))
    ensures WakeInv(w, SysApply(w, y, Dev(d)))
  {
    StepKeepsOwned(y.r, d);
    hide Good, Alone, Owned;
  }

  lemma LoopKeeps(w: Wiring, y: Sys)
    requires WakeInv(w, y) && SysEnabled(w, y, Loop)
    ensures WakeInv(w, SysApply(w, y, Loop))
  {
    match y.at
    case Drained => DrainedKeeps(w, y);
    case Waiting => WaitingKeeps(w, y);
    case _ => QueueKeeps(w, y);
  }

  lemma QueueKeeps(w: Wiring, y: Sys)
    requires WakeInv(w, y) && SysEnabled(w, y, Loop) && !y.at.Drained? && !y.at.Waiting?
    ensures WakeInv(w, SysApply(w, y, Loop))
  {
    hide Good, Owned, Enabled, Apply;
    WaitersMeanPending(w, y.m);
    OwnedInRange(y.r);
    if y.at.Holding? {
      PopKeepsOwned(y.r);
    }
    if y.at.Publishing? {
      StepKeepsOwned(y.r, RxPublish);
    }
  }

  /** Between the drain loop and the pend, a frame that arrives leaves a token. */
  lemma DrainedKeeps(w: Wiring, y: Sys)
    requires WakeInv(w, y) && SysEnabled(w, y, Loop) && y.at.Drained?
    ensures WakeInv(w, SysApply(w, y, Loop))
  {
    StepKeepsWins(y.m, StepPend(w.e, 0));
    assert Apply(y.m, StepPend(w.e, 0)) == DoPend(y.m, w.e, 0);
    hide Good, Owned;
  }

  // The task's own return from the pend.
  lemma ResumeLeavesPend(w: Wiring, m: Machine)
    requires Good(m) && Alone(w, m) && InPend(w, m) && m.k.cur == w.p && Enabled(m, StepPendResume)
    requires Blocked(w, m) ==> NoTimer(w, m)
    ensures m.k.cur in m.won
    ensures var m' := Apply(m, StepPendResume); Alone(w, m') && !InPend(w, m') && !Blocked(w, m')
  {
    WaitersMeanPending(w, m);
    assert TaskOk(m, w.p);
    hide Good, Tasks, TaskOk, Creations, Sems, Wins, IdleOk;
  }

  lemma WaitingKeeps(w: Wiring, y: Sys)
    requires WakeInv(w, y) && SysEnabled(w, y, Loop) && y.at.Waiting?
    ensures WakeInv(w, SysApply(w, y, Loop))
  {
    hide Owned, DoPendResume, Tasks, Creations, Sems, Wins, WinOk, IdleOk, CurOk;
    StepKeepsWins(y.m, StepPendResume);
    PendReturnsNoneIffWon(y.m);
    ResumeLeavesPend(w, y.m);
  }

  lemma SysStepKeeps(w: Wiring, y: Sys, s: SysStep)
    requires WakeInv(w, y) && SysEnabled(w, y, s)
    ensures WakeInv(w, SysApply(w, y, s))
  {
    match s
    case Kern(s) => KernKeeps(w, y, s);
    case Isr => IsrKeeps(w, y);
    case Dev(d) => DevKeeps(w, y, d);
    case Loop => LoopKeeps(w, y);
  }

  lemma {:induction false} SysRunKeeps(w: Wiring, y: Sys, steps: seq<SysStep>, y': Sys)
    requires WakeInv(w, y) && SysRun(w, y, steps, y')
    ensures WakeInv(w, y')
    decreases |steps|
  {
    if steps != [] {
      SysStepKeeps(w, y, steps[0]);
      SysRunKeeps(w, SysApply(w, y, steps[0]), steps[1..], y');
    }
  }

  // ---------------------------------------------------------------- theorems

  /** The task is about to enter its loop; nobody else has touched the device's semaphore. */
  ghost predicate Initial(w: Wiring, y: Sys) {
    && Good(y.m) && Alone(w, y.m) && !InPend(w, y.m)
    && (exists n: nat :: y.r == RxInit(n)) && y.at == Testing
  }

  /** So it is after start-up, for any task and semaphore created there. */
  lemma BootedInitial(w: Wiring, c: Config, n: nat)
    requires ValidConfig(c) && IsSem(Booted(c).k, w.e) && w.p in Booted(c).k.linked && w.p != Booted(c).k.lowest
    ensures Initial(w, Sys(Booted(c), RxInit(n), Testing))
  {
    BootedGood(c);
    hide Good, BootAll, Init;
  }

  lemma InitialWakeInv(w: Wiring, y: Sys)
    requires Initial(w, y)
    ensures WakeInv(w, y)
  {
    var n: nat :| y.r == RxInit(n);
    InitOwned(n);
    WaitersMeanPending(w, y.m);
  }

  /**
   * In every run: the task that waits for a wake-up has an empty completion queue exactly when the
   * queue's head is not a frame of 12 bytes or less. Its wait has no timer, its pend never fails, and
   * the frame it holds is the head of the queue.
   */
  lemma NoLostWakeup(w: Wiring, y: Sys, steps: seq<SysStep>, y': Sys)
    requires Initial(w, y) && SysRun(w, y, steps, y')
    ensures IsSem(y'.m.k, w.e)
    ensures Blocked(w, y'.m) ==> y'.at.Waiting? && (y'.r.compl == [] <==> !ShortHead(y'.r))
    ensures y'.at.Drained? && y'.r.compl != [] && !ShortHead(y'.r) ==> y'.m.k.events[w.e].cnt > 0
    ensures y'.at != BackingOff
    ensures y'.at.Holding? ==> y'.r.compl != [] && y'.r.compl[0].id == y'.at.id
    ensures Owned(y'.r)
  {
    InitialWakeInv(w, y);
    SysRunKeeps(w, y, steps, y');
    hide Good, Owned;
    WaitersMeanPending(w, y'.m);
  }

  /** Every buffer the device uses in the run carries more than the 12-byte header. */
  predicate LongFrames(steps: seq<SysStep>) {
    forall i :: 0 <= i < |steps| && steps[i].Dev? && steps[i].d.RxUse? ==> steps[i].d.len > 12
  }

  predicate AllLong(r: Rx) {
    (forall i :: 0 <= i < |r.used| ==> r.used[i].len > 12) &&
    (forall i :: 0 <= i < |r.compl| ==> r.compl[i].len > 12)
  }

  lemma StepKeepsLong(w: Wiring, y: Sys, s: SysStep)
    requires Structure(y.m) && IsSem(y.m.k, w.e) && SysEnabled(w, y, s) && AllLong(y.r)
    requires s.Dev? && s.d.RxUse? ==> s.d.len > 12
    ensures AllLong(SysApply(w, y, s).r)
  {
    hide Structure, Apply, DoPost, DoPend;
  }

  lemma {:induction false} RunKeepsLong(w: Wiring, y: Sys, steps: seq<SysStep>, y': Sys)
    requires SysRun(w, y, steps, y') && AllLong(y.r) && LongFrames(steps)
    ensures AllLong(y'.r)
    decreases |steps|
  {
    if steps != [] {
      StepKeepsLong(w, y, steps[0]);
      assert forall i :: 0 <= i < |steps[1..]| ==> steps[1..][i] == steps[i + 1];
      RunKeepsLong(w, SysApply(w, y, steps[0]), steps[1..], y');
    }
  }

  /** With a device that never uses a buffer for 12 bytes or less, the waiting task's queue is empty. */
  lemma NoLostWakeupLongFrames(w: Wiring, y: Sys, steps: seq<SysStep>, y': Sys)
    requires Initial(w, y) && SysRun(w, y, steps, y') && LongFrames(steps)
    ensures IsSem(y'.m.k, w.e) && (Blocked(w, y'.m) ==> y'.r.compl == [])
  {
    NoLostWakeup(w, y, steps, y');
    RunKeepsLong(w, y, steps, y');
  }

  /** The handler wakes a waiting task whenever it finds something in the used ring. */
  lemma IsrWakes(w: Wiring, y: Sys)
    requires WakeInv(w, y) && y.m.k.intNesting > 0 && y.r.used != [] && Blocked(w, y.m)
    ensures var y' := SysApply(w, y, Isr);
            && !Blocked(w, y'.m) && w.p in y'.m.won
            && (w.p in y'.m.k.ready <==> !y.m.k.tasks[w.p].susp)
  {
    PostWakes(w, y.m);
  }

  // ---------------------------------------------------------------- the frame that stops the queue

  /** With a short frame at the head, one pass of the loop leads back into the wait with the queue full of work. */
  lemma ShortHeadBlocks(w: Wiring, y: Sys)
    requires WakeInv(w, y) && y.at.Testing? && ShortHead(y.r)
    requires y.m.k.cur == w.p && AtUser(y.m) && y.m.k.lockNesting == 0 && y.m.k.events[w.e].cnt == 0
    ensures exists y' :: SysRun(w, y, [Loop, Loop, Loop], y') && Blocked(w, y'.m) && y'.r == y.r && y'.r.compl != []
  {
    var y1 := SysApply(w, y, Loop);
    SysStepKeeps(w, y, Loop);
    var y2 := SysApply(w, y1, Loop);
    SysStepKeeps(w, y1, Loop);
    assert y2 == y.(at := Drained);
    var y3 := SysApply(w, y2, Loop);
    hide Structure, DoPend, Good, Alone;
    RunThree(w, y, y1, y2, y3);
  }

  lemma RunThree(w: Wiring, y: Sys, y1: Sys, y2: Sys, y3: Sys)
    requires Structure(y.m) && IsSem(y.m.k, w.e) && SysEnabled(w, y, Loop) && y1 == SysApply(w, y, Loop)
    requires Structure(y1.m) && IsSem(y1.m.k, w.e) && SysEnabled(w, y1, Loop) && y2 == SysApply(w, y1, Loop)
    requires Structure(y2.m) && IsSem(y2.m.k, w.e) && SysEnabled(w, y2, Loop) && y3 == SysApply(w, y2, Loop)
    ensures SysRun(w, y, [Loop, Loop, Loop], y3)
  {
    hide Structure, SysEnabled, SysApply, IsSem;
    assert SysRun(w, y3, [], y3);
    assert [Loop][1..] == [];
    assert SysRun(w, y2, [Loop], y3);
    assert [Loop, Loop][1..] == [Loop];
    assert SysRun(w, y1, [Loop, Loop], y3);
    assert [Loop, Loop, Loop][1..] == [Loop, Loop];
  }

  /** Nothing gets past a short frame: it stays at the head, and no frame is ever taken off the queue again. */
  lemma {:induction false} ShortHeadStopsDelivery(w: Wiring, y: Sys, steps: seq<SysStep>, y': Sys)
    requires WakeInv(w, y) && ShortHead(y.r) && SysRun(w, y, steps, y')
    ensures y'.r.delivered == y.r.delivered && ShortHead(y'.r) && y'.r.compl[0] == y.r.compl[0]
    decreases |steps|
  {
    if steps != [] {
      var z := SysApply(w, y, steps[0]);
      SysStepKeeps(w, y, steps[0]);
      ShortHeadStays(w, y, steps[0]);
      ShortHeadStopsDelivery(w, z, steps[1..], y');
    }
  }

  lemma ShortHeadStays(w: Wiring, y: Sys, s: SysStep)
    requires WakeInv(w, y) && ShortHead(y.r) && SysEnabled(w, y, s)
    ensures var y' := SysApply(w, y, s);
            y'.r.delivered == y.r.delivered && ShortHead(y'.r) && y'.r.compl[0] == y.r.compl[0]
  {
    hide Good, Alone, Owned, Apply, DoPost, DoPend;
  }
}
