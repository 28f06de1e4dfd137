/**
 * The receive loop makes progress: left to run, it delivers every frame in front of it in order and gives every
 * buffer back, up to the end of the queue or the first short frame.
 */
module RxDrain {
  import opened Prelude
  import opened KernelMachine
  import opened KernelSpec
  import opened KernelRuns
  import opened RxSpec
  import opened RxWakeup
  import opened RxShortFrame

  predicate OnlyLoop(steps: seq<SysStep>) {
    forall i :: 0 <= i < |steps| ==> steps[i].Loop?
  }

  /** The queue after the task has processed its first `k` frames. */
  function Processed(r: Rx, k: nat): Rx
    requires k <= |r.compl|
  {
    r.(compl := r.compl[k..], delivered := r.delivered + r.compl[..k], avail := r.avail + Ids(r.compl[..k]))
  }

  /** The receive task runs, and is about to test its queue. */
  ghost predicate AtTest(w: Wiring, y: Sys) {
    WakeInv(w, y) && y.at == Testing && y.m.k.cur == w.p && AtUser(y.m)
  }

  /** A run of the loop alone. */
  ghost predicate LoopsTo(w: Wiring, y: Sys, z: Sys) {
    exists steps :: OnlyLoop(steps) && SysRun(w, y, steps, z)
  }

  lemma LoopsBy(w: Wiring, y: Sys)
    requires Structure(y.m) && IsSem(y.m.k, w.e) && SysEnabled(w, y, Loop)
    ensures LoopsTo(w, y, SysApply(w, y, Loop))
  {
    SysRunOne(w, y, Loop);
    hide SysApply, SysEnabled, SysRun;
    assert OnlyLoop([Loop]);
  }

  lemma LoopsOn(w: Wiring, x: Sys, y: Sys, z: Sys)
    requires LoopsTo(w, x, y) && LoopsTo(w, y, z)
    ensures LoopsTo(w, x, z)
  {
    hide SysRun;
    var a :| OnlyLoop(a) && SysRun(w, x, a, y);
    var b :| OnlyLoop(b) && SysRun(w, y, b, z);
    SysRunConcat(w, x, a, y, b, z);
    assert OnlyLoop(a + b);
  }

  // The task keeps running through its own steps on the queue.
  ghost predicate Runs(w: Wiring, y: Sys) {
    WakeInv(w, y) && y.m.k.cur == w.p && AtUser(y.m)
  }

  lemma LoopGoes(w: Wiring, y: Sys, z: Sys)
    requires Runs(w, y) && SysEnabled(w, y, Loop) && z == SysApply(w, y, Loop) && z.m == y.m
    ensures Runs(w, z) && LoopsTo(w, y, z)
  {
    SysStepKeeps(w, y, Loop);
    LoopsBy(w, y);
  }

  lemma PeeksAtOne(w: Wiring, y: Sys)
    requires Runs(w, y) && y.at == Testing && y.r.compl != [] && y.r.compl[0].len > 12
    ensures var z := y.(at := Holding(y.r.compl[0].id)); Runs(w, z) && LoopsTo(w, y, z)
  {
    OwnedInRange(y.r);
    hide Owned, Good, Alone, LoopsTo;
    LoopGoes(w, y, y.(at := Peeking));
    LoopGoes(w, y.(at := Peeking), y.(at := Holding(y.r.compl[0].id)));
    LoopsOn(w, y, y.(at := Peeking), y.(at := Holding(y.r.compl[0].id)));
  }

  lemma ReturnsOne(w: Wiring, y: Sys)
    requires Runs(w, y) && y.r.compl != [] && y.at == Holding(y.r.compl[0].id)
    ensures var z := y.(r := Publish(Pop(y.r)), at := Testing); Runs(w, z) && LoopsTo(w, y, z)
  {
    hide Owned, Good, Alone, LoopsTo;
    var z := y.(r := Pop(y.r), at := Publishing);
    LoopGoes(w, y, z);
    LoopGoes(w, z, y.(r := Publish(Pop(y.r)), at := Testing));
    LoopsOn(w, y, z, y.(r := Publish(Pop(y.r)), at := Testing));
  }

  /** One frame: tested, peeked at, taken off the queue, its buffer given back. */
  lemma ProcessesOne(w: Wiring, y: Sys)
    requires AtTest(w, y) && y.r.compl != [] && y.r.compl[0].len > 12
    ensures AtTest(w, y.(r := Processed(y.r, 1))) && LoopsTo(w, y, y.(r := Processed(y.r, 1)))
  {
    assert y.r.compl[..1] == [y.r.compl[0]] && Ids(y.r.compl[..1]) == [y.r.compl[0].id];
    assert Publish(Pop(y.r)) == Processed(y.r, 1) by {
      assert y.r.hand == None;
    }
    hide LoopsTo, WakeInv;
    var z := y.(at := Holding(y.r.compl[0].id));
    PeeksAtOne(w, y);
    ReturnsOne(w, z);
    LoopsOn(w, y, z, y.(r := Processed(y.r, 1)));
  }

  lemma ProcessedMore(r: Rx, k: nat)
    requires 0 < k <= |r.compl|
    ensures Processed(Processed(r, 1), k - 1) == Processed(r, k)
  {
    assert r.compl[..1] + r.compl[1..][..k - 1] == r.compl[..k];
    IdsConcat(r.compl[..1], r.compl[1..][..k - 1]);
    assert r.delivered + r.compl[..1] + r.compl[1..][..k - 1] == r.delivered + (r.compl[..1] + r.compl[1..][..k - 1]);
    assert r.avail + Ids(r.compl[..1]) + Ids(r.compl[1..][..k - 1]) == r.avail + (Ids(r.compl[..1]) + Ids(r.compl[1..][..k - 1]));
  }

  /** The end of the queue, or a frame of 12 bytes or less: past the loop, with the queue as it is. */
  lemma LeavesLoop(w: Wiring, y: Sys)
    requires AtTest(w, y) && (y.r.compl == [] || y.r.compl[0].len <= 12)
    ensures LoopsTo(w, y, y.(at := Drained))
  {
    LoopsBy(w, y);
    SysStepKeeps(w, y, Loop);
    if y.r.compl != [] {
      LoopsBy(w, y.(at := Peeking));
      hide LoopsTo, WakeInv;
      LoopsOn(w, y, y.(at := Peeking), y.(at := Drained));
    }
  }

  /**
   * With `k` frames of more than 12 bytes at the head, and then the end of the queue or a shorter frame, the loop left
   * alone comes to its wait having delivered exactly those `k`, in order, and given back exactly their buffers.
   */
  lemma {:induction false} LoopDelivers(w: Wiring, y: Sys, k: nat)
    requires AtTest(w, y) && k <= |y.r.compl|
    requires (forall i :: 0 <= i < k ==> y.r.compl[i].len > 12) && (k < |y.r.compl| ==> y.r.compl[k].len <= 12)
    ensures LoopsTo(w, y, Sys(y.m, Processed(y.r, k), Drained))
    decreases k
  {
    if k == 0 {
      LeavesLoop(w, y);
      assert Ids(y.r.compl[..0]) == [] && y.r.delivered + [] == y.r.delivered && y.r.avail + [] == y.r.avail;
      assert Processed(y.r, 0) == y.r;
    } else {
      hide LoopsTo, WakeInv;
      ProcessesOne(w, y);
      var z := y.(r := Processed(y.r, 1));
      ProcessedMore(y.r, k);
      LoopDelivers(w, z, k - 1);
      LoopsOn(w, y, z, Sys(y.m, Processed(y.r, k), Drained));
    }
  }
}
