/**
 * The receive side of one device as the driver keeps it: rings in shared memory, 16-bit indices that
 * wrap, and the circular completion queue between interrupt handler and task.
 */
module RxDriver {
  import opened Prelude
  import opened Rings
  import opened RxSpec

  class RxDevice {
    const n: nat                        // rx_queue_size
    const availRing: array<nat>
    const usedRing: array<Used>
    const complRing: array<Used>
    var availIdx: nat                   // 16 bits, as are the next two
    var usedIdx: nat
    var lastUsed: nat
    var head: nat
    var tail: nat
    var count: nat
    var taken: nat                      // the device's own: how many buffers it has taken,
    var held: set<nat>                  // and which of them it has not used yet
    // the indices without wrapping, and what the rings do not show
    ghost var published: nat
    ghost var written: nat
    ghost var seen: nat
    ghost var hand: Option<nat>
    ghost var log: seq<Used>
    ghost var delivered: seq<Used>

    ghost predicate Shape()
      reads this
    {
      && QueueSize(n) && n > 0
      && availRing.Length == n && usedRing.Length == n && complRing.Length == n
      && usedRing != complRing && availRing as object != usedRing && availRing as object != complRing
      && taken <= published && seen <= written
      && availIdx == published % INDEX_MODULUS && usedIdx == written % INDEX_MODULUS && lastUsed == seen % INDEX_MODULUS
      && head < n && tail == Slot(head + count, n)
    }

    ghost function Abs(): Rx
      reads this, availRing, usedRing, complRing
      requires Shape()
    {
      Rx(n, Window(availRing[..], taken, published - taken), held, Window(usedRing[..], seen, written - seen),
         Window(complRing[..], head, count), hand, log, delivered)
    }

    ghost predicate Valid()
      reads this, availRing, usedRing, complRing
    {
      Shape() && Owned(Abs()) && InOrder(Abs())
    }

    /** virtio_net_prepare_rx */
    constructor (n: nat)
      requires QueueSize(n)
      ensures Valid() && Abs() == RxInit(n)
    {
      hide QueueSize, Owned, InOrder, Slot;
      SizeDividesModulus(n);
      HeadSlot(0, n);
      this.n := n;
      availRing := new nat[n];
      usedRing := new Used[n](i => Used(0, 0));
      complRing := new Used[n](i => Used(0, 0));
      availIdx, usedIdx, lastUsed, head, tail, count := n, 0, 0, 0, 0, 0;
      published, taken, written, seen := n, 0, 0, 0;
      held, hand, log, delivered := {}, None, [], [];
      new;
      PublishAll();
    }

    method PublishAll()
      requires Shape() && published == n && taken == written == seen == head == count == 0
      requires held == {} && hand == None && log == delivered == []
      modifies availRing
      ensures Valid() && Abs() == RxInit(n)
    {
      hide QueueSize, Owned, Slot;
      for i := 0 to n
        invariant forall j :: 0 <= j < i ==> availRing[j] == j
      {
        availRing[i] := i;
      }
      assert availRing[..] == seq(n, i => i);
      WindowAll(availRing[..]);
      InitOwned(n);
      assert Abs() == RxInit(n);
    }

    // ---------------------------------------------------------------- the device

    method DeviceTakes()
      requires Valid() && Abs().avail != []
      modifies this`taken, this`held
      ensures Valid() && Abs() == DeviceTake(old(Abs()))
    {
      hide Slot, QueueSize, Owned;
      ghost var r := Abs();
      StepKeepsOwned(r, RxTake);
      StepKeepsOrder(r, RxTake);
      WindowPop(availRing[..], taken, published - taken);
      held := held + {availRing[Slot(taken, n)]};
      taken := taken + 1;
      assert Abs() == DeviceTake(r);
    }

    method DeviceUses(id: nat, len: nat)
      requires Valid() && id in held
      modifies this`usedIdx, this`written, this`held, this`log, usedRing
      ensures Valid() && Abs() == DeviceUse(old(Abs()), id, len)
    {
      hide Slot, QueueSize, Owned;
      ghost var r := Abs();
      HeldLeavesRoom(r, id);
      StepKeepsOwned(r, RxUse(id, len));
      StepKeepsOrder(r, RxUse(id, len));
      WindowPush(usedRing[..], seen, written - seen, Used(id, len));
      var slot := IndexSlot(usedIdx, n, written);
      usedRing[slot] := Used(id, len);
      usedIdx := NextIndex(usedIdx, written);
      written := written + 1;
      held := held - {id};
      log := log + [Used(id, len)];
      assert Abs() == DeviceUse(r, id, len);
    }

    /** The device takes and uses as many buffers as it likes. */
    method DeviceActs() returns (ghost acts: seq<RxStep>)
      requires Valid()
      modifies this`taken, this`held, this`usedIdx, this`written, this`log, usedRing
      ensures Valid() && DeviceCan(old(Abs()), acts) && Abs() == DeviceRun(old(Abs()), acts)
    {
      hide Slot, QueueSize, Owned, InOrder, Shape, DeviceTake, DeviceUse;
      ghost var r := Abs();
      acts := [];
      var going: bool := *;
      while going
        invariant Valid() && DeviceCan(r, acts) && Abs() == DeviceRun(r, acts)
        decreases Work(Abs())
      {
        ghost var act;
        var acted;
        acted, act := DeviceActsOnce();
        if !acted {
          break;
        }
        DeviceStepWork(DeviceRun(r, acts), act.value);
        DeviceOne(DeviceRun(r, acts), act.value);
        DeviceRunConcat(r, acts, [act.value]);
        acts := acts + [act.value];
        going := *;
      }
    }

    // One step of the device, if it has one.
    method DeviceActsOnce() returns (acted: bool, ghost act: Option<RxStep>)
      requires Valid()
      modifies this`taken, this`held, this`usedIdx, this`written, this`log, usedRing
      ensures Valid() && acted == act.Some?
      ensures act.None? ==> Abs() == old(Abs())
      ensures act.Some? ==> (act.value.RxTake? || act.value.RxUse?) && RxEnabled(old(Abs()), act.value)
                            && Abs() == RxApply(old(Abs()), act.value)
    {
      hide Slot, QueueSize, Owned, InOrder;
      OwnedSizes(Abs());
      SizeDividesModulus(n);
      WrappedDifference(published, taken);
      var takes: bool := *;
      if takes && taken % INDEX_MODULUS != availIdx {
        DeviceTakes();
        return true, Some(RxTake);
      }
      if held == {} {
        return false, None;
      }
      var id: nat :| id in held;
      var len: nat := *;
      DeviceUses(id, len);
      return true, Some(RxUse(id, len));
    }

    // ---------------------------------------------------------------- the interrupt handler

    /**
     * virtio_net_handle_rx_used: moves everything in the used ring to the completion queue, also what the
     * device adds while the loop runs, and ends because the device runs out of buffers. Neither
     * error branch of its loop can be entered, so it never writes the available ring. The result says
     * whether the semaphores are posted.
     */
    method HandleRxUsed() returns (enqueued: bool, ghost acts: seq<RxStep>)
      requires Valid()
      modifies this`lastUsed, this`seen, this`tail, this`count, complRing
      modifies this`taken, this`held, this`usedIdx, this`written, this`log, usedRing
      ensures Valid() && DeviceCan(old(Abs()), acts) && Abs() == DrainUsed(DeviceRun(old(Abs()), acts))
      ensures enqueued == (DeviceRun(old(Abs()), acts).used != [])
    {
      hide Slot, QueueSize, Owned, InOrder, Shape, DrainUsed, MoveOne, Work, DeviceCan, DeviceRun;
      ghost var r := Abs();
      DeviceIdle(r);
      enqueued, acts := false, [];
      while true
        invariant Valid() && DeviceCan(r, acts) && DrainUsed(Abs()) == DrainUsed(DeviceRun(r, acts))
        invariant enqueued == (|Abs().compl| > |r.compl|) && |Abs().compl| >= |r.compl|
        decreases Work(Abs())
      {
        ghost var x := Abs();
        ghost var more := DeviceActs();
        DeviceRound(r, acts, x, more);
        acts := acts + more;
        var left, elem := ReadUsed();
        if !left {
          break;
        }
        var descId := elem.id % INDEX_MODULUS;
        if descId >= n {
          assert false;  // the device uses only published ids
        }
        if count >= n {
          assert false;  // an unread used entry leaves room in the completion queue
        }
        MoveThenDrain(Abs());
        EnqueueOne(Used(descId, elem.len));
        enqueued := true;
      }
      DrainedEmpty(DeviceRun(r, acts), Abs());
    }

    // The test against the used index and the read of the next used element.
    method ReadUsed() returns (more: bool, elem: Used)
      requires Valid()
      ensures more == (Abs().used != [])
      ensures more ==> elem == Abs().used[0] && elem.id < n < INDEX_MODULUS && count < n
    {
      hide Slot, QueueSize, Owned, InOrder;
      OwnedSizes(Abs());
      OwnedInRange(Abs());
      SizeDividesModulus(n);
      WrappedDifference(written, seen);
      if lastUsed == usedIdx {
        return false, Used(0, 0);
      }
      var usedIndex := IndexSlot(lastUsed, n, seen);
      elem := usedRing[usedIndex];
      WindowPop(usedRing[..], seen, written - seen);
      more := true;
    }

    // The body of the loop once both checks have passed.
    method EnqueueOne(elem: Used)
      requires Valid() && Abs().used != [] && elem == Abs().used[0] && count < n
      modifies this`lastUsed, this`seen, this`tail, this`count, complRing
      ensures Valid() && Abs() == MoveOne(old(Abs()))
    {
      hide Slot, QueueSize, Owned, InOrder;
      ghost var r := Abs();
      MoveKeepsOwned(r);
      WindowPush(complRing[..], head, count, elem);
      WindowPop(usedRing[..], seen, written - seen);
      SlotOfSlot(head + count, 1, n);
      complRing[tail] := elem;
      tail := NextSlot(tail, n);
      count := count + 1;
      lastUsed := NextIndex(lastUsed, seen);
      seen := seen + 1;
      assert Abs() == MoveOne(r);
    }

    // ---------------------------------------------------------------- the task

    /** The critical section of virtio_net_poll_frame_dev: takes the head of the completion queue. */
    method PollTake() returns (got: bool, elem: Used)
      requires Valid() && hand.None?
      modifies this`head, this`count, this`hand, this`delivered
      ensures Valid() && got == (old(Abs()).compl != [])
      ensures !got ==> Abs() == old(Abs())
      ensures got ==> elem == old(Abs()).compl[0] && Abs() == Pop(old(Abs()))
    {
      hide Slot, QueueSize, Owned;
      if count == 0 {
        return false, Used(0, 0);
      }
      WindowPop(complRing[..], head, count);
      elem := complRing[head];
      HeadSlot(head, n);
      DropHead();
      got := true;
    }

    // The head of the completion queue moves on.
    method DropHead()
      requires Valid() && hand.None? && count > 0
      modifies this`head, this`count, this`hand, this`delivered
      ensures Valid() && Abs() == Pop(old(Abs()))
    {
      hide Slot, QueueSize, Owned;
      ghost var r := Abs();
      StepKeepsOwned(r, RxPop);
      StepKeepsOrder(r, RxPop);
      WindowPop(complRing[..], head, count);
      WindowWrap(complRing[..], head + 1, count - 1);
      SlotOfSlot(head + 1, count - 1, n);
      HeadSlot(head, n);
      hand := Some(complRing[head].id);
      delivered := delivered + [complRing[head]];
      head := NextSlot(head, n);
      count := count - 1;
      assert Abs() == Pop(r);
    }

    /** The buffer goes back to the device; its slot holds no descriptor the device has yet to take. */
    method GiveBack(descId: nat)
      requires Valid() && hand == Some(descId)
      modifies this`availIdx, this`published, this`hand, availRing
      ensures Valid() && Abs() == Publish(old(Abs()))
    {
      hide Slot, QueueSize, Owned;
      ghost var r := Abs();
      OwnedSizes(r);
      StepKeepsOwned(r, RxPublish);
      StepKeepsOrder(r, RxPublish);
      WindowPush(availRing[..], taken, published - taken, descId);
      var slot := IndexSlot(availIdx, n, published);
      availRing[slot] := descId;
      availIdx := NextIndex(availIdx, published);
      published := published + 1;
      hand := None;
      assert Abs() == Publish(r);
    }

    /** virtio_net_poll_frame_dev without interruption: the status, and the frame's length. */
    method PollFrame() returns (status: int, length: nat, ghost frame: Option<Used>)
      requires Valid() && hand.None?
      modifies this`head, this`count, this`hand, this`delivered, this`availIdx, this`published, availRing
      ensures Valid()
      ensures old(Abs()).compl == [] ==> status == 0 && frame == None && Abs() == old(Abs())
      ensures old(Abs()).compl != [] ==>
                var r := old(Abs());
                && frame == Some(r.compl[0]) && Abs() == Publish(Pop(r))
                && var len := r.compl[0].len;
                && length == PayloadLength(len) && status == (if len > 12 then 1 else 0)
                && (len <= 12 ==> length == 0) && (13 <= len <= 1530 ==> length + 12 == len) && (len > 1530 ==> length == 1518)
    {
      hide Slot, QueueSize, Owned, InOrder, Shape;
      ghost var r := Abs();
      var got, elem := PollTake();
      if !got {
        return 0, 0, None;
      }
      OwnedInRange(r);
      if elem.id >= n {
        assert false;  // every completion entry holds a descriptor of the queue
      }
      length := 0;
      if elem.len > HDR_SIZE {
        length := elem.len - HDR_SIZE;
        if length > MAX_FRAME_SIZE {
          length := MAX_FRAME_SIZE;
        }
      }
      GiveBack(elem.id);
      status := if length > 0 then 1 else 0;
      frame := Some(elem);
    }

    /** virtio_net_peek_rx_buffer_dev: looks at the head and leaves it there. */
    method PeekRxBuffer() returns (found: bool, length: nat, descId: nat)
      requires Valid()
      ensures found == (Abs().compl != [])
      ensures found ==>
                && descId == Abs().compl[0].id < n
                && var len := Abs().compl[0].len;
                && length == PayloadLength(len)
                && (len <= 12 ==> length == 0) && (13 <= len <= 1530 ==> length + 12 == len) && (len > 1530 ==> length == 1518)
    {
      hide Slot, QueueSize, Owned;
      if count == 0 {
        return false, 0, 0;
      }
      WindowPop(complRing[..], head, count);
      HeadSlot(head, n);
      OwnedInRange(Abs());
      descId := complRing[head].id;
      var totalLen := complRing[head].len;
      if descId >= n {
        assert false;  // every completion entry holds a descriptor of the queue
      }
      length := 0;
      if totalLen > HDR_SIZE {
        length := totalLen - HDR_SIZE;
        if length > MAX_FRAME_SIZE {
          length := MAX_FRAME_SIZE;
        }
      }
      found := true;
    }

    /** The critical section of virtio_net_release_rx_buffer_dev: drops the head if it is `descId`. */
    method ReleaseTake(descId: nat) returns (ok: bool)
      requires Valid() && hand.None?
      modifies this`head, this`count, this`hand, this`delivered
      ensures Valid() && ok == (old(Abs()).compl != [] && old(Abs()).compl[0].id == descId)
      ensures Abs() == if ok then Pop(old(Abs())) else old(Abs())
    {
      hide Slot, QueueSize, Owned;
      if count == 0 {
        return false;
      }
      WindowPop(complRing[..], head, count);
      HeadSlot(head, n);
      var headDescId := complRing[head].id;
      if headDescId != descId {
        return false;
      }
      DropHead();
      ok := true;
    }
  }
}
