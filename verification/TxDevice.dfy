/**
 * The transmit side of one device as the driver keeps it: the available ring, descriptors and
 * buffers in shared memory, 16-bit indices that wrap, and the notification batch.
 */
module TxDriver {
  import opened Prelude
  import opened Rings
  import opened TxSpec

  const TX_BUFFER_SIZE: nat := 2048

  /** A descriptor: which buffer, and how many bytes of it. */
  datatype Desc = Desc(buffer: nat, len: nat)

  function Zeros(n: nat): (z: seq<byte>)
    ensures |z| == n
  {
    seq(n, i => 0)
  }

  /** What driver and device share: the available ring, the descriptors and the buffers. */
  datatype Memory = Memory(avail: seq<nat>, desc: seq<Desc>, buffers: seq<seq<byte>>)

  predicate Sized(m: Memory, n: nat) {
    && |m.avail| == n && |m.desc| == n && |m.buffers| == n
    && forall s :: 0 <= s < n ==> |m.buffers[s]| == TX_BUFFER_SIZE
  }

  /** The available ring's entry in slot `s` is descriptor `s`, which describes a header and a frame. */
  predicate SlotOk(m: Memory, s: nat) {
    && s < |m.avail| && s < |m.desc| && s < |m.buffers|
    && m.avail[s] == s && m.desc[s].buffer == s && TX_HDR <= m.desc[s].len <= |m.buffers[s]|
    && m.buffers[s][..TX_HDR] == Zeros(TX_HDR)
  }

  /** What the device sends when it finds slot `s`. */
  function FrameAt(m: Memory, s: nat): Frame
    requires SlotOk(m, s)
  {
    m.buffers[s][TX_HDR..m.desc[s].len]
  }

  ghost predicate Owns(m: Memory, n: nat, start: nat, len: nat)
    requires n > 0
  {
    forall i :: start <= i < start + len ==> SlotOk(m, Slot(i, n))
  }

  /** What the device will send from the `len` entries that start at free-running position `start`. */
  ghost function Frames(m: Memory, n: nat, start: nat, len: nat): (f: seq<Frame>)
    requires n > 0 && Owns(m, n, start, len)
    ensures |f| == len && forall k :: 0 <= k < len ==> f[k] == FrameAt(m, Slot(start + k, n))
  {
    seq(len, k requires 0 <= k < len => FrameAt(m, Slot(start + k, n)))
  }

  lemma FramesHead(m: Memory, n: nat, start: nat, len: nat)
    requires n > 0 && len > 0 && Owns(m, n, start, len)
    ensures SlotOk(m, Slot(start, n)) && Owns(m, n, start + 1, len - 1)
    ensures Frames(m, n, start, len)[0] == FrameAt(m, Slot(start, n))
    ensures Frames(m, n, start + 1, len - 1) == Frames(m, n, start, len)[1..]
  {
    hide Slot, SlotOk, FrameAt;
    var f, f' := Frames(m, n, start, len), Frames(m, n, start + 1, len - 1);
    assert f[0] == FrameAt(m, Slot(start + 0, n));
    forall k | 0 <= k < len - 1 ensures f'[k] == f[k + 1] {
      assert start + 1 + k == start + (k + 1);
    }
  }

  function WithFrame(m: Memory, s: nat, frame: Frame): Memory
    requires Sized(m, |m.avail|) && s < |m.avail| && LegalFrame(frame)
  {
    Memory(m.avail[s := s], m.desc[s := Desc(s, TX_HDR + |frame|)],
           m.buffers[s := Zeros(TX_HDR) + frame + m.buffers[s][TX_HDR + |frame|..]])
  }

  lemma WithFrameSlot(m: Memory, s: nat, frame: Frame)
    requires Sized(m, |m.avail|) && s < |m.avail| && LegalFrame(frame)
    ensures var m' := WithFrame(m, s, frame); SlotOk(m', s) && FrameAt(m', s) == frame && Sized(m', |m.avail|)
    ensures var m' := WithFrame(m, s, frame); forall r :: r != s && SlotOk(m, r) ==> SlotOk(m', r) && FrameAt(m', r) == FrameAt(m, r)
  {
    var b := Zeros(TX_HDR) + frame + m.buffers[s][TX_HDR + |frame|..];
    assert |b| == TX_BUFFER_SIZE && b[..TX_HDR] == Zeros(TX_HDR) && b[TX_HDR..TX_HDR + |frame|] == frame;
  }

  /** What the device finds there, byte for byte: twelve zero bytes of header, then the frame, and their length. */
  lemma SlotBytes(m: Memory, s: nat, frame: Frame)
    requires Sized(m, |m.avail|) && s < |m.avail| && 0 < |frame| <= 1518
    ensures LegalFrame(frame)
    ensures var m' := WithFrame(m, s, frame);
            && |m'.avail| == |m.avail| && |m'.desc| == |m.avail| && |m'.buffers| == |m.avail|
            && m'.avail[s] == s && m'.desc[s] == Desc(s, 12 + |frame|)
            && |m'.buffers[s]| >= 12 + |frame|
            && m'.buffers[s][..12 + |frame|] == [0, 0, 0, 0, 0, 0, 0, 0, 0, 0, 0, 0] + frame
  {
    var b := Zeros(12) + frame + m.buffers[s][12 + |frame|..];
    assert b[..12 + |frame|] == Zeros(12) + frame;
    assert Zeros(12) == [0, 0, 0, 0, 0, 0, 0, 0, 0, 0, 0, 0];
  }

  /** Filling the slot behind the last published one disturbs nothing the device owns. */
  lemma FramesPush(m: Memory, n: nat, start: nat, len: nat, frame: Frame)
    requires n > 0 && Sized(m, n) && len < n && Owns(m, n, start, len) && LegalFrame(frame)
    ensures var m' := WithFrame(m, Slot(start + len, n), frame);
            && Owns(m', n, start, len + 1) && Frames(m', n, start, len + 1) == Frames(m, n, start, len) + [frame]
  {
    hide Slot, SlotOk, FrameAt, Zeros;
    var s := Slot(start + len, n);
    var m' := WithFrame(m, s, frame);
    WithFrameSlot(m, s, frame);
    forall i | start <= i < start + len
      ensures Slot(i, n) != s && SlotOk(m', Slot(i, n)) && FrameAt(m', Slot(i, n)) == FrameAt(m, Slot(i, n))
    {
      DistinctSlots(i, start + len, n);
    }
    var f, f' := Frames(m, n, start, len), Frames(m', n, start, len + 1);
    forall k | 0 <= k < len ensures f'[k] == f[k] {
      assert start <= start + k < start + len;
    }
  }

  class TxDevice {
    const n: nat                        // tx_queue_size
    const availRing: array<nat>
    const desc: array<Desc>
    const buffers: array<seq<byte>>
    var availIdx: nat                   // 16 bits, as are the next two
    var usedIdx: nat
    var lastUsed: nat
    var batch: nat
    // the same indices without wrapping, and what the rings do not show
    ghost var sent: nat
    ghost var done: nat
    ghost var notified: nat
    ghost var wire: seq<Frame>

    ghost predicate Shape()
      reads this
    {
      && QueueSize(n) && n > 0
      && availRing.Length == n && desc.Length == n && buffers.Length == n
      && availRing as object != desc && availRing as object != buffers && desc as object != buffers
      && done <= sent <= done + n
      && availIdx == sent % INDEX_MODULUS && usedIdx == done % INDEX_MODULUS
      && notified <= sent && batch == sent - notified && batch < TX_BATCH
    }

    ghost function Mem(): Memory
      reads this, availRing, desc, buffers
    {
      Memory(availRing[..], desc[..], buffers[..])
    }

    ghost predicate Valid()
      reads this, availRing, desc, buffers
    {
      Shape() && Sized(Mem(), n) && Owns(Mem(), n, done, sent - done)
    }

    ghost function Abs(): Tx
      reads this, availRing, desc, buffers
      requires Valid()
    {
      Tx(n, wire, Frames(Mem(), n, done, sent - done), sent - notified)
    }

    /** virtio_net_prepare_tx */
    constructor (n: nat)
      requires QueueSize(n)
      ensures Valid() && Abs() == TxInit(n)
    {
      SizeDividesModulus(n);
      this.n := n;
      availRing := new nat[n](i => 0);
      desc := new Desc[n](i => Desc(0, 0));
      buffers := new seq<byte>[n](i => Zeros(TX_BUFFER_SIZE));
      availIdx, usedIdx, lastUsed, batch := 0, 0, 0, 0;
      sent, done, notified, wire := 0, 0, 0, [];
      new;
      hide QueueSize;
      assert Abs() == TxInit(n);
    }

    // ---------------------------------------------------------------- the device

    /** The device reads the oldest pending frame from the rings, sends it and advances the used index. */
    method DeviceCompletes()
      requires Valid() && Abs().pending != []
      modifies this`usedIdx, this`done, this`wire
      ensures Valid() && Abs() == Complete(old(Abs()))
    {
      hide QueueSize, Slot, Sized, Owns;
      ghost var t := Abs();
      FramesHead(Mem(), n, done, sent - done);
      var slot := IndexSlot(usedIdx, n, done);
      var d := desc[availRing[slot]];
      wire := wire + [buffers[d.buffer][TX_HDR..d.len]];
      usedIdx := NextIndex(usedIdx, done);
      done := done + 1;
      assert Abs() == Complete(t);
    }

    /** The device completes as many frames as it likes. */
    method DeviceRuns() returns (ghost k: nat)
      requires Valid()
      modifies this`usedIdx, this`done, this`wire
      ensures Valid() && k <= |old(Abs()).pending| && Abs() == CompleteSome(old(Abs()), k)
    {
      hide QueueSize, Slot, Sized, Owns, Frames, CompleteSome, Complete;
      ghost var t := Abs();
      CompleteNone(t);
      SizeDividesModulus(n);
      var inRing := IndexDistance(availIdx, usedIdx, sent, done);
      assert inRing == |t.pending|;
      var progress: nat :| progress <= inRing;
      for i := 0 to progress
        invariant Valid() && i <= progress <= |t.pending| && Abs() == CompleteSome(t, i)
      {
        CompleteMore(t, i);
        DeviceCompletes();
      }
      k := progress;
    }

    // ---------------------------------------------------------------- the driver

    /**
     * One look at the used index, before which the device may have completed any number of frames:
     * the free slots by the driver's 16-bit arithmetic are the slots the device does not own.
     */
    method FreeSlots() returns (available: nat, ghost k: nat)
      requires Valid()
      modifies this`usedIdx, this`done, this`wire, this`lastUsed
      ensures Valid() && k <= |old(Abs()).pending| && Abs() == CompleteSome(old(Abs()), k)
      ensures available == n - |Abs().pending|
    {
      hide QueueSize, Slot, Sized, Owns, Frames, CompleteSome;
      k := DeviceRuns();
      SizeDividesModulus(n);
      lastUsed := usedIdx;
      var inFlight := IndexDistance(availIdx, lastUsed, sent, done);
      available := (n - inFlight) % INDEX_MODULUS;
    }

    /**
     * virtio_net_send_frame_dev. `used` is what the device completed meanwhile. A legal frame is queued
     * exactly when, at the last look, two slots were free; that is certain if four were free before.
     */
    method SendFrame(frame: Frame) returns (status: int, ghost used: nat)
      requires Valid()
      modifies this, availRing, desc, buffers
      ensures Valid() && used <= |old(Abs()).pending|
      ensures status == 0 <==> 0 < |frame| <= 1518 && n - (|old(Abs()).pending| - used) >= 2
      ensures status == 0 || status == -1
      ensures !LegalFrame(frame) ==> used == 0
      ensures LegalFrame(frame) && |old(Abs()).pending| + 4 <= n ==> status == 0
      ensures Abs() == (if status == 0 then Send(CompleteSome(old(Abs()), used), frame) else CompleteSome(old(Abs()), used))
      ensures status == 0 ==> Mem() == WithFrame(old(Mem()), Slot(old(sent), n), frame)
      ensures status != 0 ==> Mem() == old(Mem())
      ensures status == 0 ==> forall i :: done <= i < old(sent) ==> Slot(i, n) != Slot(old(sent), n)
    {
      hide QueueSize, Slot, Shape, Sized, Owns, Frames, WithFrame, CompleteSome;
      ghost var t := Abs();
      CompleteNone(t);
      if |frame| == 0 || |frame| > TX_MAX_FRAME {
        return -1, 0;
      }
      var available;
      available, used := FreeSlots();
      if available < 4 {
        ghost var more;
        available, more := WaitForRoom(available);
        CompleteTwice(t, used, more);
        used := used + more;
        if available < 2 {
          status := -1;
          return;
        }
      }
      Enqueue(frame);
      status := 0;
    }

    /** The retry loop: looks again, up to 100 times, until four slots are free. */
    method WaitForRoom(free: nat) returns (available: nat, ghost k: nat)
      requires Valid() && free == n - |Abs().pending|
      modifies this`usedIdx, this`done, this`wire, this`lastUsed
      ensures Valid() && k <= |old(Abs()).pending| && Abs() == CompleteSome(old(Abs()), k)
      ensures available == n - |Abs().pending|
    {
      hide QueueSize, Slot, Shape, Sized, Owns, Frames, WithFrame, CompleteSome;
      ghost var t, more := Abs(), 0;
      CompleteNone(t);
      available, k := free, 0;
      var retries := 0;
      while available < 4 && retries < 100
        invariant Valid() && k <= |t.pending| && Abs() == CompleteSome(t, k)
        invariant available == n - |Abs().pending|
        invariant retries <= 100
        decreases 100 - retries
      {
        available, more := FreeSlots();
        CompleteTwice(t, k, more);
        k := k + more;
        if available >= 4 {
          break;
        }
        retries := retries + 1;
        if retries % 10 == 0 {
          available, more := FreeSlots();
          CompleteTwice(t, k, more);
          k := k + more;
        }
      }
    }

    // Fills the slot behind the last published one, publishes it and keeps the batch count.
    method Enqueue(frame: Frame)
      requires Valid() && LegalFrame(frame) && HasRoom(Abs())
      modifies this`availIdx, this`batch, this`sent, this`notified, availRing, desc, buffers
      ensures Valid() && Abs() == Send(old(Abs()), frame)
      ensures Mem() == WithFrame(old(Mem()), Slot(old(sent), n), frame)
      ensures forall i :: done <= i < old(sent) ==> Slot(i, n) != Slot(old(sent), n)
    {
      hide QueueSize, Slot, Owns, WithFrame;
      ghost var t := Abs();
      forall i | done <= i < sent ensures Slot(i, n) != Slot(sent, n) {
        DistinctSlots(i, sent, n);
      }
      FramesPush(Mem(), n, done, sent - done, frame);
      var idx := IndexSlot(availIdx, n, sent);
      WithFrameSlot(Mem(), idx, frame);
      Fill(idx, frame);
      availIdx := NextIndex(availIdx, sent);
      sent := sent + 1;
      batch := batch + 1;
      if batch >= TX_BATCH {
        Notify();
      }
      assert Abs() == Send(t, frame);
    }

    // Writes header, frame and descriptor of one slot.
    method Fill(idx: nat, frame: Frame)
      requires Shape() && Sized(Mem(), n) && LegalFrame(frame) && idx < n
      modifies availRing, desc, buffers
      ensures Mem() == WithFrame(old(Mem()), idx, frame)
    {
      hide QueueSize;
      var len := TX_HDR + |frame|;
      buffers[idx] := Zeros(TX_HDR) + frame + buffers[idx][len..];
      desc[idx] := Desc(idx, len);
      availRing[idx] := idx;
    }

    /** The write to the device's notify register. */
    method Notify()
      requires availIdx == sent % INDEX_MODULUS
      modifies this`batch, this`notified
      ensures batch == 0 && notified == sent
    {
      batch := 0;
      notified := sent;
    }

    /** virtio_net_tx_flush_dev */
    method TxFlush()
      requires Valid()
      modifies this`batch, this`notified
      ensures Valid() && Abs() == Flush(old(Abs()))
    {
      if batch > 0 {
        Notify();
      }
    }
  }
}
