/**
 * One receive queue: who owns each descriptor, and in which order frames move from the device's used
 * ring through the completion queue to the task. The device is an environment that follows section
 * 2.7 of VIRTIO 1.2: it only uses buffers it has taken from the available ring, each of them once.
 */
module RxSpec {
  import opened Prelude

  const HDR_SIZE: nat := 12
  const MAX_FRAME_SIZE: nat := 1518

  /** An element of the used ring, and of the completion queue. */
  datatype Used = Used(id: nat, len: nat)

  datatype Rx = Rx(
    n: nat,
    avail: seq<nat>,       // published, not yet taken by the device
    held: set<nat>,        // taken by the device
    used: seq<Used>,       // used by the device, not yet seen by the interrupt handler
    compl: seq<Used>,      // the completion queue
    hand: Option<nat>,     // popped by the task, not yet given back
    log: seq<Used>,        // everything the device ever used
    delivered: seq<Used>   // everything the task ever popped
  )

  datatype RxStep = RxTake | RxUse(id: nat, len: nat) | RxIrq | RxPop | RxPublish

  function Ids(s: seq<Used>): (ids: seq<nat>)
    ensures |ids| == |s| && forall i :: 0 <= i < |s| ==> ids[i] == s[i].id
  {
    seq(|s|, i requires 0 <= i < |s| => s[i].id)
  }

  function PayloadLength(len: nat): nat {
    if len > HDR_SIZE then if len - HDR_SIZE > MAX_FRAME_SIZE then MAX_FRAME_SIZE else len - HDR_SIZE else 0
  }

  /** A used length is the 12-byte header and a frame of at most 1518 bytes; what is beyond that is cut off. */
  lemma PayloadInNumbers(len: nat)
    ensures len <= 12 ==> PayloadLength(len) == 0
    ensures 13 <= len <= 1530 ==> PayloadLength(len) + 12 == len
    ensures len > 1530 ==> PayloadLength(len) == 1518
  {}

  // ---------------------------------------------------------------- steps

  /** virtio_net_prepare_rx publishes every descriptor. */
  function RxInit(n: nat): Rx {
    Rx(n, seq(n, i => i), {}, [], [], None, [], [])
  }

  predicate RxEnabled(r: Rx, s: RxStep) {
    match s
    case RxTake => r.avail != []
    case RxUse(id, _) => id in r.held
    case RxIrq => true
    case RxPop => r.compl != [] && r.hand.None?
    case RxPublish => r.hand.Some?
  }

  /** The device takes the next published buffer. */
  function DeviceTake(r: Rx): Rx
    requires r.avail != []
  {
    r.(avail := r.avail[1..], held := r.held + {r.avail[0]})
  }

  /** The device fills a buffer it holds and writes it to the used ring. */
  function DeviceUse(r: Rx, id: nat, len: nat): Rx {
    r.(held := r.held - {id}, used := r.used + [Used(id, len)], log := r.log + [Used(id, len)])
  }

  /** virtio_net_handle_rx_used drains the used ring. */
  function DrainUsed(r: Rx): Rx {
    r.(compl := r.compl + r.used, used := [])
  }

  /** One round of the handler's loop. */
  function MoveOne(r: Rx): Rx
    requires r.used != []
  {
    r.(compl := r.compl + [r.used[0]], used := r.used[1..])
  }

  /** The task takes the head of the completion queue (poll, or release of a peeked buffer). */
  function Pop(r: Rx): Rx
    requires r.compl != []
  {
    r.(compl := r.compl[1..], hand := Some(r.compl[0].id), delivered := r.delivered + [r.compl[0]])
  }

  /** The task gives the buffer back to the device. */
  function Publish(r: Rx): Rx
    requires r.hand.Some?
  {
    r.(avail := r.avail + [r.hand.value], hand := None)
  }

  function RxApply(r: Rx, s: RxStep): Rx
    requires RxEnabled(r, s)
  {
    match s
    case RxTake => DeviceTake(r)
    case RxUse(id, len) => DeviceUse(r, id, len)
    case RxIrq => DrainUsed(r)
    case RxPop => Pop(r)
    case RxPublish => Publish(r)
  }

  // ---------------------------------------------------------------- ownership

  ghost function Range(n: nat): (s: set<nat>)
    ensures forall i: nat :: i in s <==> i < n
    ensures |s| == n
  {
    if n == 0 then {} else Range(n - 1) + {n - 1}
  }

  ghost function AllIds(n: nat): multiset<nat> {
    multiset(Range(n))
  }

  ghost function HandIds(r: Rx): multiset<nat> {
    if r.hand.Some? then multiset{r.hand.value} else multiset{}
  }

  /** Every descriptor id is in exactly one place, once. */
  ghost predicate Owned(r: Rx) {
    multiset(r.avail) + multiset(r.held) + multiset(Ids(r.used)) + multiset(Ids(r.compl)) + HandIds(r) == AllIds(r.n)
  }

  /** Frames are seen in the order the device used them: nothing lost, repeated or overtaken. */
  ghost predicate InOrder(r: Rx) {
    r.log == r.delivered + r.compl + r.used
  }

  lemma IdsConcat(a: seq<Used>, b: seq<Used>)
    ensures Ids(a + b) == Ids(a) + Ids(b)
    ensures multiset(Ids(a + b)) == multiset(Ids(a)) + multiset(Ids(b))
  {
    assert Ids(a + b) == Ids(a) + Ids(b);
  }

  lemma IdsHead(s: seq<Used>)
    requires s != []
    ensures multiset(Ids(s)) == multiset{s[0].id} + multiset(Ids(s[1..]))
  {
    assert Ids(s) == [s[0].id] + Ids(s[1..]);
  }

  /** The queues never hold more than the queue size between them. */
  lemma OwnedSizes(r: Rx)
    requires Owned(r)
    ensures |r.avail| + |r.held| + |r.used| + |r.compl| + (if r.hand.Some? then 1 else 0) == r.n
  {
    assert |AllIds(r.n)| == |Range(r.n)| == r.n;
    assert |multiset(r.avail)| == |r.avail| && |multiset(r.held)| == |r.held| && |multiset(Ids(r.used))| == |r.used| && |multiset(Ids(r.compl))| == |r.compl|;
  }

  lemma HeldLeavesRoom(r: Rx, id: nat)
    requires Owned(r) && id in r.held
    ensures |r.avail| + |r.used| + |r.compl| < r.n
  {
    OwnedSizes(r);
    assert r.held == r.held - {id} + {id};
  }

  /** One descriptor is in one place only. */
  lemma OwnedOnce(r: Rx, id: nat)
    requires Owned(r) && id < r.n
    ensures multiset(r.avail)[id] + multiset(r.held)[id] + multiset(Ids(r.used))[id] + multiset(Ids(r.compl))[id]
            + HandIds(r)[id] == 1
  {
    assert AllIds(r.n)[id] == 1;
  }

  lemma OwnedInRange(r: Rx)
    requires Owned(r)
    ensures forall i :: 0 <= i < |r.used| ==> r.used[i].id < r.n
    ensures forall i :: 0 <= i < |r.compl| ==> r.compl[i].id < r.n
    ensures forall id :: id in r.held ==> id < r.n
  {
    forall i | 0 <= i < |r.used| ensures r.used[i].id < r.n {
      assert Ids(r.used)[i] in multiset(Ids(r.used));
      assert r.used[i].id in AllIds(r.n);
    }
    forall i | 0 <= i < |r.compl| ensures r.compl[i].id < r.n {
      assert Ids(r.compl)[i] in multiset(Ids(r.compl));
      assert r.compl[i].id in AllIds(r.n);
    }
    forall id | id in r.held ensures id < r.n {
      assert id in AllIds(r.n);
    }
  }

  lemma TakeKeepsOwned(r: Rx)
    requires Owned(r) && r.avail != []
    ensures Owned(DeviceTake(r))
  {
    var id := r.avail[0];
    assert r.avail == [id] + r.avail[1..];
    assert AllIds(r.n)[id] <= 1;
    assert id !in r.held;
    assert multiset(r.held + {id}) == multiset(r.held) + multiset{id};
  }

  lemma UseKeepsOwned(r: Rx, id: nat, len: nat)
    requires Owned(r) && id in r.held
    ensures Owned(DeviceUse(r, id, len))
  {
    IdsConcat(r.used, [Used(id, len)]);
    assert Ids([Used(id, len)]) == [id];
    assert multiset(r.held) == multiset(r.held - {id}) + multiset{id};
  }

  lemma MoveKeepsOwned(r: Rx)
    requires Owned(r) && r.used != []
    ensures Owned(MoveOne(r)) && (InOrder(r) ==> InOrder(MoveOne(r)))
  {
    IdsHead(r.used);
    IdsConcat(r.compl, [r.used[0]]);
    assert Ids([r.used[0]]) == [r.used[0].id];
    assert r.used == [r.used[0]] + r.used[1..];
    assert r.delivered + r.compl + r.used == r.delivered + (r.compl + [r.used[0]]) + r.used[1..];
  }

  lemma DrainKeepsOwned(r: Rx)
    requires Owned(r)
    ensures Owned(DrainUsed(r))
  {
    IdsConcat(r.compl, r.used);
    assert Ids([]) == [];
  }

  lemma PopKeepsOwned(r: Rx)
    requires Owned(r) && r.compl != [] && r.hand.None?
    ensures Owned(Pop(r))
  {
    IdsHead(r.compl);
  }

  lemma StepKeepsOwned(r: Rx, s: RxStep)
    requires Owned(r) && RxEnabled(r, s)
    ensures Owned(RxApply(r, s))
  {
    match s
    case RxTake => TakeKeepsOwned(r);
    case RxUse(id, len) => UseKeepsOwned(r, id, len);
    case RxIrq => DrainKeepsOwned(r);
    case RxPop => PopKeepsOwned(r);
    case RxPublish =>
  }

  lemma StepKeepsOrder(r: Rx, s: RxStep)
    requires InOrder(r) && RxEnabled(r, s)
    ensures InOrder(RxApply(r, s))
  {}

  // ---------------------------------------------------------------- the device beside the handler

  /** Steps the device alone can take from `r` on. */
  predicate DeviceCan(r: Rx, steps: seq<RxStep>)
    decreases |steps|
  {
    steps == [] ||
    ((steps[0].RxTake? || steps[0].RxUse?) && RxEnabled(r, steps[0]) && DeviceCan(RxApply(r, steps[0]), steps[1..]))
  }

  function DeviceRun(r: Rx, steps: seq<RxStep>): (r': Rx)
    requires DeviceCan(r, steps)
    ensures r'.compl == r.compl && r'.hand == r.hand && r'.delivered == r.delivered && r'.n == r.n
    decreases |steps|
  {
    if steps == [] then r else DeviceRun(RxApply(r, steps[0]), steps[1..])
  }

  lemma {:induction false} DeviceRunConcat(r: Rx, a: seq<RxStep>, b: seq<RxStep>)
    requires DeviceCan(r, a) && DeviceCan(DeviceRun(r, a), b)
    ensures DeviceCan(r, a + b) && DeviceRun(r, a + b) == DeviceRun(DeviceRun(r, a), b)
    decreases |a|
  {
    if a == [] {
      assert a + b == b;
    } else {
      DeviceRunConcat(RxApply(r, a[0]), a[1..], b);
      assert (a + b)[1..] == a[1..] + b;
    }
  }

  lemma DeviceOne(r: Rx, s: RxStep)
    requires (s.RxTake? || s.RxUse?) && RxEnabled(r, s)
    ensures DeviceCan(r, [s]) && DeviceRun(r, [s]) == RxApply(r, s)
  {
    assert [s][1..] == [];
  }

  /** How much the device and the handler can still do between them, with no buffer given back. */
  function Work(r: Rx): nat {
    3 * |r.avail| + 2 * |r.held| + |r.used|
  }

  lemma DeviceStepWork(r: Rx, s: RxStep)
    requires (s.RxTake? || s.RxUse?) && RxEnabled(r, s)
    ensures Work(RxApply(r, s)) < Work(r)
  {
    if s.RxUse? {
      assert r.held == r.held - {s.id} + {s.id};
    } else {
      assert r.held + {r.avail[0]} == r.held || |r.held + {r.avail[0]}| == |r.held| + 1;
    }
  }

  lemma {:induction false} DeviceRunWork(r: Rx, steps: seq<RxStep>)
    requires DeviceCan(r, steps)
    ensures Work(DeviceRun(r, steps)) <= Work(r)
    decreases |steps|
  {
    if steps != [] {
      DeviceStepWork(r, steps[0]);
      DeviceRunWork(RxApply(r, steps[0]), steps[1..]);
    }
  }

  /** What the device does does not depend on how far the handler has got. */
  lemma {:induction false} DeviceBesideHandler(x: Rx, y: Rx, steps: seq<RxStep>)
    requires DrainUsed(x) == DrainUsed(y) && DeviceCan(x, steps)
    ensures DeviceCan(y, steps) && DrainUsed(DeviceRun(x, steps)) == DrainUsed(DeviceRun(y, steps))
    decreases |steps|
  {
    if steps != [] {
      var s := steps[0];
      if s.RxUse? {
        assert x.compl + (x.used + [Used(s.id, s.len)]) == (x.compl + x.used) + [Used(s.id, s.len)];
        assert y.compl + (y.used + [Used(s.id, s.len)]) == (y.compl + y.used) + [Used(s.id, s.len)];
      }
      DeviceBesideHandler(RxApply(x, s), RxApply(y, s), steps[1..]);
    }
  }

  lemma DeviceIdle(r: Rx)
    ensures DeviceCan(r, []) && DeviceRun(r, []) == r
  {}

  /** One more look of the handler, which has got from `r` to `x` while the device took the steps `acts`. */
  lemma DeviceRound(r: Rx, acts: seq<RxStep>, x: Rx, more: seq<RxStep>)
    requires DeviceCan(r, acts) && DrainUsed(x) == DrainUsed(DeviceRun(r, acts)) && DeviceCan(x, more)
    ensures DeviceCan(r, acts + more) && DrainUsed(DeviceRun(x, more)) == DrainUsed(DeviceRun(r, acts + more))
    ensures Work(DeviceRun(x, more)) <= Work(x)
  {
    hide DeviceCan, DeviceRun, DrainUsed, Work;
    DeviceRunWork(x, more);
    DeviceBesideHandler(x, DeviceRun(r, acts), more);
    DeviceRunConcat(r, acts, more);
  }

  lemma MoveThenDrain(r: Rx)
    requires r.used != []
    ensures DrainUsed(MoveOne(r)) == DrainUsed(r) && Work(MoveOne(r)) < Work(r)
    ensures |MoveOne(r).compl| == |r.compl| + 1
  {
    assert r.compl + [r.used[0]] + r.used[1..] == r.compl + ([r.used[0]] + r.used[1..]);
    assert r.used == [r.used[0]] + r.used[1..];
  }

  /** Nothing left to move: the handler has drained whatever was there. */
  lemma DrainedEmpty(r: Rx, x: Rx)
    requires x.used == [] && DrainUsed(x) == DrainUsed(r)
    ensures x == DrainUsed(r) && |x.compl| == |r.compl| + |r.used|
  {
    assert x.compl + [] == x.compl;
  }

  // ---------------------------------------------------------------- runs

  ghost predicate RxRun(r: Rx, steps: seq<RxStep>, r': Rx)
    decreases |steps|
  {
    if steps == [] then r' == r
    else RxEnabled(r, steps[0]) && RxRun(RxApply(r, steps[0]), steps[1..], r')
  }

  lemma {:induction false} RunKeepsOwned(r: Rx, steps: seq<RxStep>, r': Rx)
    requires Owned(r) && InOrder(r) && RxRun(r, steps, r')
    ensures Owned(r') && InOrder(r') && r'.n == r.n
    decreases |steps|
  {
    if steps != [] {
      StepKeepsOwned(r, steps[0]);
      StepKeepsOrder(r, steps[0]);
      RunKeepsOwned(RxApply(r, steps[0]), steps[1..], r');
    }
  }

  /**
   * In every run: descriptors are partitioned, the frames the task has popped are a prefix of those the
   * device has used, in the same order, the completion queue has room for everything unread, and
   * there is a free slot in the available ring whenever the task has a buffer to give back.
   */
  lemma RxSafety(n: nat, steps: seq<RxStep>, r: Rx)
    requires RxRun(RxInit(n), steps, r)
    ensures Owned(r) && r.n == n
    ensures r.log == r.delivered + r.compl + r.used
    ensures |r.compl| + |r.used| <= n
    ensures r.hand.Some? ==> |r.avail| < n
  {
    InitOwned(n);
    RunKeepsOwned(RxInit(n), steps, r);
    OwnedSizes(r);
  }

  lemma {:induction false} UpToIsRange(n: nat)
    ensures multiset(seq(n, i => i)) == AllIds(n)
  {
    if n > 0 {
      UpToIsRange(n - 1);
      assert seq(n, i => i) == seq(n - 1, i => i) + [n - 1];
    }
  }

  lemma InitOwned(n: nat)
    ensures Owned(RxInit(n)) && InOrder(RxInit(n))
  {
    UpToIsRange(n);
    assert Ids([]) == [];
  }
}
