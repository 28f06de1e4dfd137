/**
 * One transmit queue: the frames the driver has published and the device has yet to send, in order.
 * The device is an environment that completes buffers in the order they were made available.
 */
module TxSpec {
  import opened Prelude
  import Rings

  const TX_HDR: nat := 12
  const TX_MAX_FRAME: nat := 1518
  const TX_BATCH: nat := 16

  type Frame = seq<byte>

  datatype Tx = Tx(
    n: nat,                  // tx_queue_size
    wire: seq<Frame>,        // what the device has sent
    pending: seq<Frame>,     // what it owns: published, not yet used
    unnotified: nat          // frames published since the last notification
  )

  datatype TxStep = TxComplete | TxSend(frame: Frame) | TxFlush

  predicate LegalFrame(frame: Frame) {
    0 < |frame| <= TX_MAX_FRAME
  }

  /** virtio_net_prepare_tx */
  function TxInit(n: nat): Tx {
    Tx(n, [], [], 0)
  }

  function Complete(t: Tx): Tx
    requires t.pending != []
  {
    t.(wire := t.wire + [t.pending[0]], pending := t.pending[1..])
  }

  function CompleteSome(t: Tx, k: nat): (u: Tx)
    requires k <= |t.pending|
    ensures |u.pending| == |t.pending| - k
  {
    t.(wire := t.wire + t.pending[..k], pending := t.pending[k..])
  }

  /** The send path keeps one slot of the ring free. */
  predicate HasRoom(t: Tx) {
    |t.pending| + 2 <= t.n
  }

  function Send(t: Tx, frame: Frame): Tx {
    t.(pending := t.pending + [frame], unnotified := if t.unnotified + 1 >= TX_BATCH then 0 else t.unnotified + 1)
  }

  function Flush(t: Tx): Tx {
    t.(unnotified := 0)
  }

  predicate TxEnabled(t: Tx, s: TxStep) {
    match s
    case TxComplete => t.pending != []
    case TxSend(frame) => LegalFrame(frame) && HasRoom(t)
    case TxFlush => true
  }

  function TxApply(t: Tx, s: TxStep): Tx
    requires TxEnabled(t, s)
  {
    match s
    case TxComplete => Complete(t)
    case TxSend(frame) => Send(t, frame)
    case TxFlush => Flush(t)
  }

  // ---------------------------------------------------------------- runs

  ghost predicate TxRun(t: Tx, steps: seq<TxStep>, t': Tx)
    decreases |steps|
  {
    if steps == [] then t' == t
    else TxEnabled(t, steps[0]) && TxRun(TxApply(t, steps[0]), steps[1..], t')
  }

  /** The frames of a run's successful sends. */
  function Accepted(steps: seq<TxStep>): seq<Frame> {
    if steps == [] then []
    else (if steps[0].TxSend? then [steps[0].frame] else []) + Accepted(steps[1..])
  }

  predicate TxOk(t: Tx) {
    (t.pending != [] ==> |t.pending| < t.n) && t.unnotified < TX_BATCH
  }

  lemma StepKeepsTx(t: Tx, s: TxStep)
    requires TxEnabled(t, s) && TxOk(t)
    ensures var u := TxApply(t, s); TxOk(u) && u.n == t.n && u.wire + u.pending == t.wire + t.pending + Accepted([s])
  {
    assert Accepted([]) == [] && [s][1..] == [];
    assert s.TxComplete? ==> t.pending == [t.pending[0]] + t.pending[1..];
  }

  lemma {:induction false} TxRunKeeps(t: Tx, steps: seq<TxStep>, t': Tx)
    requires TxRun(t, steps, t') && TxOk(t)
    ensures TxOk(t') && t'.n == t.n && t'.wire + t'.pending == t.wire + t.pending + Accepted(steps)
    decreases |steps|
  {
    if steps == [] {
      assert t.wire + t.pending + [] == t.wire + t.pending;
    } else {
      hide TxOk;
      var u := TxApply(t, steps[0]);
      StepKeepsTx(t, steps[0]);
      TxRunKeeps(u, steps[1..], t');
      AcceptedHead(steps);
      assert u.wire + u.pending + Accepted(steps[1..]) == t.wire + t.pending + (Accepted([steps[0]]) + Accepted(steps[1..]));
    }
  }

  lemma AcceptedHead(steps: seq<TxStep>)
    requires steps != []
    ensures Accepted(steps) == Accepted([steps[0]]) + Accepted(steps[1..])
  {
    assert [steps[0]][1..] == [];
  }

  /** The frames accepted since the last flush, `k` before the run. */
  function SinceFlush(steps: seq<TxStep>, k: nat): nat
    decreases |steps|
  {
    if steps == [] then k
    else SinceFlush(steps[1..], if steps[0].TxFlush? then 0 else if steps[0].TxSend? then k + 1 else k)
  }

  lemma {:induction false} BatchRun(t: Tx, steps: seq<TxStep>, t': Tx, k: nat)
    requires TxRun(t, steps, t') && t.unnotified == k % 16
    ensures t'.unnotified == SinceFlush(steps, k) % 16
    decreases |steps|
  {
    if steps != [] {
      Rings.ModOfSum(k, 1, 16);
      BatchRun(TxApply(t, steps[0]), steps[1..], t', if steps[0].TxFlush? then 0 else if steps[0].TxSend? then k + 1 else k);
    }
  }

  /**
   * In every run: the device sends exactly the accepted frames, in order and once each; those not yet sent are
   * still in its ring, which always has a free slot; and it is notified at every flush and at every sixteenth
   * frame after one.
   */
  lemma TxSafety(n: nat, steps: seq<TxStep>, t: Tx)
    requires TxRun(TxInit(n), steps, t)
    ensures t.wire + t.pending == Accepted(steps)
    ensures t.pending != [] ==> |t.pending| < n
    ensures t.unnotified == SinceFlush(steps, 0) % 16
  {
    TxRunKeeps(TxInit(n), steps, t);
    BatchRun(TxInit(n), steps, t, 0);
    assert [] + [] + Accepted(steps) == Accepted(steps);
  }

  /** A send is possible exactly for 1 to 1518 bytes, while two slots of the ring are free. */
  lemma SendEnabledIff(t: Tx, frame: Frame)
    ensures TxEnabled(t, TxSend(frame)) <==> 1 <= |frame| <= 1518 && t.n - |t.pending| >= 2
  {}

  lemma CompleteMore(t: Tx, k: nat)
    requires k < |t.pending|
    ensures CompleteSome(t, k).pending != [] && Complete(CompleteSome(t, k)) == CompleteSome(t, k + 1)
  {
    assert t.pending[..k + 1] == t.pending[..k] + [t.pending[k]];
    assert t.wire + (t.pending[..k] + [t.pending[k]]) == t.wire + t.pending[..k] + [t.pending[k]];
  }

  lemma CompleteNone(t: Tx)
    ensures CompleteSome(t, 0) == t
  {
    assert t.wire + [] == t.wire;
  }

  lemma CompleteTwice(t: Tx, j: nat, k: nat)
    requires j + k <= |t.pending|
    ensures CompleteSome(CompleteSome(t, j), k) == CompleteSome(t, j + k)
  {
    assert t.pending[..j] + t.pending[j..][..k] == t.pending[..j + k];
    assert t.wire + (t.pending[..j] + t.pending[j..][..k]) == t.wire + t.pending[..j] + t.pending[j..][..k];
    assert t.pending[j..][k..] == t.pending[j + k..];
  }
}
