/**
 * Two runs in which a reply goes wrong. Sessions whose ports are 128 allocations apart share a bucket: when
 * the older one expires, the younger one's replies are dropped. Sessions 10001 allocations apart share a
 * port: when they also share protocol and destination, the older one's replies go to the younger one's host.
 */
module NatHazard {
  import opened Prelude
  import opened NatSpec
  import opened NatRuns

  const OLD := Flow(PROTO_UDP, Ip(192, 168, 1, 10), 4000, Ip(10, 3, 5, 1), 53)
  const NEW := Flow(PROTO_ICMP, Ip(192, 168, 1, 11), 7, Ip(10, 3, 5, 2), 7)
  const TWIN := Flow(PROTO_UDP, Ip(192, 168, 1, 11), 5000, Ip(10, 3, 5, 1), 53)

  /** A live session whose reply is dropped, although a scan of the table would find it. */
  ghost predicate Lost(h: History, i: nat) {
    && Shaped(h.n) && i < |h.n.table| && h.n.table[i].active && DistinctPorts(h.n.table)
    && Scan(h.n.table, ReplyTo(h.n.table[i])) == i
    && Inbound(h.n, ReplyTo(h.n.table[i]), h.n.table[i].lastActivity).1 == None
  }

  /** A live session whose reply is handed to another LAN host. */
  ghost predicate Misdelivered(h: History, i: nat) {
    && Shaped(h.n) && i < |h.n.table| && h.n.table[i].active
    && var reply := Inbound(h.n, ReplyTo(h.n.table[i]), h.n.table[i].lastActivity).1;
       reply.Some? && reply.value.0 != h.n.table[i].flow.lanIp
  }

  predicate OnlyFirst(table: seq<Entry>, k: nat) {
    forall i :: k <= i < |table| ==> !table[i].active
  }

  /** After `k` allocations, one a minute: the old session is live and refreshed, the other slots are free. */
  ghost predicate Burning(n: Nat, k: nat) {
    && 1 <= k <= PORT_COUNT && Shaped(n) && |n.table| >= 2
    && n.table[0] == Entry(true, OLD, 20000, 60000 * (k - 1), TIMEOUT_UDP)
    && OnlyFirst(n.table, 1) && n.nextPort == PortOf(k)
  }

  /** A run from start-up has got that far. */
  ghost predicate Burned(size: nat, k: nat, steps: seq<NatStep>, h: History) {
    NatRun(Start(size), steps, h) && Burning(h.n, k) && |h.born| == |h.n.table| == size
  }

  /** ... and a second session has just been opened. */
  ghost predicate BothOpen(n: Nat, k: nat, flow: Flow, last: tick) {
    && 1 <= k <= PORT_COUNT && Shaped(n) && |n.table| >= 2
    && n.table[0].active && n.table[0].flow == OLD && n.table[0].wanPort == 20000 && n.table[0].timeout == TIMEOUT_UDP
    && n.table[1] == Entry(true, flow, PortOf(k), last, TimeoutOf(flow.protocol))
    && OnlyFirst(n.table, 2) && n.nextPort == PortOf(k + 1)
  }

  lemma {:induction false} NatRunConcat(h: History, a: seq<NatStep>, g: History, b: seq<NatStep>, f: History)
    requires NatRun(h, a, g) && NatRun(g, b, f)
    ensures NatRun(h, a + b, f)
    decreases |a|
  {
    hide NatApply, Shaped;
    if a == [] {
      assert a + b == b;
    } else {
      NatRunConcat(NatApply(h, a[0]), a[1..], g, b, f);
      assert (a + b)[1..] == a[1..] + b;
    }
  }

  lemma RunThree(h: History, s: NatStep, t: NatStep, u: NatStep)
    requires Shaped(h.n) && |h.born| == |h.n.table| && NatEnabled(s)
    requires var g := NatApply(h, s); Shaped(g.n) && |g.born| == |g.n.table| && NatEnabled(t)
    requires var g := NatApply(NatApply(h, s), t); Shaped(g.n) && |g.born| == |g.n.table| && NatEnabled(u)
    ensures NatRun(h, [s, t, u], NatApply(NatApply(NatApply(h, s), t), u))
  {
    var g1 := NatApply(h, s);
    var g2 := NatApply(g1, t);
    var g3 := NatApply(g2, u);
    hide NatApply, Shaped;
    assert NatRun(g3, [], g3);
    assert [u][1..] == [] && NatRun(g2, [u], g3);
    assert [t, u][1..] == [u] && NatRun(g1, [t, u], g3);
    assert [s, t, u][1..] == [t, u];
  }

  /** Opening a session takes the free slot and the next port, and both its buckets. */
  lemma OpenSecond(n: Nat, k: nat, flow: Flow, now: tick)
    requires Burning(n, k) && flow != OLD
    ensures var n' := Outbound(n, flow, now).0;
            && BothOpen(n', k, flow, now) && |n'.table| == |n.table| && n'.table[0] == n.table[0]
            && n'.hash[Bucket(PortOf(k))] == 1
  {
    hide OutBucket, Bucket, PortOf, TimeoutOf;
    assert FindEntry(n, flow) < 0;
    ScanIs(n.table, Free, 1);
    AllocPortIs(n, k);
    assert Outbound(n, flow, now).0 == Insert(n, 1, flow, now);
  }

  /** Sending on a live session refreshes it and nothing else. */
  lemma Refresh(n: Nat, k: nat, flow: Flow, last: tick, i: nat, now: tick)
    requires BothOpen(n, k, flow, last) && flow != OLD && i < 2
    ensures Outbound(n, n.table[i].flow, now).0 == Touch(n, i, now)
  {
    hide OutBucket, Bucket, PortOf, TimeoutOf;
    var f := n.table[i].flow;
    assert Hits(n.table[i], ByFlow(f));
    assert forall j :: 0 <= j < |n.table| && j != i ==> !Hits(n.table[j], ByFlow(f));
    ScanIs(n.table, ByFlow(f), i);
  }

  // The history's table after an outgoing packet.
  lemma Applied(h: History, flow: Flow, now: tick)
    requires Shaped(h.n) && |h.born| == |h.n.table| && |Outbound(h.n, flow, now).0.table| == |h.n.table|
    ensures var g := NatApply(h, NatOut(flow, now)); g.n == Outbound(h.n, flow, now).0 && |g.born| == |g.n.table|
  {
    hide Outbound, Shaped;
  }

  /** A minute after it was opened the new session expires; the old one, just refreshed, does not. */
  lemma CleanNew(n: Nat, k: nat)
    requires 1 <= k <= PORT_COUNT && BothOpen(n, k, NEW, 60000 * (k - 1)) && n.table[0].lastActivity == 60000 * k
    ensures var m := Cleanup(n, 60000 * k).0;
            && Shaped(m) && |m.table| == |n.table| && m.table[0] == n.table[0] && OnlyFirst(m.table, 1)
            && m.nextPort == n.nextPort
  {
    assert Expired(n.table[1], 60000 * k) && !Expired(n.table[0], 60000 * k);
    hide OutBucket, Bucket, PortOf, Expired, CleanUpTo;
    CleanUpFrees(n, |n.table|, 60000 * k);
  }

  lemma BurnStep(h: History, k: nat)
    requires Burning(h.n, k) && |h.born| == |h.n.table| && k < PORT_COUNT
    ensures exists steps, g :: NatRun(h, steps, g) && Burning(g.n, k + 1) && |g.born| == |g.n.table| == |h.n.table|
  {
    var t := 60000 * (k - 1);
    OpenSecond(h.n, k, NEW, t);
    Applied(h, NEW, t);
    var h1 := NatApply(h, NatOut(NEW, t));
    Refresh(h1.n, k, NEW, t, 0, t + 60000);
    Applied(h1, OLD, t + 60000);
    var h2 := NatApply(h1, NatOut(OLD, t + 60000));
    CleanNew(h2.n, k);
    RunThree(h, NatOut(NEW, t), NatOut(OLD, t + 60000), NatClean(t + 60000));
    hide Outbound, Cleanup, Creates, NatRun, PortOf;
    assert Burning(NatApply(h2, NatClean(t + 60000)).n, k + 1);
  }

  lemma BurnFirst(size: nat)
    requires 2 <= size <= 127
    ensures exists steps, h :: Burned(size, 1, steps, h)
  {
    hide OutBucket, Bucket;
    var s := Start(size);
    var h := NatApply(s, NatOut(OLD, 0));
    ScanIs(s.n.table, Free, 0);
    assert Burning(h.n, 1);
    assert NatRun(h, [], h) && [NatOut(OLD, 0)][1..] == [];
    assert Burned(size, 1, [NatOut(OLD, 0)], h);
  }

  lemma BurnMore(size: nat, k: nat, next: nat, a: seq<NatStep>, g: History)
    requires k < PORT_COUNT && next == k + 1 && Burned(size, k, a, g)
    ensures exists steps, h :: Burned(size, next, steps, h)
  {
    hide NatRun, Burning, Shaped, NatApply, Start;
    BurnStep(g, k);
    var b, h :| NatRun(g, b, h) && Burning(h.n, next) && |h.born| == |h.n.table| == |g.n.table|;
    NatRunConcat(Start(size), a, g, b, h);
    assert Burned(size, next, a + b, h);
  }

  lemma {:induction false} Burn(size: nat, k: nat)
    requires 2 <= size <= 127 && 1 <= k <= PORT_COUNT
    ensures exists steps, h :: Burned(size, k, steps, h)
  {
    hide Burned;
    if k == 1 {
      BurnFirst(size);
    } else {
      Burn(size, k - 1);
      var a, g :| Burned(size, k - 1, a, g);
      BurnMore(size, k - 1, k, a, g);
    }
  }

  // ---------------------------------------------------------------- 128 allocations apart

  lemma LosesReply(n: Nat, t: nat)
    requires t == 60000 * 127 && BothOpen(n, 128, NEW, t + 119000) && n.table[0].lastActivity == t
    ensures var m := Cleanup(n, t + 120000).0;
            && Shaped(m) && |m.table| == |n.table| && m.table[1] == n.table[1] && DistinctPorts(m.table)
            && Scan(m.table, ReplyTo(m.table[1])) == 1
            && Inbound(m, ReplyTo(m.table[1]), m.table[1].lastActivity).1 == None
  {
    var now := t + 120000;
    assert Expired(n.table[0], now) && !Expired(n.table[1], now);
    hide AgeSeconds, Expired;
    assert Bucket(20000) == Bucket(PortOf(128));
    hide OutBucket, Bucket, Expired, CleanUpTo;
    SharedBucketLosesReplies(n, 0, 1, now, t + 119000);
    CleanUpFrees(n, |n.table|, now);
    ScanIs(Cleanup(n, now).0.table, ReplyTo(n.table[1]), 1);
  }

  lemma ExpireOld(g: History)
    requires Burning(g.n, 128) && |g.born| == |g.n.table|
    ensures exists steps, h :: NatRun(g, steps, h) && Lost(h, 1)
  {
    var t := 60000 * 127;
    OpenSecond(g.n, 128, NEW, t);
    Applied(g, NEW, t);
    var g1 := NatApply(g, NatOut(NEW, t));
    Refresh(g1.n, 128, NEW, t, 1, t + 119000);
    Applied(g1, NEW, t + 119000);
    var g2 := NatApply(g1, NatOut(NEW, t + 119000));
    var h := NatApply(g2, NatClean(t + 120000));
    RunThree(g, NatOut(NEW, t), NatOut(NEW, t + 119000), NatClean(t + 120000));
    LosesReply(g2.n, t);
    hide OutBucket, Bucket, FindEntry, FindReverse, Expired, CleanUpTo, Inbound, Outbound, NatRun, PortOf;
    assert Lost(h, 1);
  }

  /** For every table of two or more slots there is a run, on a clock that never wraps, that ends in a lost reply. */
  lemma LostReplyIsReachable(size: nat)
    requires 2 <= size <= 127
    ensures exists steps, h :: NatRun(Start(size), steps, h) && Lost(h, 1)
  {
    hide NatRun, Burning, Shaped, NatApply, Lost, Misdelivered, Start;
    Burn(size, 128);
    var a, g :| Burned(size, 128, a, g);
    ExpireOld(g);
    var b, h :| NatRun(g, b, h) && Lost(h, 1);
    NatRunConcat(Start(size), a, g, b, h);
  }

  // ---------------------------------------------------------------- 10001 allocations apart

  lemma TwinAnswers(n: Nat, last: tick)
    requires BothOpen(n, PORT_COUNT, TWIN, last) && n.hash[Bucket(20000)] == 1
    ensures Inbound(n, ReplyTo(n.table[0]), n.table[0].lastActivity).1 == Some((TWIN.lanIp, TWIN.lanPort))
  {
    assert PortOf(PORT_COUNT) == 20000;
  }

  lemma OpenTwin(g: History)
    requires Burning(g.n, PORT_COUNT) && |g.born| == |g.n.table|
    ensures exists steps, h :: NatRun(g, steps, h) && Misdelivered(h, 0)
  {
    var t := 60000 * (PORT_COUNT - 1);
    OpenSecond(g.n, PORT_COUNT, TWIN, t);
    Applied(g, TWIN, t);
    var h := NatApply(g, NatOut(TWIN, t));
    assert PortOf(PORT_COUNT) == 20000;
    TwinAnswers(h.n, t);
    assert NatRun(h, [], h) && [NatOut(TWIN, t)][1..] == [];
    assert NatRun(g, [NatOut(TWIN, t)], h);
    hide OutBucket, Bucket, FindReverse, Inbound, Outbound, NatRun, PortOf;
    assert Misdelivered(h, 0);
  }

  /** For every table of two or more slots there is a run in which a reply reaches another LAN host than the one it answers. */
  lemma MisdeliveryIsReachable(size: nat)
    requires 2 <= size <= 127
    ensures exists steps, h :: NatRun(Start(size), steps, h) && Misdelivered(h, 0)
  {
    hide NatRun, Burning, Shaped, NatApply, Lost, Misdelivered, Start;
    Burn(size, PORT_COUNT);
    var a, g :| Burned(size, PORT_COUNT, a, g);
    OpenTwin(g);
    var b, h :| NatRun(g, b, h) && Misdelivered(h, 0);
    NatRunConcat(Start(size), a, g, b, h);
  }
}
