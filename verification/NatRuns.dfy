/** What every run of outbound, inbound and clean-up calls keeps, and when a reply finds its session. */
module NatRuns {
  import opened Prelude
  import opened NatSpec
  import Rings

  datatype NatStep = NatOut(flow: Flow, now: tick) | NatIn(q: Query, now: tick) | NatClean(now: tick)

  /** The table, how many ports were ever allocated, and which allocation each entry had. */
  datatype History = History(n: Nat, allocs: nat, born: seq<nat>)

  predicate NatEnabled(s: NatStep) {
    s.NatIn? ==> s.q.ByReply?
  }

  /** A call that creates a session. */
  predicate Creates(n: Nat, s: NatStep)
    requires Shaped(n)
  {
    s.NatOut? && FindEntry(n, s.flow) < 0 && Scan(n.table, Free) >= 0
  }

  function NatApply(h: History, s: NatStep): History
    requires Shaped(h.n) && |h.born| == |h.n.table| && NatEnabled(s)
  {
    match s
    case NatOut(flow, now) =>
      var n' := Outbound(h.n, flow, now).0;
      if Creates(h.n, s) then History(n', h.allocs + 1, h.born[Scan(h.n.table, Free) := h.allocs]) else h.(n := n')
    case NatIn(q, now) => h.(n := Inbound(h.n, q, now).0)
    case NatClean(now) => h.(n := Cleanup(h.n, now).0)
  }

  function Start(size: nat): History {
    History(Empty(size), 0, seq(size, i => 0))
  }

  ghost predicate NatRun(h: History, steps: seq<NatStep>, h': History)
    decreases |steps|
  {
    if steps == [] then h' == h
    else
      && Shaped(h.n) && |h.born| == |h.n.table| && NatEnabled(steps[0])
      && NatRun(NatApply(h, steps[0]), steps[1..], h')
  }

  // ---------------------------------------------------------------- ports

  /** The port of the k-th allocation. */
  function PortOf(k: nat): (p: port)
    ensures PORT_START <= p <= PORT_END
  {
    PORT_START + k % PORT_COUNT
  }

  lemma AllocPortIs(n: Nat, k: nat)
    requires Shaped(n) && n.nextPort == PortOf(k)
    ensures AllocPort(n) == (PortOf(k), PortOf(k + 1))
  {
    Rings.ModOfSum(k, 1, PORT_COUNT);
  }

  /** Any 10001 consecutive allocations are pairwise distinct. */
  lemma ConsecutivePortsDiffer(a: nat, b: nat)
    requires a < b < a + PORT_COUNT
    ensures PortOf(a) != PortOf(b)
  {
    Rings.SlotsDiffer(a, b, PORT_COUNT);
  }

  // ---------------------------------------------------------------- the invariant

  ghost predicate BirthOk(h: History, i: nat)
    requires i < |h.n.table| && i < |h.born|
  {
    h.n.table[i].active ==> h.born[i] < h.allocs && h.n.table[i].wanPort == PortOf(h.born[i])
  }

  ghost predicate HistoryOk(h: History) {
    && Shaped(h.n) && Unique(h.n.table)
    && |h.born| == |h.n.table| && h.n.nextPort == PortOf(h.allocs)
    && (forall i {:trigger BirthOk(h, i)} :: 0 <= i < |h.n.table| ==> BirthOk(h, i))
    && (forall i, j :: 0 <= i < j < |h.n.table| && h.n.table[i].active && h.n.table[j].active ==> h.born[i] != h.born[j])
  }

  lemma CleanKeeps(h: History, i: nat, now: tick)
    requires HistoryOk(h) && i <= |h.n.table|
    ensures HistoryOk(h.(n := CleanUpTo(h.n, i, now).0))
    decreases i
  {
    if i > 0 {
      CleanKeeps(h, i - 1, now);
      hide OutBucket, Bucket, PortOf;
      var g := h.(n := CleanUpTo(h.n, i - 1, now).0);
      var g' := h.(n := CleanUpTo(h.n, i, now).0);
      assert g'.n == CleanAt(g.n, i - 1, now);
      forall k: nat | k < |g'.n.table| ensures BirthOk(g', k) {
        assert BirthOk(g, k);
      }
    }
  }

  lemma InsertKeeps(h: History, flow: Flow, now: tick)
    requires HistoryOk(h) && Creates(h.n, NatOut(flow, now))
    ensures HistoryOk(NatApply(h, NatOut(flow, now)))
  {
    hide OutBucket, Bucket, PortOf;
    FindEntryIsScan(h.n, flow);
    AllocPortIs(h.n, h.allocs);
    var j := Scan(h.n.table, Free);
    var h' := NatApply(h, NatOut(flow, now));
    assert h'.n == Insert(h.n, j, flow, now);
    forall k: nat | k < |h'.n.table| ensures BirthOk(h', k) {
      assert BirthOk(h, k);
    }
    forall i, k | 0 <= i < k < |h'.n.table| && h'.n.table[i].active && h'.n.table[k].active
      ensures h'.born[i] != h'.born[k] && h'.n.table[i].flow != h'.n.table[k].flow
    {
      assert BirthOk(h, i) && BirthOk(h, k);
      assert i != j ==> !Hits(h.n.table[i], ByFlow(flow));
      assert k != j ==> !Hits(h.n.table[k], ByFlow(flow));
    }
  }

  lemma TouchKeeps(h: History, i: nat, now: tick)
    requires HistoryOk(h) && i < |h.n.table|
    ensures HistoryOk(h.(n := Touch(h.n, i, now)))
  {
    hide Bucket, OutBucket, PortOf;
    var h' := h.(n := Touch(h.n, i, now));
    forall k: nat | k < |h'.n.table| ensures BirthOk(h', k) {
      assert BirthOk(h, k);
    }
  }

  lemma StepKeepsHistory(h: History, s: NatStep)
    requires HistoryOk(h) && NatEnabled(s)
    ensures HistoryOk(NatApply(h, s)) && |NatApply(h, s).n.table| == |h.n.table|
  {
    match s
    case NatOut(flow, now) =>
      if Creates(h.n, s) {
        InsertKeeps(h, flow, now);
      } else if FindEntry(h.n, flow) >= 0 {
        TouchKeeps(h, FindEntry(h.n, flow), now);
      }
    case NatIn(q, now) =>
      if FindReverse(h.n, q) >= 0 {
        TouchKeeps(h, FindReverse(h.n, q), now);
      }
    case NatClean(now) => CleanKeeps(h, |h.n.table|, now);
  }

  lemma {:induction false} RunKeepsHistory(h: History, steps: seq<NatStep>, h': History)
    requires HistoryOk(h) && NatRun(h, steps, h')
    ensures HistoryOk(h') && |h'.n.table| == |h.n.table|
    decreases |steps|
  {
    if steps != [] {
      StepKeepsHistory(h, steps[0]);
      RunKeepsHistory(NatApply(h, steps[0]), steps[1..], h');
    }
  }

  lemma StartOk(size: nat)
    requires size <= 127
    ensures HistoryOk(Start(size)) && Covered(Start(size).n)
  {
    assert PortOf(0) == PORT_START;
  }

  /** In every run there is at most one live entry per session, and the outbound look-up is the plain scan. */
  lemma OneEntryPerSession(size: nat, steps: seq<NatStep>, h: History, flow: Flow)
    requires size <= 127 && NatRun(Start(size), steps, h)
    ensures Shaped(h.n) && Unique(h.n.table)
    ensures FindEntry(h.n, flow) == Scan(h.n.table, ByFlow(flow))
  {
    StartOk(size);
    RunKeepsHistory(Start(size), steps, h);
    FindEntryIsScan(h.n, flow);
  }

  /** In every run the next allocation - the k-th, if there were k before - is port 20000 + k mod 10001. */
  lemma KthPortOfRun(size: nat, steps: seq<NatStep>, h: History, flow: Flow, now: tick)
    requires size <= 127 && NatRun(Start(size), steps, h)
    ensures Shaped(h.n) && |h.born| == |h.n.table| && h.n.nextPort == PortOf(h.allocs)
    ensures var s := NatOut(flow, now);
            Creates(h.n, s) ==>
              && Outbound(h.n, flow, now).1 == Some(PortOf(h.allocs))
              && NatApply(h, s).allocs == h.allocs + 1 && NatApply(h, s).n.nextPort == PortOf(h.allocs + 1)
  {
    StartOk(size);
    RunKeepsHistory(Start(size), steps, h);
    hide OutBucket, Bucket, PortOf;
    AllocPortIs(h.n, h.allocs);
  }

  /** Every live entry is one of the last 10001 allocations. */
  ghost predicate AllRecent(h: History) {
    forall i {:trigger h.born[i]} :: 0 <= i < |h.n.table| && i < |h.born| && h.n.table[i].active ==> h.allocs <= h.born[i] + PORT_COUNT
  }

  /** In every run: ports are in range, and entries among the last 10001 allocations have different ones. */
  lemma RecentPortsDistinct(size: nat, steps: seq<NatStep>, h: History)
    requires size <= 127 && NatRun(Start(size), steps, h)
    ensures forall i :: 0 <= i < |h.n.table| && h.n.table[i].active ==> PORT_START <= h.n.table[i].wanPort <= PORT_END
    ensures AllRecent(h) ==> DistinctPorts(h.n.table)
  {
    StartOk(size);
    RunKeepsHistory(Start(size), steps, h);
    forall i | 0 <= i < |h.n.table| && h.n.table[i].active ensures PORT_START <= h.n.table[i].wanPort <= PORT_END {
      assert BirthOk(h, i);
    }
    if AllRecent(h) {
      forall i, j | 0 <= i < j < |h.n.table| && h.n.table[i].active && h.n.table[j].active
        ensures h.n.table[i].wanPort != h.n.table[j].wanPort
      {
        assert BirthOk(h, i) && BirthOk(h, j);
        var a, b := h.born[i], h.born[j];
        if a < b { ConsecutivePortsDiffer(a, b); } else { ConsecutivePortsDiffer(b, a); }
      }
    }
  }

  // ---------------------------------------------------------------- clean-up

  /** A clean-up frees exactly the expired entries. */
  lemma {:induction false} CleanUpFrees(n: Nat, k: nat, now: tick)
    requires Shaped(n) && k <= |n.table|
    ensures var m := CleanUpTo(n, k, now).0;
            && (forall i :: 0 <= i < k ==> m.table[i] == if Expired(n.table[i], now) then n.table[i].(active := false) else n.table[i])
            && forall b :: 0 <= b < HASH_SIZE ==> m.hash[b] == n.hash[b] || m.hash[b] == -1
    decreases k
  {
    if k > 0 {
      hide OutBucket, Bucket, Expired;
      CleanUpFrees(n, k - 1, now);
    }
  }

  function ExpiredBelow(n: Nat, k: nat, now: tick): set<nat>
    requires k <= |n.table|
  {
    set i: nat | i < k && Expired(n.table[i], now)
  }

  lemma ExpiredStep(n: Nat, k: nat, now: tick)
    requires 0 < k <= |n.table|
    ensures |ExpiredBelow(n, k, now)| == |ExpiredBelow(n, k - 1, now)| + if Expired(n.table[k - 1], now) then 1 else 0
  {
    hide Expired;
    assert ExpiredBelow(n, k, now)
           == if Expired(n.table[k - 1], now) then ExpiredBelow(n, k - 1, now) + {k - 1} else ExpiredBelow(n, k - 1, now);
  }

  /** The clean-up returns how many it freed. */
  lemma {:induction false} CleanUpCounts(n: Nat, k: nat, now: tick)
    requires Shaped(n) && k <= |n.table|
    ensures CleanUpTo(n, k, now).1 == |ExpiredBelow(n, k, now)|
    decreases k
  {
    if k > 0 {
      hide Expired, CleanAt, ExpiredBelow;
      ExpiredStep(n, k, now);
      CleanUpCounts(n, k - 1, now);
    } else {
      assert ExpiredBelow(n, 0, now) == {};
    }
  }

  lemma CleanStep(n: Nat, k: nat, now: tick)
    requires Shaped(n) && 0 < k <= |n.table|
    ensures CleanUpTo(n, k, now).0 == CleanAt(CleanUpTo(n, k - 1, now).0, k - 1, now)
  {}

  /** One of the first `k` entries has expired and is indexed by reverse bucket `b`, or by outbound bucket `b`. */
  ghost predicate Clears(n: Nat, k: nat, now: tick, b: nat)
    requires k <= |n.table|
  {
    exists i: nat :: i < k && Expired(n.table[i], now) && Bucket(n.table[i].wanPort) == b
  }

  ghost predicate ClearsOut(n: Nat, k: nat, now: tick, b: nat)
    requires k <= |n.table|
  {
    exists i: nat :: i < k && Expired(n.table[i], now) && OutBucket(n.table[i].flow.protocol, n.table[i].flow.lanPort) == b
  }

  lemma ClearsStep(n: Nat, k: nat, now: tick, b: nat)
    requires 0 < k <= |n.table|
    ensures var e := n.table[k - 1];
            && (Clears(n, k, now, b) <==> Clears(n, k - 1, now, b) || (Expired(e, now) && Bucket(e.wanPort) == b))
            && (ClearsOut(n, k, now, b) <==>
                  ClearsOut(n, k - 1, now, b) || (Expired(e, now) && OutBucket(e.flow.protocol, e.flow.lanPort) == b))
  {
    hide OutBucket, Bucket, Expired;
  }

  /** A clean-up empties exactly the buckets of the expired entries, in both indices. */
  lemma {:induction false} CleanUpBuckets(n: Nat, k: nat, b: nat, now: tick)
    requires Shaped(n) && k <= |n.table| && b < HASH_SIZE
    ensures var m := CleanUpTo(n, k, now).0;
            && m.hash[b] == (if Clears(n, k, now, b) then -1 else n.hash[b])
            && m.outHash[b] == (if ClearsOut(n, k, now, b) then -1 else n.outHash[b])
    decreases k
  {
    hide OutBucket, Bucket, Expired;
    if k > 0 {
      hide CleanUpTo, Clears, ClearsOut;
      CleanStep(n, k, now);
      ClearsStep(n, k, now, b);
      CleanUpBuckets(n, k - 1, b, now);
    }
  }

  /** An expired entry's bucket is empty after the clean-up. */
  lemma CleanUpEmpties(n: Nat, i: nat, now: tick)
    requires Shaped(n) && i < |n.table| && Expired(n.table[i], now)
    ensures Cleanup(n, now).0.hash[Bucket(n.table[i].wanPort)] == -1
  {
    hide OutBucket, Bucket, Expired, CleanUpTo;
    CleanUpBuckets(n, |n.table|, Bucket(n.table[i].wanPort), now);
  }

  // ---------------------------------------------------------------- replies

  /** No live entry that the clean-up leaves shares a bucket with one that it removes. */
  predicate CleanSafe(n: Nat, now: tick) {
    forall i, j :: 0 <= i < |n.table| && 0 <= j < |n.table|
      && Expired(n.table[i], now) && n.table[j].active && !Expired(n.table[j], now)
      ==> Bucket(n.table[i].wanPort) != Bucket(n.table[j].wanPort)
  }

  /** One clean-up call keeps every live entry covered exactly when it is safe in that sense. */
  lemma CleanKeepsCoveredIff(n: Nat, now: tick)
    requires Shaped(n) && Covered(n)
    ensures Covered(Cleanup(n, now).0) <==> CleanSafe(n, now)
  {
    hide OutBucket, Bucket, Expired, CleanUpTo;
    var m := Cleanup(n, now).0;
    CleanUpFrees(n, |n.table|, now);
    if CleanSafe(n, now) {
      forall j | 0 <= j < |m.table| && m.table[j].active ensures m.hash[Bucket(m.table[j].wanPort)] >= 0 {
        assert m.table[j] == n.table[j];
        CleanUpBuckets(n, |n.table|, Bucket(n.table[j].wanPort), now);
      }
    } else {
      var i: nat, j: nat :| i < |n.table| && j < |n.table| && Expired(n.table[i], now) && n.table[j].active
        && !Expired(n.table[j], now) && Bucket(n.table[i].wanPort) == Bucket(n.table[j].wanPort);
      CleanUpEmpties(n, i, now);
      assert m.table[j] == n.table[j];
    }
  }

  ghost predicate AllCleanSafe(h: History, steps: seq<NatStep>)
    decreases |steps|
  {
    steps == [] ||
    (&& Shaped(h.n) && |h.born| == |h.n.table| && NatEnabled(steps[0])
     && (steps[0].NatClean? ==> CleanSafe(h.n, steps[0].now))
     && AllCleanSafe(NatApply(h, steps[0]), steps[1..]))
  }

  ghost predicate CoveredThroughout(h: History, steps: seq<NatStep>)
    decreases |steps|
  {
    && Shaped(h.n) && Covered(h.n)
    && (steps != [] ==>
          && |h.born| == |h.n.table| && NatEnabled(steps[0])
          && CoveredThroughout(NatApply(h, steps[0]), steps[1..]))
  }

  lemma StepKeepsCoveredIff(h: History, s: NatStep)
    requires HistoryOk(h) && Covered(h.n) && NatEnabled(s)
    ensures HistoryOk(NatApply(h, s))
    ensures Covered(NatApply(h, s).n) <==> (s.NatClean? ==> CleanSafe(h.n, s.now))
  {
    StepKeepsHistory(h, s);
    if s.NatClean? {
      CleanKeepsCoveredIff(h.n, s.now);
    } else {
      hide OutBucket, Bucket, HistoryOk, CleanSafe;
    }
  }

  /** Of all runs, exactly those whose clean-ups are all safe keep every live entry covered in every state. */
  lemma {:induction false} CoveredThroughoutIff(h: History, steps: seq<NatStep>, h': History)
    requires HistoryOk(h) && Covered(h.n) && NatRun(h, steps, h')
    ensures CoveredThroughout(h, steps) <==> AllCleanSafe(h, steps)
    ensures AllCleanSafe(h, steps) ==> HistoryOk(h') && Covered(h'.n)
    decreases |steps|
  {
    if steps != [] {
      StepKeepsCoveredIff(h, steps[0]);
      hide NatApply, CleanSafe;
      if Covered(NatApply(h, steps[0]).n) {
        CoveredThroughoutIff(NatApply(h, steps[0]), steps[1..], h');
      }
    }
  }

  /**
   * In every run whose clean-ups are safe the reverse look-up finds something exactly when the plain scan
   * does; and while live WAN ports are distinct it finds the same entry, and a reply to a live session
   * returns the LAN address and port that opened it.
   */
  lemma RepliesReachTheirSession(size: nat, steps: seq<NatStep>, h: History, i: nat, now: tick)
    requires size <= 127 && NatRun(Start(size), steps, h) && AllCleanSafe(Start(size), steps)
    requires i < |h.n.table| && h.n.table[i].active
    ensures Shaped(h.n)
    ensures forall q: Query :: q.ByReply? ==> (FindReverse(h.n, q) >= 0 <==> Scan(h.n.table, q) >= 0)
    ensures DistinctPorts(h.n.table) ==>
              && (forall q: Query :: q.ByReply? ==> FindReverse(h.n, q) == Scan(h.n.table, q))
              && var e := h.n.table[i]; Inbound(h.n, ReplyTo(e), now).1 == Some((e.flow.lanIp, e.flow.lanPort))
  {
    StartOk(size);
    CoveredThroughoutIff(Start(size), steps, h);
    ReverseIsScanIffCovered(h.n);
    if DistinctPorts(h.n.table) {
      forall q: Query | q.ByReply? ensures FindReverse(h.n, q) == Scan(h.n.table, q) {
        CoveredReverseIsScan(h.n, q);
      }
      ScanIs(h.n.table, ReplyTo(h.n.table[i]), i);
    }
  }

  /** A reply to entry `i` ends there: its bucket names it, or names no entry that fits and no earlier one fits. */
  ghost predicate Answered(n: Nat, i: nat)
    requires Shaped(n) && i < |n.table|
  {
    var q := ReplyTo(n.table[i]);
    var b := n.hash[Bucket(q.wanPort)];
    b >= 0 && if Hits(n.table[b], q) then b == i else forall j :: 0 <= j < i ==> !Hits(n.table[j], q)
  }

  /**
   * With no condition on ports: a reply to a live session returns the LAN side that opened it exactly when its
   * bucket is in use and no other live entry with the same reply key comes first.
   */
  lemma ReplyReturnsOwnSideIff(n: Nat, i: nat, now: tick)
    requires Shaped(n) && Unique(n.table) && i < |n.table| && n.table[i].active
    ensures var e := n.table[i];
            Inbound(n, ReplyTo(e), now).1 == Some((e.flow.lanIp, e.flow.lanPort)) <==> Answered(n, i)
  {
    var e, q := n.table[i], ReplyTo(n.table[i]);
    var c := FindReverse(n, q);
    assert Hits(e, q);
    if c >= 0 {
      var d := n.table[c];
      assert Hits(d, q);
      assert (d.flow.lanIp, d.flow.lanPort) == (e.flow.lanIp, e.flow.lanPort) ==> d.flow == e.flow;
    }
  }

  /** A live session with its own port gets its reply exactly when its bucket is not empty. */
  lemma ReplyArrivesIff(n: Nat, i: nat, now: tick)
    requires Shaped(n) && DistinctPorts(n.table) && i < |n.table| && n.table[i].active
    ensures var e := n.table[i];
            Inbound(n, ReplyTo(e), now).1 ==
              if n.hash[Bucket(e.wanPort)] >= 0 then Some((e.flow.lanIp, e.flow.lanPort)) else None
  {
    ReverseFindsIff(n, ReplyTo(n.table[i]));
    ScanIs(n.table, ReplyTo(n.table[i]), i);
  }

  /** A session just opened gets its reply, whatever else is in table and buckets. */
  lemma FreshSessionRoundTrip(n: Nat, flow: Flow, now: tick, later: tick)
    requires Shaped(n) && FindEntry(n, flow) < 0 && Scan(n.table, Free) >= 0
    ensures var (n', wanPort) := Outbound(n, flow, now);
            && wanPort.Some? && Shaped(n')
            && Inbound(n', ByReply(flow.protocol, wanPort.value, flow.dstIp, flow.dstPort), later).1
               == Some((flow.lanIp, flow.lanPort))
  {
    hide OutBucket, Bucket;
  }

  /**
   * The removal's comment promises to leave other entries' buckets alone; it does not. Whenever an
   * entry expires, a live one that shares its bucket stops receiving replies, though a scan finds it.
   */
  lemma SharedBucketLosesReplies(n: Nat, i: nat, j: nat, now: tick, later: tick)
    requires Shaped(n) && i < |n.table| && j < |n.table|
    requires Expired(n.table[i], now) && n.table[j].active && !Expired(n.table[j], now)
    requires Bucket(n.table[i].wanPort) == Bucket(n.table[j].wanPort)
    ensures var m := Cleanup(n, now).0;
            && m.table[j] == n.table[j] && Scan(m.table, ReplyTo(n.table[j])) >= 0
            && Inbound(m, ReplyTo(n.table[j]), later).1 == None
  {
    hide Expired;
    CleanUpFrees(n, |n.table|, now);
    CleanUpEmpties(n, i, now);
    assert Hits(Cleanup(n, now).0.table[j], ReplyTo(n.table[j]));
  }
}
