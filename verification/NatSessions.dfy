/**
 * A session over its whole life: every packet of it leaves with the one port it was given, every packet and
 * every reply refreshes it, and a clean-up ends it when it has been idle for its protocol's time.
 */
module NatSessions {
  import opened Prelude
  import opened NatSpec
  import opened NatRuns

  // ---------------------------------------------------------------- one call

  /** A packet of a live session leaves with that session's own port and only refreshes it. */
  lemma LiveSessionKeepsPort(n: Nat, i: nat, now: tick)
    requires Shaped(n) && Unique(n.table) && i < |n.table| && n.table[i].active
    ensures var e := n.table[i];
            Outbound(n, e.flow, now) == (n.(table := n.table[i := e.(lastActivity := now)]), Some(e.wanPort))
  {
    FindEntryIsScan(n, n.table[i].flow);
    ScanIs(n.table, ByFlow(n.table[i].flow), i);
  }

  /** A packet is refused exactly when its session is not live and every entry is; the table then stays as it is. */
  lemma RefusedIffFull(n: Nat, flow: Flow, now: tick)
    requires Shaped(n) && Unique(n.table)
    ensures Outbound(n, flow, now).1 == None <==>
              forall i :: 0 <= i < |n.table| ==> n.table[i].active && n.table[i].flow != flow
    ensures Outbound(n, flow, now).1 == None ==> Outbound(n, flow, now).0 == n
  {
    FindEntryIsScan(n, flow);
    var i, j := Scan(n.table, ByFlow(flow)), Scan(n.table, Free);
    if i < 0 && j < 0 {
      forall k | 0 <= k < |n.table| ensures n.table[k].active && n.table[k].flow != flow {
        assert !Hits(n.table[k], Free) && !Hits(n.table[k], ByFlow(flow));
      }
    }
  }

  /** A packet that comes in for no session changes nothing; one that comes in for a session refreshes it and nothing else. */
  lemma InboundEffect(n: Nat, q: Query, now: tick)
    requires Shaped(n) && q.ByReply?
    ensures var (n', lan) := Inbound(n, q, now);
            var i := FindReverse(n, q);
            && (lan == None ==> n' == n)
            && (lan.Some? ==>
                  && 0 <= i < |n.table| && Hits(n.table[i], q)
                  && lan == Some((n.table[i].flow.lanIp, n.table[i].flow.lanPort))
                  && n' == n.(table := n.table[i := n.table[i].(lastActivity := now)]))
  {}

  /**
   * Opening a session points its reverse bucket and its outbound bucket at the new entry and touches no other, so
   * the next packet and the next reply find it without a scan.
   */
  lemma OpeningSetsBuckets(n: Nat, flow: Flow, now: tick)
    requires Shaped(n) && FindEntry(n, flow) < 0 && Scan(n.table, Free) >= 0
    ensures var (n', p) := Outbound(n, flow, now);
            var i := Scan(n.table, Free);
            && p.Some? && Shaped(n') && i < |n'.table|
            && n'.hash == n.hash[Bucket(p.value) := i] && n'.outHash == n.outHash[OutBucket(flow.protocol, flow.lanPort) := i]
            && FindEntry(n', flow) == i
            && FindReverse(n', ByReply(flow.protocol, p.value, flow.dstIp, flow.dstPort)) == i
            && n'.table == n.table[i := n'.table[i]]
  {
    hide Bucket, OutBucket;
  }

  // ---------------------------------------------------------------- one port for all packets

  /** The entry is live in every state of the run. */
  ghost predicate StaysLive(h: History, steps: seq<NatStep>, i: nat)
    decreases |steps|
  {
    && i < |h.n.table| && h.n.table[i].active
    && (steps != [] ==>
          && Shaped(h.n) && |h.born| == |h.n.table| && NatEnabled(steps[0])
          && StaysLive(NatApply(h, steps[0]), steps[1..], i))
  }

  /** Every packet of `flow` in the run leaves with port `p`. */
  ghost predicate AllLeaveWith(h: History, steps: seq<NatStep>, flow: Flow, p: port)
    decreases |steps|
  {
    steps != [] ==>
      && Shaped(h.n) && |h.born| == |h.n.table| && NatEnabled(steps[0])
      && (steps[0].NatOut? && steps[0].flow == flow ==> Outbound(h.n, flow, steps[0].now).1 == Some(p))
      && AllLeaveWith(NatApply(h, steps[0]), steps[1..], flow, p)
  }

  lemma StepKeepsSession(h: History, s: NatStep, i: nat)
    requires HistoryOk(h) && NatEnabled(s) && i < |h.n.table| && h.n.table[i].active
    ensures HistoryOk(NatApply(h, s)) && i < |NatApply(h, s).n.table|
    ensures var e, e' := h.n.table[i], NatApply(h, s).n.table[i];
            e'.active ==> e'.flow == e.flow && e'.wanPort == e.wanPort && e'.timeout == e.timeout
    ensures NatApply(h, s).born[i] == h.born[i]
  {
    StepKeepsHistory(h, s);
    hide HistoryOk, OutBucket, Bucket, Expired, CleanUpTo;
    if s.NatClean? {
      CleanUpFrees(h.n, |h.n.table|, s.now);
    }
  }

  /**
   * As long as a session lives, all its packets leave with the port it has, and its entry keeps flow, port and
   * place. A reply to that port then returns the LAN side under the condition that holds for any reply.
   */
  lemma {:induction false} SessionKeepsPort(h: History, steps: seq<NatStep>, h': History, i: nat)
    requires HistoryOk(h) && NatRun(h, steps, h') && StaysLive(h, steps, i)
    ensures AllLeaveWith(h, steps, h.n.table[i].flow, h.n.table[i].wanPort)
    ensures HistoryOk(h') && i < |h'.n.table| && h'.n.table[i].active
    ensures h'.n.table[i].flow == h.n.table[i].flow && h'.n.table[i].wanPort == h.n.table[i].wanPort
    decreases |steps|
  {
    if steps != [] {
      StepKeepsSession(h, steps[0], i);
      if steps[0].NatOut? && steps[0].flow == h.n.table[i].flow {
        LiveSessionKeepsPort(h.n, i, steps[0].now);
      }
      hide HistoryOk, NatApply, Outbound;
      SessionKeepsPort(NatApply(h, steps[0]), steps[1..], h', i);
    }
  }

  lemma OpensAt(h: History, flow: Flow, now: tick)
    requires HistoryOk(h) && Creates(h.n, NatOut(flow, now))
    ensures var g, j := NatApply(h, NatOut(flow, now)), Scan(h.n.table, Free);
            && HistoryOk(g) && 0 <= j < |g.n.table| && g.n.table[j].active
            && g.n.table[j].flow == flow && Outbound(h.n, flow, now).1 == Some(g.n.table[j].wanPort)
  {
    StepKeepsHistory(h, NatOut(flow, now));
    hide HistoryOk, OutBucket, Bucket;
  }

  /**
   * From the packet that opens a session on, through any run in which the session is not cleaned up: every packet
   * of it leaves with the first packet's port, so does the next one, and a reply to that port then returns the
   * LAN side that opened it exactly when its bucket is in use and no other live entry with the same reply key
   * comes first.
   */
  lemma OnePortPerSession(size: nat, a: seq<NatStep>, h: History, flow: Flow, now: tick, b: seq<NatStep>, h': History, later: tick)
    requires size <= 127 && NatRun(Start(size), a, h) && Shaped(h.n) && |h.born| == |h.n.table| && Creates(h.n, NatOut(flow, now))
    requires var g := NatApply(h, NatOut(flow, now)); NatRun(g, b, h') && StaysLive(g, b, Scan(h.n.table, Free))
    ensures var g, j := NatApply(h, NatOut(flow, now)), Scan(h.n.table, Free);
            var p := Outbound(h.n, flow, now).1;
            && p.Some? && AllLeaveWith(g, b, flow, p.value)
            && Shaped(h'.n) && Outbound(h'.n, flow, later).1 == p
            && 0 <= j < |h'.n.table|
            && var reply := Inbound(h'.n, ByReply(flow.protocol, p.value, flow.dstIp, flow.dstPort), later).1;
               (reply == Some((flow.lanIp, flow.lanPort)) <==> Answered(h'.n, j))
  {
    StartOk(size);
    RunKeepsHistory(Start(size), a, h);
    OpensAt(h, flow, now);
    var g, j := NatApply(h, NatOut(flow, now)), Scan(h.n.table, Free);
    SessionKeepsPort(g, b, h', j);
    hide NatApply, Creates, NatRun, Answered, Outbound, Inbound;
    LiveSessionKeepsPort(h'.n, j, later);
    ReplyReturnsOwnSideIff(h'.n, j, later);
  }

  // ---------------------------------------------------------------- idle time

  /** The call uses entry `i`: a packet of its session, or a reply that the look-up finds it for. */
  predicate Uses(h: History, s: NatStep, i: nat)
    requires Shaped(h.n) && |h.born| == |h.n.table| && NatEnabled(s)
  {
    match s
    case NatOut(flow, now) => i < |NatApply(h, s).n.table| && NatApply(h, s).n.table[i].active && NatApply(h, s).n.table[i].flow == flow
    case NatIn(q, now) => FindReverse(h.n, q) == i
    case NatClean(_) => false
  }

  /** The time of the last call in the run that used entry `i`, or `t` if there is none. */
  ghost function LastUse(h: History, steps: seq<NatStep>, i: nat, t: tick): tick
    decreases |steps|
  {
    if steps == [] || !Shaped(h.n) || |h.born| != |h.n.table| || !NatEnabled(steps[0]) then t
    else LastUse(NatApply(h, steps[0]), steps[1..], i, if Uses(h, steps[0], i) then steps[0].now else t)
  }

  /** Seconds of idleness after which a session of a protocol ends: 1 is ICMP, 17 UDP and 6 TCP. */
  function IdleLimit(protocol: byte): nat {
    match protocol
    case 1 => 60
    case 17 => 120
    case 6 => 60
    case _ => 120
  }

  ghost predicate LimitsOk(table: seq<Entry>) {
    forall i :: 0 <= i < |table| && table[i].active ==> table[i].timeout == IdleLimit(table[i].flow.protocol)
  }

  lemma StepStamps(h: History, s: NatStep, i: nat)
    requires HistoryOk(h) && NatEnabled(s) && LimitsOk(h.n.table) && i < |h.n.table|
    ensures var g := NatApply(h, s);
            && LimitsOk(g.n.table) && |g.n.table| == |h.n.table|
            && (g.n.table[i].active ==>
                  if Uses(h, s, i) then g.n.table[i].lastActivity == s.now
                  else h.n.table[i].active && g.n.table[i].lastActivity == h.n.table[i].lastActivity)
  {
    StepKeepsHistory(h, s);
    hide OutBucket, Bucket, Expired, CleanUpTo;
    match s
    case NatOut(flow, now) => FindEntryIsScan(h.n, flow);
    case NatIn(q, now) =>
    case NatClean(now) => CleanUpFrees(h.n, |h.n.table|, now);
  }

  lemma {:induction false} RunStamps(h: History, steps: seq<NatStep>, h': History, i: nat, t: tick)
    requires HistoryOk(h) && LimitsOk(h.n.table) && NatRun(h, steps, h') && i < |h.n.table|
    requires h.n.table[i].active ==> h.n.table[i].lastActivity == t
    ensures HistoryOk(h') && LimitsOk(h'.n.table) && i < |h'.n.table|
    ensures h'.n.table[i].active ==> h'.n.table[i].lastActivity == LastUse(h, steps, i, t)
    decreases |steps|
  {
    if steps != [] {
      StepStamps(h, steps[0], i);
      StepKeepsHistory(h, steps[0]);
      hide HistoryOk, LimitsOk, NatApply, Uses;
      RunStamps(NatApply(h, steps[0]), steps[1..], h', i, if Uses(h, steps[0], i) then steps[0].now else t);
    }
  }

  /** One clean-up on one entry, in numbers: whole seconds between the two ticks, and the wrapped clock. */
  lemma FreedInNumbers(n: Nat, i: nat, now: tick)
    requires Shaped(n) && i < |n.table| && n.table[i].active && n.table[i].timeout <= 120
    ensures var e, m := n.table[i], Cleanup(n, now).0;
            && |m.table| == |n.table| && m.table[i] == e.(active := m.table[i].active)
            && (m.table[i].active <==> e.lastActivity / 1000 <= now / 1000 && now / 1000 - e.lastActivity / 1000 < e.timeout)
  {
    CleanUpFrees(n, |n.table|, now);
    assert 0 <= now / 1000 < 4294968 && 0 <= n.table[i].lastActivity / 1000 < 4294968;
  }

  function Live(table: seq<Entry>): set<nat> {
    set i: nat | i < |table| && table[i].active
  }

  /** The number a clean-up returns is that of the sessions it ended. */
  lemma CleanUpReturnsEnded(n: Nat, now: tick)
    requires Shaped(n)
    ensures var (m, removed) := Cleanup(n, now); removed == |Live(n.table)| - |Live(m.table)|
  {
    CleanUpFrees(n, |n.table|, now);
    CleanUpCounts(n, |n.table|, now);
    var m := Cleanup(n, now).0;
    var ended := ExpiredBelow(n, |n.table|, now);
    hide CleanUpTo;
    assert Live(n.table) == Live(m.table) + ended && Live(m.table) !! ended;
  }

  /**
   * In every run: a clean-up keeps a live session exactly when the clock has not wrapped to an earlier second since
   * the last packet or reply that used it, and fewer whole seconds than its protocol's limit have passed: 60 for ICMP, 120
   * for UDP, 60 for TCP, 120 for anything else. Ending it changes nothing in its entry but that it is free.
   */
  lemma CleanUpEndsIdleSessions(size: nat, steps: seq<NatStep>, h: History, i: nat, now: tick)
    requires size <= 127 && NatRun(Start(size), steps, h) && i < |h.n.table| && h.n.table[i].active
    ensures Shaped(h.n)
    ensures var e, m, used := h.n.table[i], Cleanup(h.n, now).0, LastUse(Start(size), steps, i, 0);
            && e.lastActivity == used && e.timeout == IdleLimit(e.flow.protocol)
            && |m.table| == |h.n.table| && m.table[i] == e.(active := m.table[i].active)
            && (m.table[i].active <==> used / 1000 <= now / 1000 && now / 1000 - used / 1000 < IdleLimit(e.flow.protocol))
  {
    StartOk(size);
    RunKeepsHistory(Start(size), steps, h);
    RunStamps(Start(size), steps, h, i, 0);
    hide NatRun, LastUse, Cleanup;
    FreedInNumbers(h.n, i, now);
  }
}
