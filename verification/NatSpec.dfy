/**
 * The translation table with its two hash indices, as a value: what each operation does, and when the
 * indices agree with a plain scan of the table.
 */
module NatSpec {
  import opened Prelude

  type port = p: int | 0 <= p < 0x1_0000
  type tick = t: int | 0 <= t < 0x1_0000_0000

  const HASH_SIZE: nat := 128
  const PORT_START: nat := 20000
  const PORT_END: nat := 30000
  const PORT_COUNT: nat := PORT_END - PORT_START + 1
  const PROTO_ICMP: byte := 1
  const PROTO_TCP: byte := 6
  const PROTO_UDP: byte := 17
  const TIMEOUT_ICMP: nat := 60
  const TIMEOUT_UDP: nat := 120
  const TIMEOUT_TCP_INIT: nat := 60

  datatype Ip = Ip(b0: byte, b1: byte, b2: byte, b3: byte)

  /** What identifies a session from the LAN side. */
  datatype Flow = Flow(protocol: byte, lanIp: Ip, lanPort: port, dstIp: Ip, dstPort: port)

  datatype Entry = Entry(active: bool, flow: Flow, wanPort: port, lastActivity: tick, timeout: nat)

  /** The table and its indices; a bucket holds a table index, or -1. */
  datatype Nat = Nat(table: seq<Entry>, hash: seq<int>, outHash: seq<int>, nextPort: port)

  const NO_FLOW := Flow(0, Ip(0, 0, 0, 0), 0, Ip(0, 0, 0, 0), 0)
  const NO_ENTRY := Entry(false, NO_FLOW, 0, 0, 0)

  function Empty(size: nat): Nat {
    Nat(seq(size, i => NO_ENTRY), seq(HASH_SIZE, i => -1), seq(HASH_SIZE, i => -1), PORT_START)
  }

  /** What a search of the table looks for. */
  datatype Query =
    | ByFlow(flow: Flow)
    | ByReply(protocol: byte, wanPort: port, srcIp: Ip, srcPort: port)
    | Free

  predicate Hits(e: Entry, q: Query) {
    match q
    case ByFlow(flow) => e.active && e.flow == flow
    case ByReply(protocol, wanPort, srcIp, srcPort) =>
      e.active && e.flow.protocol == protocol && e.wanPort == wanPort && e.flow.dstIp == srcIp && e.flow.dstPort == srcPort
    case Free => !e.active
  }

  /** The first entry that a query hits, or -1. */
  function Scan(table: seq<Entry>, q: Query): (i: int)
    ensures -1 <= i < |table|
    ensures i >= 0 ==> Hits(table[i], q) && forall j :: 0 <= j < i ==> !Hits(table[j], q)
    ensures i == -1 ==> forall j :: 0 <= j < |table| ==> !Hits(table[j], q)
  {
    if table == [] then -1
    else
      var i := Scan(table[..|table| - 1], q);
      if i >= 0 then i
      else if Hits(table[|table| - 1], q) then |table| - 1
      else -1
  }

  /** The scan's result is the only one that fits. */
  lemma ScanIs(table: seq<Entry>, q: Query, i: int)
    requires -1 <= i < |table|
    requires i >= 0 ==> Hits(table[i], q) && forall j :: 0 <= j < i ==> !Hits(table[j], q)
    requires i == -1 ==> forall j :: 0 <= j < |table| ==> !Hits(table[j], q)
    ensures Scan(table, q) == i
  {}

  function Bucket(wanPort: port): (b: nat)
    ensures b < HASH_SIZE
  {
    wanPort % HASH_SIZE
  }

  function OutBucket(protocol: byte, lanPort: port): (b: nat)
    ensures b < HASH_SIZE
  {
    var key := ((protocol as bv16) << 8) ^ (lanPort as bv16);
    (key & 0x7F) as nat
  }

  /** Ports share a reverse bucket exactly when they are a multiple of 128 apart. */
  lemma SharedBucketIff(a: port, b: port)
    ensures Bucket(a) == Bucket(b) <==> a % 128 == b % 128
  {}

  /**
   * The shift moves the protocol out of the bits the mask keeps: sessions share an outbound bucket exactly when
   * their LAN ports agree in the low seven bits, whatever their protocols.
   */
  lemma OutBucketIgnoresProtocol(p: byte, a: port, q: byte, b: port)
    ensures OutBucket(p, a) == OutBucket(q, b) <==> (a as bv16) & 0x7F == (b as bv16) & 0x7F
  {
    assert (((p as bv16) << 8) ^ (a as bv16)) & 0x7F == (a as bv16) & 0x7F;
    assert (((q as bv16) << 8) ^ (b as bv16)) & 0x7F == (b as bv16) & 0x7F;
  }

  /** The tables have their sizes, and buckets point into the table. */
  ghost predicate Shaped(n: Nat) {
    && |n.table| <= 127 && |n.hash| == HASH_SIZE && |n.outHash| == HASH_SIZE
    && (forall b :: 0 <= b < HASH_SIZE ==> -1 <= n.hash[b] < |n.table|)
    && (forall b :: 0 <= b < HASH_SIZE ==> -1 <= n.outHash[b] < |n.table|)
    && PORT_START <= n.nextPort <= PORT_END
  }

  // ---------------------------------------------------------------- look-ups

  /** nat_find_entry: the hinted entry if it fits, else the scan. */
  function FindEntry(n: Nat, flow: Flow): int
    requires Shaped(n)
  {
    var i := n.outHash[OutBucket(flow.protocol, flow.lanPort)];
    if i >= 0 && Hits(n.table[i], ByFlow(flow)) then i else Scan(n.table, ByFlow(flow))
  }

  /** nat_find_reverse_entry: nothing if the bucket is empty, the hinted entry if it fits, else the scan. */
  function FindReverse(n: Nat, q: Query): int
    requires Shaped(n) && q.ByReply?
  {
    var i := n.hash[Bucket(q.wanPort)];
    if i < 0 then -1
    else if Hits(n.table[i], q) then i
    else Scan(n.table, q)
  }

  // ---------------------------------------------------------------- operations

  function AllocPort(n: Nat): (port, port)
    requires Shaped(n)
  {
    (n.nextPort, if n.nextPort + 1 > PORT_END then PORT_START else n.nextPort + 1)
  }

  function TimeoutOf(protocol: byte): nat {
    if protocol == PROTO_ICMP then TIMEOUT_ICMP
    else if protocol == PROTO_UDP then TIMEOUT_UDP
    else if protocol == PROTO_TCP then TIMEOUT_TCP_INIT
    else TIMEOUT_UDP
  }

  function Touch(n: Nat, i: nat, now: tick): Nat
    requires i < |n.table|
  {
    n.(table := n.table[i := n.table[i].(lastActivity := now)])
  }

  /** A new entry in a free slot, and both buckets pointing to it. */
  function Insert(n: Nat, i: nat, flow: Flow, now: tick): Nat
    requires Shaped(n) && i < |n.table|
  {
    var (wanPort, next) := AllocPort(n);
    Nat(n.table[i := Entry(true, flow, wanPort, now, TimeoutOf(flow.protocol))],
        n.hash[Bucket(wanPort) := i],
        n.outHash[OutBucket(flow.protocol, flow.lanPort) := i],
        next)
  }

  /** nat_translate_outbound: the new table, and the WAN port unless the table is full. */
  function Outbound(n: Nat, flow: Flow, now: tick): (Nat, Option<port>)
    requires Shaped(n)
  {
    var i := FindEntry(n, flow);
    if i >= 0 then (Touch(n, i, now), Some(n.table[i].wanPort))
    else
      var j := Scan(n.table, Free);
      if j < 0 then (n, None) else (Insert(n, j, flow, now), Some(n.nextPort))
  }

  /** nat_translate_inbound: the new table, and the LAN address and port if a session was found. */
  function Inbound(n: Nat, q: Query, now: tick): (Nat, Option<(Ip, port)>)
    requires Shaped(n) && q.ByReply?
  {
    var i := FindReverse(n, q);
    if i < 0 then (n, None) else (Touch(n, i, now), Some((n.table[i].flow.lanIp, n.table[i].flow.lanPort)))
  }

  /** The age in whole seconds, in 32 bits. */
  function AgeSeconds(now: tick, then_: tick): nat {
    (now / 1000 - then_ / 1000) % 0x1_0000_0000
  }

  predicate Expired(e: Entry, now: tick) {
    e.active && AgeSeconds(now, e.lastActivity) >= e.timeout
  }

  /** Empties the entry's buckets, whatever they hold, and frees the entry. */
  function RemoveAt(n: Nat, i: nat): Nat
    requires Shaped(n) && i < |n.table|
  {
    var e := n.table[i];
    n.(table := n.table[i := e.(active := false)],
       hash := n.hash[Bucket(e.wanPort) := -1],
       outHash := n.outHash[OutBucket(e.flow.protocol, e.flow.lanPort) := -1])
  }

  /** One step of the clean-up loop. */
  function CleanAt(n: Nat, i: nat, now: tick): Nat
    requires Shaped(n) && i < |n.table|
  {
    if Expired(n.table[i], now) then RemoveAt(n, i) else n
  }

  /** nat_cleanup_expired after the first `i` entries: the table, and how many were removed. */
  function CleanUpTo(n: Nat, i: nat, now: tick): (r: (Nat, nat))
    requires Shaped(n) && i <= |n.table|
    ensures Shaped(r.0) && |r.0.table| == |n.table| && r.0.nextPort == n.nextPort
    ensures forall j :: i <= j < |n.table| ==> r.0.table[j] == n.table[j]
    decreases i
  {
    if i == 0 then (n, 0)
    else
      var (m, removed) := CleanUpTo(n, i - 1, now);
      (CleanAt(m, i - 1, now), if Expired(m.table[i - 1], now) then removed + 1 else removed)
  }

  function Cleanup(n: Nat, now: tick): (Nat, nat)
    requires Shaped(n)
  {
    CleanUpTo(n, |n.table|, now)
  }

  // ---------------------------------------------------------------- outbound look-up

  /** At most one live entry per session. */
  ghost predicate Unique(table: seq<Entry>) {
    forall i, j :: 0 <= i < j < |table| && table[i].active && table[j].active ==> table[i].flow != table[j].flow
  }

  /** Whatever the outbound buckets hold - stale, overwritten or empty - the look-up is the plain scan. */
  lemma FindEntryIsScan(n: Nat, flow: Flow)
    requires Shaped(n) && Unique(n.table)
    ensures FindEntry(n, flow) == Scan(n.table, ByFlow(flow))
  {
    hide OutBucket;
    var i := n.outHash[OutBucket(flow.protocol, flow.lanPort)];
    if i >= 0 && Hits(n.table[i], ByFlow(flow)) {
      ScanIs(n.table, ByFlow(flow), i);
    }
  }

  // ---------------------------------------------------------------- reverse look-up

  /** Every live entry's bucket holds something. */
  ghost predicate Covered(n: Nat)
    requires Shaped(n)
  {
    forall i {:trigger n.table[i]} :: 0 <= i < |n.table| && n.table[i].active ==> n.hash[Bucket(n.table[i].wanPort)] >= 0
  }

  /** No two live entries have the same WAN port. */
  ghost predicate DistinctPorts(table: seq<Entry>) {
    forall i, j :: 0 <= i < j < |table| && table[i].active && table[j].active ==> table[i].wanPort != table[j].wanPort
  }

  function ReplyTo(e: Entry): Query {
    ByReply(e.flow.protocol, e.wanPort, e.flow.dstIp, e.flow.dstPort)
  }

  /** One query: the hashed look-up finds something exactly when the scan does and the bucket is not empty. */
  lemma ReverseFindsIff(n: Nat, q: Query)
    requires Shaped(n) && q.ByReply?
    ensures FindReverse(n, q) >= 0 <==> Scan(n.table, q) >= 0 && n.hash[Bucket(q.wanPort)] >= 0
    ensures DistinctPorts(n.table) && FindReverse(n, q) >= 0 ==> FindReverse(n, q) == Scan(n.table, q)
  {
    var i := n.hash[Bucket(q.wanPort)];
    if i >= 0 && Hits(n.table[i], q) && DistinctPorts(n.table) {
      ScanIs(n.table, q, i);
    }
  }

  /** All queries: the hashed look-up finds what the scan finds exactly when every live entry is covered. */
  lemma ReverseIsScanIffCovered(n: Nat)
    requires Shaped(n)
    ensures Covered(n) <==> forall q: Query {:trigger FindReverse(n, q)} :: q.ByReply? ==> (FindReverse(n, q) >= 0 <==> Scan(n.table, q) >= 0)
  {
    if Covered(n) {
      forall q: Query | q.ByReply? ensures FindReverse(n, q) >= 0 <==> Scan(n.table, q) >= 0 {
        ReverseFindsIff(n, q);
      }
    } else {
      var i :| 0 <= i < |n.table| && n.table[i].active && n.hash[Bucket(n.table[i].wanPort)] < 0;
      var q := ReplyTo(n.table[i]);
      ReverseFindsIff(n, q);
      assert Hits(n.table[i], q);
      assert FindReverse(n, q) < 0 && Scan(n.table, q) >= 0;
    }
  }

  lemma CoveredReverseIsScan(n: Nat, q: Query)
    requires Shaped(n) && Covered(n) && DistinctPorts(n.table) && q.ByReply?
    ensures FindReverse(n, q) == Scan(n.table, q)
  {
    ReverseFindsIff(n, q);
  }

  /** Another live entry shares the bucket of entry `i`. */
  ghost predicate Shared(n: Nat, i: nat)
    requires i < |n.table|
  {
    exists j {:trigger n.table[j]} :: 0 <= j < |n.table| && j != i && n.table[j].active && Bucket(n.table[j].wanPort) == Bucket(n.table[i].wanPort)
  }

  /** Removing an entry keeps the others covered exactly when none of them shares its bucket. */
  lemma RemoveKeepsCoveredIff(n: Nat, i: nat)
    requires Shaped(n) && Covered(n) && i < |n.table| && n.table[i].active
    ensures Shaped(RemoveAt(n, i))
    ensures Covered(RemoveAt(n, i)) <==> !Shared(n, i)
  {
    hide OutBucket, Bucket;
    var m := RemoveAt(n, i);
    if Shared(n, i) {
      var j :| 0 <= j < |n.table| && j != i && n.table[j].active && Bucket(n.table[j].wanPort) == Bucket(n.table[i].wanPort);
      assert m.table[j] == n.table[j];
      assert !Covered(m);
    } else {
      forall j | 0 <= j < |m.table| && m.table[j].active ensures m.hash[Bucket(m.table[j].wanPort)] >= 0 {
        assert m.table[j] == n.table[j] && j != i;
      }
    }
  }
}
