/**
 * Forwarding a TCP or UDP packet through the translation table and the packet rewriting together: a
 * flow goes out with the gateway's address and an allocated port, and its reply comes back.
 */
module Gateway {
  import opened Prelude
  import opened Checksum
  import opened NatSpec
  import opened NatRuns
  import opened NatSessions
  import opened ArpSpec
  import opened PacketSpec

  function HeaderLength(p: seq<byte>): nat
    requires |p| >= IP_MIN
  {
    (p[0] % 16) * 4
  }

  function TotalLength(p: seq<byte>): nat
    requires |p| >= IP_MIN
  {
    Get16(p, LENGTH_OFFSET)
  }

  predicate IsTcp(p: seq<byte>)
    requires |p| >= IP_MIN
  {
    p[IP_PROTO] == PROTO_TCP
  }

  /** An IPv4 packet as the receive path hands it on, in a buffer that holds what its length field says. */
  predicate Received(p: seq<byte>) {
    |p| >= IP_MIN && p[0] / 16 == 4 && p[0] % 16 >= 5 && TotalLength(p) <= |p|
  }

  /** TCP or UDP with a whole transport header: what the forwarding code goes on with. */
  predicate HasTransport(p: seq<byte>)
    requires Received(p)
  {
    && (p[IP_PROTO] == PROTO_TCP || p[IP_PROTO] == PROTO_UDP)
    && TotalLength(p) >= HeaderLength(p) + MinTransport(IsTcp(p))
  }

  function IpAt(p: seq<byte>, o: nat): Ip
    requires o + 4 <= |p|
  {
    Ip(p[o], p[o + 1], p[o + 2], p[o + 3])
  }

  function Bytes(ip: Ip): (b: seq<byte>)
    ensures |b| == 4
  {
    [ip.b0, ip.b1, ip.b2, ip.b3]
  }

  function PortAt(p: seq<byte>, o: nat): port
    requires Received(p) && HasTransport(p) && (o == SRC_PORT || o == DST_PORT)
  {
    Get16(p, HeaderLength(p) + o)
  }

  /** The session of an outgoing packet, and the query of an incoming one. */
  function FlowOf(p: seq<byte>): Flow
    requires Received(p) && HasTransport(p)
  {
    Flow(p[IP_PROTO], IpAt(p, IP_SRC), PortAt(p, SRC_PORT), IpAt(p, IP_DST), PortAt(p, DST_PORT))
  }

  function QueryOf(p: seq<byte>): (q: Query)
    requires Received(p) && HasTransport(p)
    ensures q.ByReply?
  {
    ByReply(p[IP_PROTO], PortAt(p, DST_PORT), IpAt(p, IP_SRC), PortAt(p, SRC_PORT))
  }

  function Readdress(p: seq<byte>, addr: nat, ip: Ip, o: nat, q: port): seq<byte>
    requires Received(p) && HasTransport(p) && (addr == IP_SRC || addr == IP_DST) && (o == SRC_PORT || o == DST_PORT)
  {
    Translated(p, HeaderLength(p), TotalLength(p), IsTcp(p), addr, Bytes(ip), o, q)
  }

  const MAX_FRAME: nat := 1518

  /** A frame handed to the device: the hardware address it goes to, and the packet. */
  datatype Sent = Sent(dest: Mac, packet: seq<byte>)

  /** LAN to WAN. The session is there, or refreshed, also when the packet is then dropped for its length or its neighbour. */
  function ForwardOut(n: Nat, arp: seq<ArpEntry>, p: seq<byte>, frameLength: nat, wanIp: Ip, now: tick): (Nat, Option<Sent>)
    requires Shaped(n) && Received(p)
  {
    if !HasTransport(p) then (n, None)
    else
      var (n', wanPort) := Outbound(n, FlowOf(p), now);
      (n', if wanPort.None? || frameLength > MAX_FRAME || Lookup(arp, IpAt(p, IP_DST)).None? then None
           else Some(Sent(Lookup(arp, IpAt(p, IP_DST)).value, Readdress(p, IP_SRC, wanIp, SRC_PORT, wanPort.value))))
  }

  /** WAN to LAN. */
  function ForwardIn(n: Nat, arp: seq<ArpEntry>, p: seq<byte>, frameLength: nat, now: tick): (Nat, Option<Sent>)
    requires Shaped(n) && Received(p)
  {
    if !HasTransport(p) then (n, None)
    else
      var (n', lan) := Inbound(n, QueryOf(p), now);
      (n', if lan.None? || frameLength > MAX_FRAME || Lookup(arp, lan.value.0).None? then None
           else Some(Sent(Lookup(arp, lan.value.0).value, Readdress(p, IP_DST, lan.value.0, DST_PORT, lan.value.1))))
  }

  /** Header and segment verify. */
  predicate Sound(p: seq<byte>)
    requires Received(p) && HasTransport(p)
  {
    var n, len := HeaderLength(p), TotalLength(p);
    Checksum16(p[..n]) == 0 && SegmentValid(p[..n], p[n..len])
  }

  lemma ReaddressByte(p: seq<byte>, addr: nat, ip: Ip, o: nat, q: port, i: nat)
    requires Received(p) && HasTransport(p) && (addr == IP_SRC || addr == IP_DST) && (o == SRC_PORT || o == DST_PORT)
    requires i in {0, 2, 3, IP_PROTO} || (i in {12, 13, 14, 15, 16, 17, 18, 19} && !(addr <= i < addr + 4))
             || (i - HeaderLength(p) in {0, 1, 2, 3} && !(o <= i - HeaderLength(p) < o + 2))
    ensures i < |p| && |Readdress(p, addr, ip, o, q)| == |p| && Readdress(p, addr, ip, o, q)[i] == p[i]
  {
    hide Translated, SegmentValid;
    TranslatedKeeps(p, HeaderLength(p), TotalLength(p), IsTcp(p), addr, Bytes(ip), o, q, i);
  }

  lemma ReaddressKeeps(p: seq<byte>, addr: nat, ip: Ip, o: nat, q: port)
    requires Received(p) && HasTransport(p) && (addr == IP_SRC || addr == IP_DST) && (o == SRC_PORT || o == DST_PORT)
    ensures var r := Readdress(p, addr, ip, o, q);
            var other, port2 := IP_SRC + IP_DST - addr, HeaderLength(p) + SRC_PORT + DST_PORT - o;
            && |r| == |p| && r[0] == p[0] && TotalLength(r) == TotalLength(p) && r[IP_PROTO] == p[IP_PROTO]
            && IpAt(r, other) == IpAt(p, other) && Get16(r, port2) == Get16(p, port2)
  {
    hide Readdress, Word;
    var other, port2 := IP_SRC + IP_DST - addr, HeaderLength(p) + SRC_PORT + DST_PORT - o;
    forall i: nat | i in {0, 2, 3, IP_PROTO, other, other + 1, other + 2, other + 3, port2, port2 + 1}
      ensures i < |p| && |Readdress(p, addr, ip, o, q)| == |p| && Readdress(p, addr, ip, o, q)[i] == p[i]
    {
      ReaddressByte(p, addr, ip, o, q, i);
    }
  }

  lemma IpAtIs(r: seq<byte>, o: nat, ip: Ip)
    requires o + 4 <= |r| && r[o..o + 4] == Bytes(ip)
    ensures IpAt(r, o) == ip
  {
    var b := r[o..o + 4];
    assert b[0] == r[o] && b[1] == r[o + 1] && b[2] == r[o + 2] && b[3] == r[o + 3];
  }

  /** A rewritten packet is still one, verifies, and differs in the one address and the one port. */
  lemma ReaddressSound(p: seq<byte>, addr: nat, ip: Ip, o: nat, q: port)
    requires Received(p) && HasTransport(p) && (addr == IP_SRC || addr == IP_DST) && (o == SRC_PORT || o == DST_PORT)
    ensures var r := Readdress(p, addr, ip, o, q);
            && Received(r) && HasTransport(r) && Sound(r)
            && IpAt(r, addr) == ip && PortAt(r, o) == q
            && IpAt(r, IP_SRC + IP_DST - addr) == IpAt(p, IP_SRC + IP_DST - addr)
            && PortAt(r, SRC_PORT + DST_PORT - o) == PortAt(p, SRC_PORT + DST_PORT - o)
            && r[IP_PROTO] == p[IP_PROTO] && TotalLength(r) == TotalLength(p) && HeaderLength(r) == HeaderLength(p)
  {
    hide Translated, Checksum16, SegmentValid, IpAt, Get16, Bytes;
    var r := Readdress(p, addr, ip, o, q);
    TranslatedVerifies(p, HeaderLength(p), TotalLength(p), IsTcp(p), addr, Bytes(ip), o, q);
    ReaddressKeeps(p, addr, ip, o, q);
    IpAtIs(r, addr, ip);
  }

  // ---------------------------------------------------------------- what is forwarded

  /**
   * Of all received packets exactly these go out: TCP with 20 or UDP with 8 bytes behind its IP header, whose
   * session is live or for which an entry is free, in a frame of at most 1518 bytes, with a known neighbour.
   * Without such a transport header the table is not touched either.
   */
  lemma SentOutIff(n: Nat, arp: seq<ArpEntry>, p: seq<byte>, frameLength: nat, wanIp: Ip, now: tick)
    requires Shaped(n) && Unique(n.table)
    requires |p| >= 20 && p[0] / 16 == 4 && p[0] % 16 >= 5 && 256 * p[2] + p[3] <= |p|
    ensures Received(p)
    ensures var (n', out) := ForwardOut(n, arp, p, frameLength, wanIp, now);
            var high: int, low: int, words: int := p[2], p[3], p[0] % 16;
            var payload := 256 * high + low - 4 * words;
            var transport := (p[9] == 6 && payload >= 20) || (p[9] == 17 && payload >= 8);
            && (transport <==> HasTransport(p))
            && (!transport ==> n' == n)
            && (out.Some? <==>
                  && transport && frameLength <= 1518
                  && (exists i :: 0 <= i < |n.table| && (n.table[i].active ==> n.table[i].flow == FlowOf(p)))
                  && Lookup(arp, Ip(p[16], p[17], p[18], p[19])).Some?)
  {
    hide Outbound, Lookup, Readdress;
    if HasTransport(p) {
      RefusedIffFull(n, FlowOf(p), now);
    }
  }

  /** Of those addressed to the gateway exactly these come in: answers to an entry whose bucket is in use, under the same conditions. Such an answer refreshes its session, sent or not. */
  lemma SentInIff(n: Nat, arp: seq<ArpEntry>, p: seq<byte>, frameLength: nat, now: tick)
    requires Shaped(n)
    requires |p| >= 20 && p[0] / 16 == 4 && p[0] % 16 >= 5 && 256 * p[2] + p[3] <= |p|
    ensures Received(p)
    ensures var (n', back) := ForwardIn(n, arp, p, frameLength, now);
            var high: int, low: int, words: int := p[2], p[3], p[0] % 16;
            var payload := 256 * high + low - 4 * words;
            var transport := (p[9] == 6 && payload >= 20) || (p[9] == 17 && payload >= 8);
            && (transport <==> HasTransport(p))
            && (!transport ==> n' == n && back == None)
            && (transport ==>
                  var i := FindReverse(n, QueryOf(p));
                  && (i >= 0 <==> Scan(n.table, QueryOf(p)) >= 0 && n.hash[Bucket(PortAt(p, DST_PORT))] >= 0)
                  && (i < 0 ==> n' == n && back == None)
                  && (i >= 0 ==>
                        && i < |n.table|
                        && n' == n.(table := n.table[i := n.table[i].(lastActivity := now)])
                        && (back.Some? <==> frameLength <= 1518 && Lookup(arp, n.table[i].flow.lanIp).Some?)))
  {
    hide FindReverse, Lookup, Readdress, Bucket;
    if HasTransport(p) {
      ReverseFindsIff(n, QueryOf(p));
      InboundEffect(n, QueryOf(p), now);
    }
  }

  // ---------------------------------------------------------------- round trips

  /** `r` answers `p`: same protocol, addresses and ports the other way round. */
  predicate Answers(r: seq<byte>, p: seq<byte>)
    requires Received(p) && HasTransport(p) && Received(r) && HasTransport(r)
  {
    && r[IP_PROTO] == p[IP_PROTO]
    && IpAt(r, IP_SRC) == IpAt(p, IP_DST) && PortAt(r, SRC_PORT) == PortAt(p, DST_PORT)
    && IpAt(r, IP_DST) == IpAt(p, IP_SRC) && PortAt(r, DST_PORT) == PortAt(p, SRC_PORT)
  }

  /** `x` is a sound packet addressed to where `p` came from. */
  predicate Delivered(x: seq<byte>, p: seq<byte>)
    requires Received(p) && HasTransport(p)
  {
    && Received(x) && HasTransport(x) && Sound(x)
    && IpAt(x, IP_DST) == IpAt(p, IP_SRC) && PortAt(x, DST_PORT) == PortAt(p, SRC_PORT)
  }

  /**
   * Two packets belong to one session exactly when they agree, byte for byte, in protocol, both addresses and both
   * ports - bytes 9 and 12 to 19 of the header, and the first four after it, wherever its length puts them.
   */
  lemma SameSessionIff(p: seq<byte>, q: seq<byte>)
    requires Received(p) && HasTransport(p) && Received(q) && HasTransport(q)
    ensures var n, m := 4 * (p[0] % 16), 4 * (q[0] % 16);
            && n + 8 <= |p| && m + 8 <= |q|
            && (FlowOf(p) == FlowOf(q) <==> p[9] == q[9] && p[12..16] == q[12..16] && p[16..20] == q[16..20] && p[n..n + 4] == q[m..m + 4])
  {
    var n, m := 4 * (p[0] % 16), 4 * (q[0] % 16);
    SameFour(p, 12, q, 12);
    SameFour(p, 16, q, 16);
    SameFour(p, n, q, m);
    SamePort(p, n, q, m);
    SamePort(p, n + 2, q, m + 2);
    hide Get16;
  }

  lemma SamePort(p: seq<byte>, o: nat, q: seq<byte>, u: nat)
    requires o + 2 <= |p| && u + 2 <= |q|
    ensures Get16(p, o) == Get16(q, u) <==> p[o] == q[u] && p[o + 1] == q[u + 1]
  {}

  lemma SameFour(p: seq<byte>, o: nat, q: seq<byte>, u: nat)
    requires o + 4 <= |p| && u + 4 <= |q|
    ensures p[o..o + 4] == q[u..u + 4] <==>
              p[o] == q[u] && p[o + 1] == q[u + 1] && p[o + 2] == q[u + 2] && p[o + 3] == q[u + 3]
  {
    assert p[o..o + 4] == [p[o], p[o + 1], p[o + 2], p[o + 3]];
    assert q[u..u + 4] == [q[u], q[u + 1], q[u + 2], q[u + 3]];
  }

  /** What leaves for the WAN: the packet, from the gateway's address and port `w`. */
  predicate LeavesFrom(q: seq<byte>, p: seq<byte>, wanIp: Ip, w: port)
    requires Received(p) && HasTransport(p)
  {
    && Received(q) && HasTransport(q) && Sound(q)
    && IpAt(q, IP_SRC) == wanIp && PortAt(q, SRC_PORT) == w
    && IpAt(q, IP_DST) == IpAt(p, IP_DST) && PortAt(q, DST_PORT) == PortAt(p, DST_PORT)
    && q[IP_PROTO] == p[IP_PROTO]
  }

  lemma SentByte(p: seq<byte>, addr: nat, ip: Ip, o: nat, q: port, i: nat)
    requires Received(p) && HasTransport(p) && (addr == IP_SRC || addr == IP_DST) && (o == SRC_PORT || o == DST_PORT) && i < |p|
    ensures var h := 4 * (p[0] % 16);
            var c := h + if p[9] == 6 then 16 else 6;
            i !in {8, 10, 11, addr, addr + 1, addr + 2, addr + 3, h + o, h + o + 1, c, c + 1} ==>
              |Readdress(p, addr, ip, o, q)| == |p| && Readdress(p, addr, ip, o, q)[i] == p[i]
  {
    hide Translated, SegmentValid;
    var h := 4 * (p[0] % 16);
    var c := h + if p[9] == 6 then 16 else 6;
    if i !in {8, 10, 11, addr, addr + 1, addr + 2, addr + 3, h + o, h + o + 1, c, c + 1} {
      TranslatedKeeps(p, HeaderLength(p), TotalLength(p), IsTcp(p), addr, Bytes(ip), o, q, i);
    }
  }

  /**
   * A packet sent out is the received one but for: one hop less at 8, the header checksum at 10, the gateway's
   * address at 12, the session's port right behind the header, and the checksum of TCP 16 or of UDP 6 bytes on.
   */
  lemma SentOutBytes(n: Nat, arp: seq<ArpEntry>, p: seq<byte>, frameLength: nat, wanIp: Ip, now: tick, i: nat)
    requires Shaped(n) && Received(p) && HasTransport(p) && i < |p|
    ensures var out := ForwardOut(n, arp, p, frameLength, wanIp, now).1;
            out.Some? ==>
              var q, h := out.value.packet, 4 * (p[0] % 16);
              var c := h + if p[9] == 6 then 16 else 6;
              && |q| == |p| && h + 2 <= |q| && q[12..16] == [wanIp.b0, wanIp.b1, wanIp.b2, wanIp.b3]
              && Outbound(n, FlowOf(p), now).1 == Some(Get16(q, h))
              && q[8] == (if p[8] == 0 then 255 else p[8] - 1)
              && (i !in {8, 10, 11, 12, 13, 14, 15, h, h + 1, c, c + 1} ==> q[i] == p[i])
  {
    hide Translated, Outbound, Lookup, Checksum16, SegmentValid;
    var w := Outbound(n, FlowOf(p), now).1;
    if w.Some? {
      var h, len := HeaderLength(p), TotalLength(p);
      TranslatedVerifies(p, h, len, IsTcp(p), IP_SRC, Bytes(wanIp), SRC_PORT, w.value);
      SentByte(p, IP_SRC, wanIp, SRC_PORT, w.value, i);
    }
  }

  /** A packet sent in: the LAN host's address at 16 and its port two bytes behind the header. */
  lemma SentInBytes(n: Nat, arp: seq<ArpEntry>, p: seq<byte>, frameLength: nat, now: tick, i: nat)
    requires Shaped(n) && Received(p) && HasTransport(p) && i < |p|
    ensures var back, lan := ForwardIn(n, arp, p, frameLength, now).1, Inbound(n, QueryOf(p), now).1;
            back.Some? ==>
              var q, h := back.value.packet, 4 * (p[0] % 16);
              var c := h + if p[9] == 6 then 16 else 6;
              && lan.Some? && |q| == |p| && h + 4 <= |q|
              && q[16..20] == [lan.value.0.b0, lan.value.0.b1, lan.value.0.b2, lan.value.0.b3]
              && Get16(q, h + 2) == lan.value.1
              && q[8] == (if p[8] == 0 then 255 else p[8] - 1)
              && (i !in {8, 10, 11, 16, 17, 18, 19, h + 2, h + 3, c, c + 1} ==> q[i] == p[i])
  {
    hide Translated, Inbound, Lookup, Checksum16, SegmentValid;
    var lan := Inbound(n, QueryOf(p), now).1;
    if lan.Some? {
      var h, len := HeaderLength(p), TotalLength(p);
      TranslatedVerifies(p, h, len, IsTcp(p), IP_DST, Bytes(lan.value.0), DST_PORT, lan.value.1);
      SentByte(p, IP_DST, lan.value.0, DST_PORT, lan.value.1, i);
    }
  }

  // Any packet that gets a port is sent under the two conditions, and leaves with that port.
  lemma TranslatedLeaves(n: Nat, arp: seq<ArpEntry>, p: seq<byte>, frameLength: nat, wanIp: Ip, now: tick, w: port)
    requires Shaped(n) && Received(p) && HasTransport(p) && Outbound(n, FlowOf(p), now).1 == Some(w)
    ensures var (n', out) := ForwardOut(n, arp, p, frameLength, wanIp, now);
            && n' == Outbound(n, FlowOf(p), now).0
            && (out.Some? <==> frameLength <= 1518 && Lookup(arp, IpAt(p, IP_DST)).Some?)
            && (out.Some? ==> Some(out.value.dest) == Lookup(arp, IpAt(p, IP_DST)) && LeavesFrom(out.value.packet, p, wanIp, w))
  {
    hide Sound, Readdress, Outbound, Lookup;
    ReaddressSound(p, IP_SRC, wanIp, SRC_PORT, w);
  }

  /**
   * A packet of a live session is sent under the same two conditions as one that opens a session, sound, with
   * the port the session has; and the table keeps all but the session's time stamp.
   */
  lemma LiveFlowLeaves(n: Nat, i: nat, arp: seq<ArpEntry>, p: seq<byte>, frameLength: nat, wanIp: Ip, now: tick)
    requires Shaped(n) && Unique(n.table) && Received(p) && HasTransport(p)
    requires i < |n.table| && n.table[i].active && n.table[i].flow == FlowOf(p)
    ensures var (n', out) := ForwardOut(n, arp, p, frameLength, wanIp, now);
            && n' == n.(table := n.table[i := n.table[i].(lastActivity := now)])
            && (out.Some? <==> frameLength <= 1518 && Lookup(arp, IpAt(p, IP_DST)).Some?)
            && (out.Some? ==>
                  && Some(out.value.dest) == Lookup(arp, IpAt(p, IP_DST))
                  && LeavesFrom(out.value.packet, p, wanIp, n.table[i].wanPort))
  {
    hide LeavesFrom, ForwardOut, Outbound, Lookup;
    LiveSessionKeepsPort(n, i, now);
    TranslatedLeaves(n, arp, p, frameLength, wanIp, now, n.table[i].wanPort);
  }

  /**
   * Whatever answers a packet of a live session is delivered, sound, to the LAN host it came from exactly when the
   * reply look-up reaches that session and the same two conditions hold.
   */
  lemma LiveFlowRoundTrip(n: Nat, i: nat, arp: seq<ArpEntry>, p: seq<byte>, frameLength: nat, wanIp: Ip, now: tick,
                          q: seq<byte>, r: seq<byte>, arp2: seq<ArpEntry>, frameLength2: nat, later: tick)
    requires Shaped(n) && Unique(n.table) && Received(p) && HasTransport(p)
    requires i < |n.table| && n.table[i].active && n.table[i].flow == FlowOf(p)
    requires Received(q) && HasTransport(q) && Received(r) && HasTransport(r) && Answers(r, q)
    requires var out := ForwardOut(n, arp, p, frameLength, wanIp, now).1; out.Some? && out.value.packet == q
    ensures var n' := ForwardOut(n, arp, p, frameLength, wanIp, now).0;
            && Shaped(n')
            && var back := ForwardIn(n', arp2, r, frameLength2, later).1;
               && (back.Some? && Delivered(back.value.packet, p) <==>
                     Answered(n, i) && frameLength2 <= 1518 && Lookup(arp2, IpAt(p, IP_SRC)).Some?)
               && (Answered(n, i) && back.Some? ==> Some(back.value.dest) == Lookup(arp2, IpAt(p, IP_SRC)))
  {
    hide Sound, Readdress, ForwardOut, Inbound, Lookup, Answered;
    LiveFlowLeaves(n, i, arp, p, frameLength, wanIp, now);
    var n' := ForwardOut(n, arp, p, frameLength, wanIp, now).0;
    SameAnswered(n, i, now);
    ReplyReturnsOwnSideIff(n', i, later);
    var lan := Inbound(n', QueryOf(r), later).1;
    if lan.Some? {
      ReaddressSound(r, IP_DST, lan.value.0, DST_PORT, lan.value.1);
    }
  }

  lemma SameAnswered(n: Nat, i: nat, now: tick)
    requires Shaped(n) && i < |n.table|
    ensures Shaped(Touch(n, i, now)) && (Answered(Touch(n, i, now), i) <==> Answered(n, i))
  {
    hide Bucket;
    var t, u, q := n.table, Touch(n, i, now).table, ReplyTo(n.table[i]);
    assert q == ReplyTo(u[i]);
    assert forall j :: 0 <= j < |t| ==> (Hits(u[j], q) <==> Hits(t[j], q));
  }

  /**
   * A packet that opens a session is sent exactly when the frame is not too long and the cache knows its
   * destination; it then leaves sound, from the gateway's address, to that neighbour.
   */
  lemma FreshFlowLeaves(n: Nat, arp: seq<ArpEntry>, p: seq<byte>, frameLength: nat, wanIp: Ip, now: tick)
    requires Shaped(n) && Received(p) && HasTransport(p)
    requires FindEntry(n, FlowOf(p)) < 0 && Scan(n.table, Free) >= 0
    ensures var (n', out) := ForwardOut(n, arp, p, frameLength, wanIp, now);
            && Shaped(n')
            && (out.Some? <==> frameLength <= 1518 && Lookup(arp, IpAt(p, IP_DST)).Some?)
            && (out.Some? ==>
                  Some(out.value.dest) == Lookup(arp, IpAt(p, IP_DST)) && LeavesFrom(out.value.packet, p, wanIp, n.nextPort))
  {
    hide LeavesFrom, ForwardOut, Inbound, Lookup;
    FreshSessionRoundTrip(n, FlowOf(p), now, now);
    TranslatedLeaves(n, arp, p, frameLength, wanIp, now, n.nextPort);
  }

  /**
   * Whatever packet, sound or unsound, then answers it is forwarded exactly when its frame is not too long and
   * the cache knows the LAN host; and it reaches, sound, the address and port the first packet came from.
   */
  lemma FreshFlowRoundTrip(n: Nat, arp: seq<ArpEntry>, p: seq<byte>, frameLength: nat, wanIp: Ip, now: tick,
                           q: seq<byte>, r: seq<byte>, arp2: seq<ArpEntry>, frameLength2: nat, later: tick)
    requires Shaped(n) && Received(p) && HasTransport(p)
    requires FindEntry(n, FlowOf(p)) < 0 && Scan(n.table, Free) >= 0
    requires Received(q) && HasTransport(q) && Received(r) && HasTransport(r) && Answers(r, q)
    requires var out := ForwardOut(n, arp, p, frameLength, wanIp, now).1; out.Some? && out.value.packet == q
    ensures var n' := ForwardOut(n, arp, p, frameLength, wanIp, now).0;
            && Shaped(n')
            && var back := ForwardIn(n', arp2, r, frameLength2, later).1;
               && (back.Some? <==> frameLength2 <= 1518 && Lookup(arp2, IpAt(p, IP_SRC)).Some?)
               && (back.Some? ==> Some(back.value.dest) == Lookup(arp2, IpAt(p, IP_SRC)) && Delivered(back.value.packet, p))
  {
    hide Sound, Readdress, Outbound, Inbound, Lookup;
    var flow := FlowOf(p);
    FreshSessionRoundTrip(n, flow, now, later);
    var (n', wanPort) := Outbound(n, flow, now);
    ReaddressSound(p, IP_SRC, wanIp, SRC_PORT, wanPort.value);
    ReaddressSound(r, IP_DST, flow.lanIp, DST_PORT, flow.lanPort);
  }

  /**
   * In every run whose clean-ups are safe, while live WAN ports are distinct: a packet that answers a live
   * session is forwarded exactly when its frame is not too long and the cache knows the host that opened the
   * session, and then reaches that host, sound.
   */
  lemma ReplyDelivered(size: nat, steps: seq<NatStep>, h: History, i: nat,
                       arp: seq<ArpEntry>, r: seq<byte>, frameLength: nat, now: tick)
    requires size <= 127 && NatRun(Start(size), steps, h) && AllCleanSafe(Start(size), steps) && DistinctPorts(h.n.table)
    requires i < |h.n.table| && h.n.table[i].active
    requires Received(r) && HasTransport(r) && QueryOf(r) == ReplyTo(h.n.table[i])
    ensures Shaped(h.n)
    ensures var e, back := h.n.table[i], ForwardIn(h.n, arp, r, frameLength, now).1;
            && (back.Some? <==> frameLength <= 1518 && Lookup(arp, e.flow.lanIp).Some?)
            && (back.Some? ==>
                  var x := back.value.packet;
                  && Some(back.value.dest) == Lookup(arp, e.flow.lanIp)
                  && Received(x) && HasTransport(x) && Sound(x)
                  && IpAt(x, IP_DST) == e.flow.lanIp && PortAt(x, DST_PORT) == e.flow.lanPort
                  && IpAt(x, IP_SRC) == e.flow.dstIp && PortAt(x, SRC_PORT) == e.flow.dstPort)
  {
    hide Sound, Readdress, Inbound, NatRun, AllCleanSafe, DistinctPorts, Lookup;
    RepliesReachTheirSession(size, steps, h, i, now);
    var e := h.n.table[i];
    ReaddressSound(r, IP_DST, e.flow.lanIp, DST_PORT, e.flow.lanPort);
  }
}
