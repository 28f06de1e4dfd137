/** The forwarding branches of the receive path: table look-up, then the frame rewritten in place. */
module GatewayDriver {
  import opened Prelude
  import opened Checksum
  import opened NatSpec
  import opened NatDriver
  import ArpSpec
  import opened ArpDriver
  import opened PacketSpec
  import PacketDriver
  import Spec = Gateway
  import opened Gateway

  /** The frame buffer is none of the tables' arrays, and the two tables are apart. */
  ghost predicate Apart(t: NatTable, c: ArpCache, a: array<byte>) {
    && a as object != t.table && a as object != t.hash && a as object != t.outHash && a as object != c.table
    && c.table as object != t.table && c.table as object != t.hash && c.table as object != t.outHash
  }

  /** What the branches read of the packet before anything is changed. */
  method Parse(a: array<byte>) returns (ok: bool, n: nat, len: nat, tcp: bool)
    requires Received(a[..])
    ensures n == HeaderLength(a[..]) && len == TotalLength(a[..]) && tcp == IsTcp(a[..])
    ensures ok == HasTransport(a[..])
  {
    n := (a[0] % 16) * 4;
    len := Word(a[LENGTH_OFFSET], a[LENGTH_OFFSET + 1]);
    tcp := a[IP_PROTO] == PROTO_TCP;
    ok := (tcp || a[IP_PROTO] == PROTO_UDP) && len >= n + MinTransport(tcp);
  }

  /** LAN to WAN: the packet leaves translated, or it is dropped and the buffer is as it was. */
  method ForwardOut(t: NatTable, c: ArpCache, a: array<byte>, frameLength: nat, wanIp: Ip, now: tick)
    returns (sent: bool, dest: ArpSpec.Mac)
    requires t.Valid() && Received(a[..]) && Apart(t, c, a)
    modifies t, t.table, t.hash, t.outHash, a
    ensures t.Valid() && t.Abs() == Spec.ForwardOut(old(t.Abs()), c.table[..], old(a[..]), frameLength, wanIp, now).0
    ensures Spec.ForwardOut(old(t.Abs()), c.table[..], old(a[..]), frameLength, wanIp, now).1
            == if sent then Some(Sent(dest, a[..])) else None
    ensures !sent ==> a[..] == old(a[..])
  {
    hide Translated, Outbound, Shaped, ArpSpec.Lookup;
    sent, dest := false, [];
    var ok, n, len, tcp := Parse(a);
    if !ok {
      return;
    }
    var flow := FlowOf(a[..]);
    var status, wanPort := t.TranslateOutbound(flow, now);
    if status != 0 {
      return;
    }
    if frameLength > MAX_FRAME {
      return;
    }
    sent, dest := c.Lookup(flow.dstIp);
    if !sent {
      return;
    }
    PacketDriver.Translate(a, n, len, tcp, IP_SRC, Bytes(wanIp), SRC_PORT, wanPort);
  }

  /** WAN to LAN. */
  method ForwardIn(t: NatTable, c: ArpCache, a: array<byte>, frameLength: nat, now: tick)
    returns (sent: bool, dest: ArpSpec.Mac)
    requires t.Valid() && Received(a[..]) && Apart(t, c, a)
    modifies t.table, a
    ensures t.Valid() && t.Abs() == Spec.ForwardIn(old(t.Abs()), c.table[..], old(a[..]), frameLength, now).0
    ensures Spec.ForwardIn(old(t.Abs()), c.table[..], old(a[..]), frameLength, now).1
            == if sent then Some(Sent(dest, a[..])) else None
    ensures !sent ==> a[..] == old(a[..])
  {
    hide Translated, Inbound, Shaped, ArpSpec.Lookup;
    sent, dest := false, [];
    var ok, n, len, tcp := Parse(a);
    if !ok {
      return;
    }
    var q := QueryOf(a[..]);
    var status, lanIp, lanPort := t.TranslateInbound(q, now);
    if status != 0 {
      return;
    }
    if frameLength > MAX_FRAME {
      return;
    }
    sent, dest := c.Lookup(lanIp);
    if !sent {
      return;
    }
    PacketDriver.Translate(a, n, len, tcp, IP_DST, Bytes(lanIp), DST_PORT, lanPort);
  }
}
