/** Rewriting a forwarded IPv4 packet: what becomes of header and transport segment, and that both verify. */
module PacketSpec {
  import opened Prelude
  import opened Checksum

  const LENGTH_OFFSET: nat := 2
  const ICMP_SUM: nat := 2
  const ICMP_ID: nat := 4
  const ICMP_HEADER: nat := 8
  const TCP_SUM: nat := 16
  const TCP_HEADER: nat := 20
  const UDP_SUM: nat := 6
  const UDP_HEADER: nat := 8
  const SRC_PORT: nat := 0
  const DST_PORT: nat := 2

  /** Overwrites part of a sequence. */
  function Splice(d: seq<byte>, o: nat, part: seq<byte>): (r: seq<byte>)
    requires o + |part| <= |d|
    ensures |r| == |d|
    ensures forall i :: 0 <= i < |d| ==> r[i] == if o <= i < o + |part| then part[i - o] else d[i]
  {
    d[..o] + part + d[o + |part|..]
  }

  // ---------------------------------------------------------------- the IP header

  predicate HeaderSize(n: nat) {
    IP_MIN <= n <= 60 && n % 4 == 0
  }

  /** `ttl--`, in 8 bits. */
  function OneLess(ttl: byte): byte {
    if ttl == 0 then 255 else ttl - 1
  }

  /** The address replaced and one hop taken off. */
  function Readdressed(h: seq<byte>, o: nat, ip: seq<byte>): (r: seq<byte>)
    requires HeaderSize(|h|) && (o == IP_SRC || o == IP_DST) && |ip| == 4
    ensures |r| == |h|
  {
    Splice(h, o, ip)[IP_TTL := OneLess(h[IP_TTL])]
  }

  /** The forwarded header: readdressed, with its checksum computed over the zeroed field. */
  function NewHeader(h: seq<byte>, o: nat, ip: seq<byte>): (r: seq<byte>)
    requires HeaderSize(|h|) && (o == IP_SRC || o == IP_DST) && |ip| == 4
    ensures |r| == |h|
  {
    var s := Readdressed(h, o, ip);
    Put16(s, IP_SUM, Checksum16(Put16(s, IP_SUM, 0)))
  }

  lemma StoredValue(d: seq<byte>, o: nat, v: nat)
    requires o + 2 <= |d| && v < WORD
    ensures Get16(Put16(d, o, v), o) == v && Put16(Put16(d, o, v), o, 0) == Put16(d, o, 0)
  {}

  /**
   * It verifies, carries the new address, and keeps every byte but the address, the TTL at 8 and the checksum at
   * 10, which is that of the header with the field zeroed.
   */
  lemma NewHeaderVerifies(h: seq<byte>, o: nat, ip: seq<byte>)
    requires HeaderSize(|h|) && (o == IP_SRC || o == IP_DST) && |ip| == 4
    ensures var r := NewHeader(h, o, ip);
            && Checksum16(r) == 0
            && r[o..o + 4] == ip
            && r[8] == (if h[8] == 0 then 255 else h[8] - 1)
            && Get16(r, 10) == Checksum16(Put16(r, 10, 0))
            && forall i :: 0 <= i < |h| && !(o <= i < o + 4) && i != 8 && i != 10 && i != 11 ==> r[i] == h[i]
  {
    hide Checksum16;
    var s := Readdressed(h, o, ip);
    StoredChecksumVerifies(s, IP_SUM);
    StoredValue(s, IP_SUM, Checksum16(Put16(s, IP_SUM, 0)));
  }

  // ---------------------------------------------------------------- ICMP

  function NewIcmp(m: seq<byte>, id: nat): (r: seq<byte>)
    requires |m| >= ICMP_HEADER && id < WORD
    ensures |r| == |m|
  {
    var s := Put16(m, ICMP_ID, id);
    Put16(s, ICMP_SUM, Checksum16(Put16(s, ICMP_SUM, 0)))
  }

  /** It verifies and keeps every byte but the identifier at 4 and the checksum at 2. */
  lemma NewIcmpVerifies(m: seq<byte>, id: nat)
    requires |m| >= ICMP_HEADER && id < WORD
    ensures var r := NewIcmp(m, id);
            && Checksum16(r) == 0 && Get16(r, 4) == id
            && Get16(r, 2) == Checksum16(Put16(r, 2, 0))
            && forall i :: 0 <= i < |m| && i != 2 && i != 3 && i != 4 && i != 5 ==> r[i] == m[i]
  {
    hide Checksum16;
    var s := Put16(m, ICMP_ID, id);
    StoredChecksumVerifies(s, ICMP_SUM);
    StoredValue(s, ICMP_SUM, Checksum16(Put16(s, ICMP_SUM, 0)));
  }

  // ---------------------------------------------------------------- TCP and UDP

  /** Where the checksum of a protocol's segment is. */
  function SumOffset(tcp: bool): (o: nat)
    ensures o % 2 == 0
  {
    if tcp then TCP_SUM else UDP_SUM
  }

  function MinTransport(tcp: bool): nat {
    if tcp then TCP_HEADER else UDP_HEADER
  }

  /** The forwarded segment: one port replaced, the checksum computed under header `ip`. */
  function NewSegment(ip: seq<byte>, m: seq<byte>, tcp: bool, o: nat, p: nat): (r: seq<byte>)
    requires |ip| >= IP_MIN && MinTransport(tcp) <= |m| < WORD && (o == SRC_PORT || o == DST_PORT) && p < WORD
    ensures |r| == |m|
  {
    var s := Put16(m, o, p);
    Put16LE(s, SumOffset(tcp), TransportChecksum(ip, Put16(s, SumOffset(tcp), 0)))
  }

  /**
   * It verifies under that header, carries the port, and keeps every byte but the port and the checksum, which is
   * at 16 for TCP and at 6 for UDP and is that of pseudo-header and segment with the field zeroed.
   */
  lemma NewSegmentVerifies(ip: seq<byte>, m: seq<byte>, tcp: bool, o: nat, p: nat)
    requires |ip| >= IP_MIN && MinTransport(tcp) <= |m| < WORD && (o == SRC_PORT || o == DST_PORT) && p < WORD
    ensures var r, c := NewSegment(ip, m, tcp, o, p), if tcp then 16 else 6;
            && SegmentValid(ip, r) && Get16(r, o) == p
            && Get16(r, c) == Checksum16(Pseudo(ip, |m|) + Put16(r, c, 0))
            && forall i :: 0 <= i < |m| && i != o && i != o + 1 && i != c && i != c + 1 ==> r[i] == m[i]
  {
    hide TransportChecksum, SegmentValid, Checksum16, Pseudo, Swap;
    var s, c := Put16(m, o, p), SumOffset(tcp);
    var v := TransportChecksum(ip, Put16(s, c, 0));
    StoredTransportVerifies(ip, s, c);
    TransportChecksumIsSwapped(ip, Put16(s, c, 0));
    PutSwapped(s, c, v);
    StoredValue(s, c, Swap(v));
  }

  /** Rewriting a rewritten segment is rewriting the original: nothing of the first rewriting is left. */
  lemma RewriteAgain(ip: seq<byte>, ip2: seq<byte>, m: seq<byte>, tcp: bool, o: nat, p: nat, q: nat)
    requires |ip| >= IP_MIN && |ip2| >= IP_MIN && MinTransport(tcp) <= |m| < WORD
    requires (o == SRC_PORT || o == DST_PORT) && p < WORD && q < WORD
    ensures NewSegment(ip2, NewSegment(ip, m, tcp, o, p), tcp, o, q) == NewSegment(ip2, m, tcp, o, q)
  {
    hide TransportChecksum;
    var r, c := NewSegment(ip, m, tcp, o, p), SumOffset(tcp);
    assert Put16(Put16(r, o, q), c, 0) == Put16(Put16(m, o, q), c, 0);
  }

  // ---------------------------------------------------------------- the checksum that is zero

  /** The checksum field of a rewritten segment is zero exactly when all the words it covers sum to a multiple of 65535. */
  lemma StoredZeroIff(ip: seq<byte>, m: seq<byte>, tcp: bool, o: nat, p: nat)
    requires |ip| >= IP_MIN && MinTransport(tcp) <= |m| < WORD && (o == SRC_PORT || o == DST_PORT) && p < WORD
    requires ip[IP_PROTO] != 0
    ensures var c := if tcp then 16 else 6;
            var z := Put16(Put16(m, o, p), c, 0);
            Get16(NewSegment(ip, m, tcp, o, p), c) == 0 <==> SumBE(Pseudo(ip, |m|) + z) % 65535 == 0
  {
    hide SumBE, Pseudo, TransportChecksum;
    var z := Put16(Put16(m, o, p), SumOffset(tcp), 0);
    ZeroChecksumIff(ip, z);
  }

  // A UDP datagram from port 4000 to port 53, with two bytes of data, on its way out of the gateway.
  const DATAGRAM_HEADER: seq<byte> :=
    [0x45, 0, 0, 30, 0, 0, 0, 0, 64, 17, 0, 0, 10, 3, 5, 99, 10, 3, 5, 1]
  const DATAGRAM: seq<byte> := [0x0F, 0xA0, 0, 53, 0, 10, 0xAB, 0xCD, 0x93, 0x1B]

  lemma SumOfFour(a: byte, b: byte, c: byte, d: byte, rest: seq<byte>)
    ensures SumBE([a, b, c, d] + rest) == Word(a, b) + Word(c, d) + SumBE(rest)
  {
    hide SumBE, SumLE, Word;
    SumConcat([a, b, c, d], rest);
    assert [a, b, c, d] == [a, b] + [c, d];
    SumConcat([a, b], [c, d]);
    SumWord([a, b]);
    SumWord([c, d]);
  }

  // The words its checksum covers, and what they add up to.
  const DATAGRAM_TAIL: seq<byte> := [0x4E, 0x20, 0, 53] + ([0, 10, 0, 0] + [0x93, 0x1B])
  const DATAGRAM_WORDS: seq<byte> := [10, 3, 5, 99] + ([10, 3, 5, 1] + ([0, 17, 0, 10] + DATAGRAM_TAIL))

  lemma DatagramTailSum()
    ensures SumBE(DATAGRAM_TAIL) == 57722
  {
    hide SumBE;
    SumWord([0x93, 0x1B]);
    SumOfFour(0, 10, 0, 0, [0x93, 0x1B]);
    SumOfFour(0x4E, 0x20, 0, 53, [0, 10, 0, 0] + [0x93, 0x1B]);
  }

  lemma DatagramSum()
    ensures SumBE(DATAGRAM_WORDS) == 65535
  {
    DatagramTailSum();
    hide SumBE, DATAGRAM_TAIL;
    var t := DATAGRAM_TAIL;
    SumOfFour(0, 17, 0, 10, t);
    SumOfFour(10, 3, 5, 1, [0, 17, 0, 10] + t);
    SumOfFour(10, 3, 5, 99, [10, 3, 5, 1] + ([0, 17, 0, 10] + t));
  }

  lemma DatagramCovers()
    ensures Pseudo(DATAGRAM_HEADER, 10) + Put16(Put16(DATAGRAM, SRC_PORT, 20000), UDP_SUM, 0) == DATAGRAM_WORDS
  {
    assert Put16(Put16(DATAGRAM, SRC_PORT, 20000), UDP_SUM, 0) == DATAGRAM_TAIL;
    assert Pseudo(DATAGRAM_HEADER, 10) == [10, 3, 5, 99] + ([10, 3, 5, 1] + [0, 17, 0, 10]);
  }

  /** Translated to port 20000 its checksum is stored as zero, which RFC 768 reserves for "no checksum". */
  lemma ZeroChecksumDatagram()
    ensures Get16(NewSegment(DATAGRAM_HEADER, DATAGRAM, false, SRC_PORT, 20000), 6) == 0
    ensures DATAGRAM_HEADER[IP_PROTO] == 17
  {
    hide SumBE, Pseudo, Put16, TransportChecksum, DATAGRAM_WORDS, NewSegment;
    StoredZeroIff(DATAGRAM_HEADER, DATAGRAM, false, SRC_PORT, 20000);
    DatagramCovers();
    DatagramSum();
  }

  // ---------------------------------------------------------------- one TCP segment, byte for byte

  // From port 4000 to port 80, with three bytes of data.
  const SEGMENT_HEADER: seq<byte> := [0x45, 0, 0, 0x2B, 0, 0, 0, 0, 0x40, 6, 0, 0, 0x0A, 3, 5, 0x63, 0x0A, 3, 5, 1]
  const SEGMENT: seq<byte> :=
    [0x0F, 0xA0, 0, 0x50, 0x12, 0x34, 0x56, 0x78, 0, 0, 0, 9, 0x50, 0x18, 0x20, 0, 0xBE, 0xEF, 0, 0, 0x47, 0x45, 0x54]

  // The words its checksum covers once the port is 20000, in two halves.
  const SEGMENT_TAIL: seq<byte> := [0x12, 0x34, 0x56, 0x78] + ([0, 0, 0, 9] + ([0x50, 0x18, 0x20, 0] + ([0, 0, 0, 0] + ([0x47, 0x45, 0x54]))))
  const SEGMENT_WORDS: seq<byte> := [0x0A, 3, 5, 0x63] + ([0x0A, 3, 5, 1] + ([0, 6, 0, 0x17] + ([0x4E, 0x20, 0, 0x50] + (SEGMENT_TAIL))))

  lemma SumOfThree(a: byte, b: byte, c: byte)
    ensures SumBE([a, b, c]) == Word(a, b) + Word(c, 0)
  {
    assert [a, b, c][..2] == [a, b] && [a, b, c][2..] == [c] && Cut(3) == 2;
    SumStep([a, b, c]);
    SumWord([a, b]);
  }

  lemma SegmentTailSum()
    ensures SumBE(SEGMENT_TAIL) == 95250
  {
    hide SumBE;
    SumOfThree(0x47, 0x45, 0x54);
    SumOfFour(0, 0, 0, 0, [0x47, 0x45, 0x54]);
    SumOfFour(0x50, 0x18, 0x20, 0, [0, 0, 0, 0] + ([0x47, 0x45, 0x54]));
    SumOfFour(0, 0, 0, 9, [0x50, 0x18, 0x20, 0] + ([0, 0, 0, 0] + ([0x47, 0x45, 0x54])));
    SumOfFour(0x12, 0x34, 0x56, 0x78, [0, 0, 0, 9] + ([0x50, 0x18, 0x20, 0] + ([0, 0, 0, 0] + ([0x47, 0x45, 0x54]))));
  }

  lemma SegmentWordsSum()
    ensures SumBE(SEGMENT_WORDS) == 123145
  {
    SegmentTailSum();
    hide SumBE, SEGMENT_TAIL;
    var t := SEGMENT_TAIL;
    SumOfFour(0x4E, 0x20, 0, 0x50, t);
    SumOfFour(0, 6, 0, 0x17, [0x4E, 0x20, 0, 0x50] + (t));
    SumOfFour(0x0A, 3, 5, 1, [0, 6, 0, 0x17] + ([0x4E, 0x20, 0, 0x50] + (t)));
    SumOfFour(0x0A, 3, 5, 0x63, [0x0A, 3, 5, 1] + ([0, 6, 0, 0x17] + ([0x4E, 0x20, 0, 0x50] + (t))));
  }

  // The segment with its new port and its checksum zeroed.
  const SEGMENT_ZEROED: seq<byte> :=
    [0x4E, 0x20, 0, 0x50, 0x12, 0x34, 0x56, 0x78, 0, 0, 0, 9, 0x50, 0x18, 0x20, 0, 0, 0, 0, 0, 0x47, 0x45, 0x54]

  lemma SegmentZeroed()
    ensures Put16(Put16(SEGMENT, SRC_PORT, 20000), TCP_SUM, 0) == SEGMENT_ZEROED
  {
    var z := Put16(Put16(SEGMENT, SRC_PORT, 20000), TCP_SUM, 0);
    forall i | 0 <= i < 23 ensures z[i] == SEGMENT_ZEROED[i] {}
  }

  lemma SegmentTailIs()
    ensures [0x4E, 0x20, 0, 0x50] + SEGMENT_TAIL == SEGMENT_ZEROED
  {
    assert [0, 0, 0, 0] + [0x47, 0x45, 0x54] == [0, 0, 0, 0, 0x47, 0x45, 0x54];
    assert [0x50, 0x18, 0x20, 0] + [0, 0, 0, 0, 0x47, 0x45, 0x54] == [0x50, 0x18, 0x20, 0, 0, 0, 0, 0, 0x47, 0x45, 0x54];
    assert [0, 0, 0, 9] + [0x50, 0x18, 0x20, 0, 0, 0, 0, 0, 0x47, 0x45, 0x54] == [0, 0, 0, 9, 0x50, 0x18, 0x20, 0, 0, 0, 0, 0, 0x47, 0x45, 0x54];
    assert [0x12, 0x34, 0x56, 0x78] + [0, 0, 0, 9, 0x50, 0x18, 0x20, 0, 0, 0, 0, 0, 0x47, 0x45, 0x54] == [0x12, 0x34, 0x56, 0x78, 0, 0, 0, 9, 0x50, 0x18, 0x20, 0, 0, 0, 0, 0, 0x47, 0x45, 0x54];
    assert [0x4E, 0x20, 0, 0x50] + [0x12, 0x34, 0x56, 0x78, 0, 0, 0, 9, 0x50, 0x18, 0x20, 0, 0, 0, 0, 0, 0x47, 0x45, 0x54] == SEGMENT_ZEROED;
  }

  lemma SegmentCovers()
    ensures Pseudo(SEGMENT_HEADER, 23) + Put16(Put16(SEGMENT, SRC_PORT, 20000), TCP_SUM, 0) == SEGMENT_WORDS
  {
    SegmentZeroed();
    SegmentTailIs();
    hide SEGMENT, SEGMENT_TAIL, SEGMENT_ZEROED, Put16;
    assert Pseudo(SEGMENT_HEADER, 23) == [0x0A, 3, 5, 0x63] + ([0x0A, 3, 5, 1] + [0, 6, 0, 0x17]);
    var t := [0x4E, 0x20, 0, 0x50] + SEGMENT_TAIL;
    assert [0x0A, 3, 5, 0x63] + ([0x0A, 3, 5, 1] + [0, 6, 0, 0x17]) + t
           == [0x0A, 3, 5, 0x63] + ([0x0A, 3, 5, 1] + ([0, 6, 0, 0x17] + t));
  }

  /** Translated to port 20000: the port, the checksum at 16 and 17, and nothing else. */
  lemma SegmentTranslated()
    ensures NewSegment(SEGMENT_HEADER, SEGMENT, true, SRC_PORT, 20000)
            == [0x4E, 0x20, 0, 0x50, 0x12, 0x34, 0x56, 0x78, 0, 0, 0, 9]
               + [0x50, 0x18, 0x20, 0, 0x1E, 0xF5, 0, 0, 0x47, 0x45, 0x54]
  {
    hide SumBE, Pseudo, TransportChecksum, SEGMENT_WORDS, Fold, Swap;
    var z := Put16(Put16(SEGMENT, SRC_PORT, 20000), TCP_SUM, 0);
    TransportChecksumIsSwapped(SEGMENT_HEADER, z);
    SegmentCovers();
    SegmentWordsSum();
    SwapTimes256(TransportChecksum(SEGMENT_HEADER, z));
    PutSwapped(Put16(SEGMENT, SRC_PORT, 20000), TCP_SUM, TransportChecksum(SEGMENT_HEADER, z));
    FoldUnique(123145, 57610);
  }

  // ---------------------------------------------------------------- whole packets

  /** A packet whose lengths let the translation code go ahead: header, then a whole transport header. */
  predicate Forwardable(p: seq<byte>, n: nat, len: nat, tcp: bool) {
    HeaderSize(n) && n + MinTransport(tcp) <= len < WORD && len <= |p|
  }

  /** Header first, then the segment under the new header; what follows the packet stays. */
  function Translated(p: seq<byte>, n: nat, len: nat, tcp: bool, addr: nat, ip: seq<byte>, o: nat, q: nat): (r: seq<byte>)
    requires Forwardable(p, n, len, tcp)
    requires (addr == IP_SRC || addr == IP_DST) && |ip| == 4 && (o == SRC_PORT || o == DST_PORT) && q < WORD
    ensures |r| == |p|
  {
    var h := NewHeader(p[..n], addr, ip);
    h + NewSegment(h, p[n..len], tcp, o, q) + p[len..]
  }

  /** The translated packet verifies as a whole and carries the new address and port. */
  lemma TranslatedVerifies(p: seq<byte>, n: nat, len: nat, tcp: bool, addr: nat, ip: seq<byte>, o: nat, q: nat)
    requires Forwardable(p, n, len, tcp)
    requires (addr == IP_SRC || addr == IP_DST) && |ip| == 4 && (o == SRC_PORT || o == DST_PORT) && q < WORD
    ensures var r := Translated(p, n, len, tcp, addr, ip, o, q);
            && Checksum16(r[..n]) == 0 && SegmentValid(r[..n], r[n..len])
            && r[addr..addr + 4] == ip && Get16(r, n + o) == q && r[8] == (if p[8] == 0 then 255 else p[8] - 1)
            && r[len..] == p[len..]
  {
    hide Checksum16, SegmentValid, NewHeader, NewSegment, Pseudo, Put16;
    var h := NewHeader(p[..n], addr, ip);
    var m := NewSegment(h, p[n..len], tcp, o, q);
    NewHeaderVerifies(p[..n], addr, ip);
    NewSegmentVerifies(h, p[n..len], tcp, o, q);
    var r := Translated(p, n, len, tcp, addr, ip, o, q);
    assert r[..n] == h && r[n..len] == m && r[len..] == p[len..];
    assert r[addr..addr + 4] == h[addr..addr + 4];
    assert r[n + o] == m[o] && r[n + o + 1] == m[o + 1];
  }

  /** Every other byte is as it was: all but address, TTL, header checksum, port, and checksum at 16 or 6 of the segment. */
  lemma TranslatedKeeps(p: seq<byte>, n: nat, len: nat, tcp: bool, addr: nat, ip: seq<byte>, o: nat, q: nat, i: nat)
    requires Forwardable(p, n, len, tcp) && i < |p|
    requires (addr == IP_SRC || addr == IP_DST) && |ip| == 4 && (o == SRC_PORT || o == DST_PORT) && q < WORD
    requires !(addr <= i < addr + 4) && i != 8 && i != 10 && i != 11
    requires i != n + o && i != n + o + 1
    requires var c := if tcp then 16 else 6; i != n + c && i != n + c + 1
    ensures Translated(p, n, len, tcp, addr, ip, o, q)[i] == p[i]
  {
    hide Checksum16, SegmentValid, NewHeader, NewSegment, Pseudo, Put16, Get16, Word;
    var h := NewHeader(p[..n], addr, ip);
    NewHeaderVerifies(p[..n], addr, ip);
    NewSegmentVerifies(h, p[n..len], tcp, o, q);
    if n <= i < len {
      assert p[n..len][i - n] == p[i];
    }
  }
}
