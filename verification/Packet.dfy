/** The source's checksum loops, and the rewriting of a packet in the frame buffer. */
module PacketDriver {
  import opened Prelude
  import Rings
  import Spec = Checksum
  import opened Checksum
  import opened PacketSpec

  // ---------------------------------------------------------------- checksums

  /** The loop that folds a 32-bit sum. */
  method FoldLoop(initial: nat) returns (sum: nat)
    ensures sum == Fold(initial)
  {
    sum := initial;
    while sum / WORD != 0
      invariant Fold(sum) == Fold(initial)
      decreases sum
    {
      sum := sum % WORD + sum / WORD;
    }
  }

  /** What a 32-bit accumulator holds. */
  function Wrap32(x: nat): (r: nat)
    ensures x < WORD * WORD ==> r == x
  {
    x % (WORD * WORD)
  }

  /** A 32-bit addition. */
  function Add32(sum: nat, w: nat, ghost exact: nat): (r: nat)
    requires sum == Wrap32(exact)
    ensures r == Wrap32(exact + w)
  {
    Rings.ModOfSum(exact, w, WORD * WORD);
    (sum + w) % (WORD * WORD)
  }

  /** The bytes a loop has read after `i` steps of one byte, in pairs. */
  function Taken(d: seq<byte>, i: nat): seq<byte> {
    if i <= |d| then d[..i] else d
  }

  lemma TakenEnds(d: seq<byte>)
    ensures SumBE(Taken(d, 0)) == SumLE(Taken(d, 0)) == 0
    ensures Taken(d, |d|) == d && Taken(d, |d| + 1) == d
  {}

  /** One more word, or the odd last byte. */
  lemma TakenStep(d: seq<byte>, i: nat)
    requires i % 2 == 0 && i < |d|
    ensures SumBE(Taken(d, i + 2)) == SumBE(Taken(d, i)) + Word(d[i], if i + 1 < |d| then d[i + 1] else 0)
    ensures SumLE(Taken(d, i + 2)) == SumLE(Taken(d, i)) +
              if i + 1 < |d| then Word(d[i + 1], d[i]) else Swap(Word(d[i], 0))
    ensures i + 1 == |d| ==> Taken(d, i + 2) == d
  {
    hide SumBE, SumLE, Word, Swap;
    if i + 1 < |d| {
      assert d[..i + 2] == d[..i] + [d[i], d[i + 1]];
      SumTwo(d[..i], d[i], d[i + 1]);
    } else {
      assert d == d[..i] + [d[i]];
      SumOne(d[..i], d[i]);
    }
  }

  lemma SumTwo(d: seq<byte>, x: byte, y: byte)
    requires |d| % 2 == 0
    ensures SumBE(d + [x, y]) == SumBE(d) + Word(x, y) && SumLE(d + [x, y]) == SumLE(d) + Word(y, x)
  {
    hide SumBE, SumLE, Word;
    SumConcat(d, [x, y]);
    SumWord([x, y]);
  }

  lemma SumOne(d: seq<byte>, x: byte)
    requires |d| % 2 == 0
    ensures SumBE(d + [x]) == SumBE(d) + Word(x, 0) && SumLE(d + [x]) == SumLE(d) + Swap(Word(x, 0))
  {
    hide SumBE, SumLE, Word, Swap;
    var t := d + [x];
    assert t[..Cut(|t|)] == d && t[Cut(|t|)..] == [x];
    WordSwapped([x]);
    SumStep(t);
  }

  /** checksum16 of `len` bytes at `off`; the accumulator has 32 bits, enough for any IPv4 length. */
  method Checksum16(a: array<byte>, off: nat, len: nat) returns (r: nat)
    requires off + len <= a.Length
    ensures len <= MAX_BYTES ==> r == Spec.Checksum16(a[off..off + len])
  {
    hide Fold, Same, SumBE, Wrap32;
    var sum := WordSum(a, off, len);
    SumBound(a[off..off + len]);
    sum := FoldLoop(sum);
    r := ONES - sum;
  }

  method WordSum(a: array<byte>, off: nat, len: nat) returns (sum: nat)
    requires off + len <= a.Length
    ensures sum == Wrap32(SumBE(a[off..off + len]))
  {
    hide Fold, Same, SumBE, SumLE, Taken, Wrap32, Word, Add32, Swap;
    ghost var d := a[off..off + len];
    sum := 0;
    var p, left := off, len;
    TakenEnds(d);
    while left > 1
      invariant off <= p && 0 <= left && p + left == off + len && (p - off) % 2 == 0
      invariant sum == Wrap32(SumBE(Taken(d, p - off)))
    {
      TakenStep(d, p - off);
      sum := Add32(sum, Word(a[p], a[p + 1]), SumBE(Taken(d, p - off)));
      p := p + 2;
      left := left - 2;
    }
    if left == 1 {
      TakenStep(d, p - off);
      sum := Add32(sum, Word(a[p], 0), SumBE(Taken(d, p - off)));
    }
  }

  /** The two words of an address, as the processor reads them. */
  method AddressSum(a: array<byte>, off: nat) returns (sum: nat)
    requires off + 4 <= a.Length
    ensures sum == SumLE(a[..][off..off + 4])
  {
    hide SumLE, Word;
    SumTwo([], a[off], a[off + 1]);
    SumTwo([a[off], a[off + 1]], a[off + 2], a[off + 3]);
    assert SumLE([]) == 0 by {
      TakenEnds([]);
    }
    assert [] + [a[off], a[off + 1]] == [a[off], a[off + 1]];
    assert a[..][off..off + 4] == [a[off], a[off + 1]] + [a[off + 2], a[off + 3]];
    sum := Word(a[off + 1], a[off]) + Word(a[off + 3], a[off + 2]);
  }

  /** tcp_udp_checksum of the `len` bytes at `off`, under the header at `h`. */
  method TransportChecksum(a: array<byte>, h: nat, off: nat, len: nat) returns (r: nat)
    requires h + IP_MIN <= off && off + len <= a.Length && len < WORD
    ensures r == Spec.TransportChecksum(a[h..off], a[off..off + len])
  {
    hide Fold, Same, SumLE, Swap, Word;
    assert a[..][h..off] == a[h..off];
    var sum := PseudoHeaderSum(a, h, off, len);
    sum := SegmentSum(a, off, len, sum);
    sum := FoldLoop(sum);
    r := ONES - sum;
  }

  lemma SliceOfSlice(d: seq<byte>, b: nat, e: nat, i: nat, j: nat)
    requires b <= e <= |d| && i <= j <= e - b
    ensures d[b..e][i..j] == d[b + i..b + j]
  {
    var x := d[b..e];
    var l, r := x[i..j], d[b + i..b + j];
    forall k | 0 <= k < |l| ensures l[k] == r[k] {
      assert l[k] == x[i + k] == d[b + (i + k)];
    }
  }

  method PseudoHeaderSum(a: array<byte>, h: nat, off: nat, len: nat) returns (sum: nat)
    requires h + IP_MIN <= off && off + len <= a.Length && len < WORD
    ensures sum == PseudoSumLE(a[..][h..off], len) && sum <= 6 * ONES
  {
    hide SumLE, Swap;
    var src := AddressSum(a, h + IP_SRC);
    var dst := AddressSum(a, h + IP_DST);
    ghost var ip := a[..][h..off];
    SliceOfSlice(a[..], h, off, IP_SRC, IP_DST);
    SliceOfSlice(a[..], h, off, IP_DST, IP_MIN);
    SumBound(ip[IP_SRC..IP_DST]);
    SumBound(ip[IP_DST..IP_MIN]);
    sum := src + dst + Swap(a[h + IP_PROTO]) + Swap(len);
  }

  /** The loop over the segment; the accumulator never wraps. */
  method SegmentSum(a: array<byte>, off: nat, len: nat, initial: nat) returns (sum: nat)
    requires off + len <= a.Length && len < WORD && initial <= 6 * ONES
    ensures sum == initial + SumLE(a[off..off + len]) < WORD * WORD
  {
    hide SumLE, Swap, Word, Taken;
    ghost var d := a[off..off + len];
    sum := initial;
    var i := 0;
    TakenEnds(d);
    while i < len
      invariant i <= len + 1 && i % 2 == 0
      invariant sum == initial + SumLE(Taken(d, i))
    {
      TakenStep(d, i);
      if i + 1 < len {
        sum := sum + Word(a[off + i + 1], a[off + i]);
      } else {
        sum := sum + Swap(Word(a[off + i], 0));
      }
      i := i + 2;
    }
    SumBound(d);
  }

  // ---------------------------------------------------------------- rewriting in place

  /** Stores a 16-bit value in network byte order. */
  method Store16(a: array<byte>, o: nat, v: nat)
    requires o + 2 <= a.Length && v < WORD
    modifies a
    ensures a[..] == Put16(old(a[..]), o, v)
  {
    a[o] := v / 256;
    a[o + 1] := v % 256;
  }

  /** The processor's own 16-bit store. */
  method Store16LE(a: array<byte>, o: nat, v: nat)
    requires o + 2 <= a.Length && v < WORD
    modifies a
    ensures a[..] == Put16LE(old(a[..]), o, v)
  {
    a[o] := v % 256;
    a[o + 1] := v / 256;
  }

  lemma PutInside(d: seq<byte>, b: nat, e: nat, o: nat, v: nat)
    requires b + o + 2 <= e <= |d| && v < WORD
    ensures Put16(d, b + o, v)[b..e] == Put16(d[b..e], o, v) && Put16LE(d, b + o, v)[b..e] == Put16LE(d[b..e], o, v)
    ensures Put16(d, b + o, v)[..b] == Put16LE(d, b + o, v)[..b] == d[..b]
    ensures Put16(d, b + o, v)[e..] == Put16LE(d, b + o, v)[e..] == d[e..]
  {}

  /** New address, TTL and header checksum. */
  method RewriteHeader(a: array<byte>, n: nat, o: nat, ip: seq<byte>)
    requires HeaderSize(n) && n <= a.Length && (o == IP_SRC || o == IP_DST) && |ip| == 4
    modifies a
    ensures a[..] == NewHeader(old(a[..n]), o, ip) + old(a[n..])
  {
    ghost var d := a[..];
    a[o], a[o + 1], a[o + 2], a[o + 3] := ip[0], ip[1], ip[2], ip[3];
    a[IP_TTL] := OneLess(a[IP_TTL]);
    assert a[..n] == Readdressed(d[..n], o, ip) && a[n..] == d[n..];
    hide Spec.Checksum16;
    StoreChecksum(a, 0, n, IP_SUM);
    assert a[..] == a[..n] + a[n..];
  }

  /** The three statements every checksum field gets: zero it, sum the part, store the complement. */
  method StoreChecksum(a: array<byte>, b: nat, e: nat, o: nat)
    requires b + o + 2 <= e <= a.Length && e - b < WORD
    modifies a
    ensures a[b..e] == Put16(old(a[b..e]), o, Spec.Checksum16(Put16(old(a[b..e]), o, 0)))
    ensures a[..b] == old(a[..b]) && a[e..] == old(a[e..])
  {
    hide Spec.Checksum16, Put16;
    PutInside(a[..], b, e, o, 0);
    Store16(a, b + o, 0);
    var c := Checksum16(a, b, e - b);
    PutInside(a[..], b, e, o, c);
    Store16(a, b + o, c);
    PutTwice(old(a[b..e]), o, 0, c);
  }

  lemma PutTwice(d: seq<byte>, o: nat, v: nat, w: nat)
    requires o + 2 <= |d| && v < WORD && w < WORD
    ensures Put16(Put16(d, o, v), o, w) == Put16(d, o, w) && Put16LE(Put16(d, o, v), o, w) == Put16LE(d, o, w)
  {}

  /** New identifier and checksum of an ICMP message. */
  method RewriteIcmp(a: array<byte>, b: nat, e: nat, id: nat)
    requires b + ICMP_HEADER <= e <= a.Length && e - b < WORD && id < WORD
    modifies a
    ensures a[b..e] == NewIcmp(old(a[b..e]), id)
    ensures a[..b] == old(a[..b]) && a[e..] == old(a[e..])
  {
    hide Spec.Checksum16, Put16;
    PutInside(a[..], b, e, ICMP_ID, id);
    Store16(a, b + ICMP_ID, id);
    StoreChecksum(a, b, e, ICMP_SUM);
  }

  /** New port and checksum of a TCP or UDP segment, under the header before it. */
  method RewriteSegment(a: array<byte>, n: nat, e: nat, tcp: bool, o: nat, p: nat)
    requires IP_MIN <= n && n + MinTransport(tcp) <= e <= a.Length && e - n < WORD
    requires (o == SRC_PORT || o == DST_PORT) && p < WORD
    modifies a
    ensures a[n..e] == NewSegment(old(a[..n]), old(a[n..e]), tcp, o, p)
    ensures a[..n] == old(a[..n]) && a[e..] == old(a[e..])
  {
    hide Spec.TransportChecksum, Put16, Put16LE;
    PutInside(a[..], n, e, o, p);
    Store16(a, n + o, p);
    ghost var s := a[n..e];
    PutInside(a[..], n, e, SumOffset(tcp), 0);
    Store16(a, n + SumOffset(tcp), 0);
    assert a[0..n] == a[..n];
    var c := TransportChecksum(a, 0, n, e - n);
    PutInside(a[..], n, e, SumOffset(tcp), c);
    Store16LE(a, n + SumOffset(tcp), c);
    PutTwice(s, SumOffset(tcp), 0, c);
  }

  /** The forwarding path's rewriting, header first: the translated packet. */
  method Translate(a: array<byte>, n: nat, len: nat, tcp: bool, addr: nat, ip: seq<byte>, o: nat, q: nat)
    requires Forwardable(a[..], n, len, tcp)
    requires (addr == IP_SRC || addr == IP_DST) && |ip| == 4 && (o == SRC_PORT || o == DST_PORT) && q < WORD
    modifies a
    ensures a[..] == Translated(old(a[..]), n, len, tcp, addr, ip, o, q)
  {
    hide NewHeader, NewSegment;
    ghost var d := a[..];
    RewriteHeader(a, n, addr, ip);
    assert a[..n] == NewHeader(d[..n], addr, ip) && a[n..] == d[n..];
    assert a[n..len] == a[n..][..len - n] && a[len..] == a[n..][len - n..];
    assert d[n..len] == d[n..][..len - n] && d[len..] == d[n..][len - n..];
    RewriteSegment(a, n, len, tcp, o, q);
    assert a[..] == a[..n] + a[n..len] + a[len..];
  }
}
