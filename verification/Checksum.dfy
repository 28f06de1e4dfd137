/**
 * Internet checksums (RFC 1071): sums of 16-bit words in either byte order, their folding to 16 bits,
 * and why the two byte orders agree.
 */
module Checksum {
  import opened Prelude
  import Rings

  const WORD: nat := 0x1_0000
  const ONES: nat := 0xFFFF

  /** Bytes whose 16-bit words cannot overflow a 32-bit sum. */
  const MAX_BYTES: nat := 2 * 0x1_0001

  /** util_htons */
  function Swap(w: nat): (s: nat)
    requires w < WORD
    ensures s < WORD
  {
    (w % 256) * 256 + w / 256
  }

  function Word(hi: byte, lo: byte): (w: nat)
    ensures w < WORD
  {
    var h: int := hi;
    h * 256 + lo
  }

  /** Where the last word of `n` bytes starts; an odd last byte is a word of its own. */
  function Cut(n: nat): (m: nat)
    requires n > 0
    ensures m % 2 == 0 && m < n <= m + 2
  {
    if n % 2 == 1 then n - 1 else n - 2
  }

  /** One or two bytes as a big-endian word, padded with zero. */
  function BigEndian(t: seq<byte>): (w: nat)
    requires 0 < |t| <= 2
    ensures w < WORD
  {
    Word(t[0], if |t| == 2 then t[1] else 0)
  }

  /** The same bytes as the processor reads them. */
  function LittleEndian(t: seq<byte>): (w: nat)
    requires 0 < |t| <= 2
    ensures w < WORD
  {
    Word(if |t| == 2 then t[1] else 0, t[0])
  }

  /** The sum of big-endian words; an odd last byte is the high byte of a word. */
  function SumBE(d: seq<byte>): nat
    decreases |d|
  {
    if d == [] then 0 else SumBE(d[..Cut(|d|)]) + BigEndian(d[Cut(|d|)..])
  }

  /** The sum of little-endian words; an odd last byte is the low byte of a word. */
  function SumLE(d: seq<byte>): nat
    decreases |d|
  {
    if d == [] then 0 else SumLE(d[..Cut(|d|)]) + LittleEndian(d[Cut(|d|)..])
  }

  /** The folding loop: adds the carries back until the sum fits 16 bits. */
  function Fold(s: nat): (r: nat)
    ensures r <= ONES && Same(r, s) && (r == 0 <==> s == 0)
  {
    if s / WORD == 0 then s else Fold(s % WORD + s / WORD)
  }

  /** Equal modulo 65535. */
  predicate Same(a: nat, b: nat) {
    a % ONES == b % ONES
  }

  lemma SameItself(a: nat)
    ensures Same(a, a)
  {}

  lemma SameAdd(a: nat, b: nat, x: nat, y: nat)
    requires Same(a, b) && Same(x, y)
    ensures Same(a + x, b + y)
  {
    Rings.ModOfSum(a, x, ONES);
    Rings.ModOfSum(x, b % ONES, ONES);
    Rings.ModOfSum(y, b % ONES, ONES);
    Rings.ModOfSum(b, y, ONES);
  }

  lemma SameTimes256(a: nat, b: nat)
    requires Same(a, b)
    ensures Same(256 * a, 256 * b)
  {
    var p, q := a / ONES, b / ONES;
    var r := a % ONES;
    assert a == p * ONES + r && b == q * ONES + r;
    Rings.ModIs(256 * a, ONES, 256 * p + (256 * r) / ONES, (256 * r) % ONES);
    Rings.ModIs(256 * b, ONES, 256 * q + (256 * r) / ONES, (256 * r) % ONES);
  }

  /** The folded sum is determined by the sum modulo 65535, and by whether it is zero. */
  lemma FoldUnique(s: nat, r: nat)
    requires r <= ONES && Same(r, s) && (r == 0 <==> s == 0)
    ensures Fold(s) == r
  {
    hide Fold;
    assert Fold(s) % ONES == r % ONES;
  }

  /** checksum16 */
  function Checksum16(d: seq<byte>): (c: nat)
    ensures c < WORD
  {
    ONES - Fold(SumBE(d))
  }

  /** A sum of `n` bytes' words fits 32 bits up to 131074 bytes, so no carry is lost before folding. */
  lemma {:induction false} SumBound(d: seq<byte>)
    ensures SumBE(d) <= ONES * ((|d| + 1) / 2) && SumLE(d) <= ONES * ((|d| + 1) / 2)
    ensures |d| <= MAX_BYTES ==> SumBE(d) < WORD * WORD && SumLE(d) < WORD * WORD
    decreases |d|
  {
    if d != [] {
      SumBound(d[..Cut(|d|)]);
      SumStep(d);
    }
  }

  // ---------------------------------------------------------------- the definition in RFC 1071

  /** Ones'-complement addition: a carry out of 16 bits goes back in at once. */
  function OnesAdd(x: nat, y: nat): (r: nat)
    requires x < WORD && y < WORD
    ensures r < WORD && Same(r, x + y) && (r == 0 <==> x == 0 && y == 0)
  {
    if x + y < WORD then x + y else x + y - ONES
  }

  /** The ones'-complement sum of big-endian words. */
  function OnesSum(d: seq<byte>): (r: nat)
    ensures r < WORD
    decreases |d|
  {
    if d == [] then 0 else OnesAdd(OnesSum(d[..Cut(|d|)]), BigEndian(d[Cut(|d|)..]))
  }

  /** Adding in 32 bits and folding at the end is the ones'-complement sum. */
  lemma {:induction false} FoldIsOnesSum(d: seq<byte>)
    ensures Fold(SumBE(d)) == OnesSum(d)
    decreases |d|
  {
    hide Same, Fold, BigEndian, Cut, OnesAdd;
    if d == [] {
      SameItself(0);
      FoldUnique(0, 0);
    } else {
      hide SumBE;
      var a, w := d[..Cut(|d|)], BigEndian(d[Cut(|d|)..]);
      SumStep(d);
      FoldIsOnesSum(a);
      SameItself(w);
      SameAdd(OnesSum(a), SumBE(a), w, w);
      SameTrans(OnesSum(d), OnesSum(a) + w, SumBE(a) + w);
      FoldUnique(SumBE(d), OnesSum(d));
    }
  }

  lemma SameTrans(a: nat, b: nat, c: nat)
    requires Same(a, b) && Same(b, c)
    ensures Same(a, c)
  {}

  // ---------------------------------------------------------------- byte order

  lemma SwapTimes256(w: nat)
    requires w < WORD
    ensures Same(Swap(w), 256 * w) && (Swap(w) == 0 <==> w == 0) && Swap(Swap(w)) == w
  {
    var h, l := w / 256, w % 256;
    assert w == h * 256 + l && Swap(w) == l * 256 + h;
    assert 256 * w == h * ONES + Swap(w);
  }

  lemma SwapComplement(w: nat)
    requires w < WORD
    ensures Swap(ONES - w) == ONES - Swap(w)
  {
    var h, l := w / 256, w % 256;
    assert w == h * 256 + l && Swap(w) == l * 256 + h;
    assert ONES - w == (255 - h) * 256 + (255 - l);
  }

  lemma WordSwapped(t: seq<byte>)
    requires 0 < |t| <= 2
    ensures LittleEndian(t) == Swap(BigEndian(t))
  {}

  lemma SumStep(d: seq<byte>)
    requires d != []
    ensures SumBE(d) == SumBE(d[..Cut(|d|)]) + BigEndian(d[Cut(|d|)..])
    ensures SumLE(d) == SumLE(d[..Cut(|d|)]) + LittleEndian(d[Cut(|d|)..])
  {}

  lemma AddSwapped(le: nat, be: nat, x: nat, y: nat)
    requires Same(le, 256 * be) && (le == 0 <==> be == 0) && y < WORD && x == Swap(y)
    ensures Same(le + x, 256 * (be + y)) && (le + x == 0 <==> be + y == 0)
  {
    hide Same, Swap;
    SwapTimes256(y);
    SameAdd(le, 256 * be, x, 256 * y);
    assert 256 * be + 256 * y == 256 * (be + y);
  }

  lemma {:induction false} SumsSwapped(d: seq<byte>)
    ensures Same(SumLE(d), 256 * SumBE(d)) && (SumLE(d) == 0 <==> SumBE(d) == 0)
    decreases |d|
  {
    hide Same, Swap, BigEndian, LittleEndian, Cut;
    if d == [] {
      SameItself(0);
    } else {
      hide SumBE, SumLE;
      var a, t := d[..Cut(|d|)], d[Cut(|d|)..];
      SumStep(d);
      WordSwapped(t);
      SumsSwapped(a);
      AddSwapped(SumLE(a), SumBE(a), LittleEndian(t), BigEndian(t));
    }
  }

  /** Summing in the other byte order gives the folded sum with its bytes swapped (RFC 1071, section 2 (B)). */
  lemma FoldSwapped(le: nat, be: nat)
    requires Same(le, 256 * be) && (le == 0 <==> be == 0)
    ensures Fold(le) == Swap(Fold(be))
  {
    hide Fold, Swap;
    var f := Fold(be);
    SwapTimes256(f);
    SameTimes256(f, be);
    FoldUnique(le, Swap(f));
  }

  // ---------------------------------------------------------------- sums of parts

  lemma {:induction false} SumConcat(a: seq<byte>, b: seq<byte>)
    requires |a| % 2 == 0
    ensures SumBE(a + b) == SumBE(a) + SumBE(b) && SumLE(a + b) == SumLE(a) + SumLE(b)
    decreases |b|
  {
    if b == [] {
      assert a + b == a;
    } else {
      var m := Cut(|b|);
      assert Cut(|a + b|) == |a| + m;
      SumStep(b);
      SumStep(a + b);
      hide SumBE, SumLE, Cut, LittleEndian, BigEndian;
      SumConcat(a, b[..m]);
      assert (a + b)[..|a| + m] == a + b[..m] && (a + b)[|a| + m..] == b[m..];
    }
  }

  lemma SumWord(t: seq<byte>)
    requires |t| == 2
    ensures SumBE(t) == BigEndian(t) && SumLE(t) == LittleEndian(t)
  {
    assert t[..Cut(|t|)] == [] && t[Cut(|t|)..] == t;
  }

  /** A 16-bit field in network byte order. */
  function Put16(d: seq<byte>, o: nat, v: nat): (r: seq<byte>)
    requires o + 2 <= |d| && v < WORD
    ensures |r| == |d| && forall i :: 0 <= i < |d| && i != o && i != o + 1 ==> r[i] == d[i]
  {
    d[o := v / 256][o + 1 := v % 256]
  }

  function Get16(d: seq<byte>, o: nat): (v: nat)
    requires o + 2 <= |d|
    ensures v < WORD
  {
    Word(d[o], d[o + 1])
  }

  lemma SumParts(d: seq<byte>, o: nat)
    requires o + 2 <= |d| && o % 2 == 0
    ensures SumBE(d) == SumBE(d[..o]) + Get16(d, o) + SumBE(d[o + 2..])
  {
    hide SumBE, SumLE, LittleEndian, Word;
    var a, w, b := d[..o], d[o..o + 2], d[o + 2..];
    assert d == a + (w + b);
    SumConcat(a, w + b);
    SumConcat(w, b);
    SumWord(w);
  }

  /** Writing a field at an even offset changes the sum by the difference of its values. */
  lemma SumPut(d: seq<byte>, o: nat, v: nat)
    requires o + 2 <= |d| && o % 2 == 0 && v < WORD
    ensures SumBE(Put16(d, o, v)) + Get16(d, o) == SumBE(d) + v
  {
    hide SumBE;
    var r := Put16(d, o, v);
    assert r[..o] == d[..o] && r[o + 2..] == d[o + 2..];
    assert Get16(r, o) == v;
    SumParts(d, o);
    SumParts(r, o);
  }

  // ---------------------------------------------------------------- round trips

  /** Zero the field, sum, store the complement: the whole then sums to all ones, so its checksum is 0. */
  lemma StoredChecksumVerifies(d: seq<byte>, o: nat)
    requires o + 2 <= |d| && o % 2 == 0
    ensures var stored := Put16(d, o, Checksum16(Put16(d, o, 0)));
            Fold(SumBE(stored)) == ONES && Checksum16(stored) == 0
  {
    hide SumBE, Fold;
    var z := Put16(d, o, 0);
    var c := Checksum16(z);
    assert Put16(d, o, c) == Put16(z, o, c);
    SumPut(z, o, c);
    assert Get16(z, o) == 0;
    SameAdd(SumBE(z), Fold(SumBE(z)), c, c);
    FoldUnique(SumBE(z) + c, ONES);
  }

  // ---------------------------------------------------------------- TCP and UDP

  const IP_SRC: nat := 12
  const IP_DST: nat := 16
  const IP_PROTO: nat := 9
  const IP_SUM: nat := 10
  const IP_TTL: nat := 8
  const IP_MIN: nat := 20

  /** The pseudo-header of RFC 793, section 3.1, and RFC 768: addresses, zero, protocol and length. */
  function Pseudo(ip: seq<byte>, len: nat): (p: seq<byte>)
    requires |ip| >= IP_MIN && len < WORD
    ensures |p| == 12
  {
    ip[IP_SRC..IP_DST] + ip[IP_DST..IP_MIN] + [0, ip[IP_PROTO]] + [len / 256, len % 256]
  }

  /** The words the source adds for the pseudo-header, in the processor's byte order. */
  function PseudoSumLE(ip: seq<byte>, len: nat): nat
    requires |ip| >= IP_MIN && len < WORD
  {
    SumLE(ip[IP_SRC..IP_DST]) + SumLE(ip[IP_DST..IP_MIN]) + Swap(ip[IP_PROTO]) + Swap(len)
  }

  /** tcp_udp_checksum: the value the processor stores as a little-endian word. */
  function TransportChecksum(ip: seq<byte>, segment: seq<byte>): (c: nat)
    requires |ip| >= IP_MIN && |segment| < WORD
    ensures c < WORD
  {
    ONES - Fold(PseudoSumLE(ip, |segment|) + SumLE(segment))
  }

  /** A little-endian store. */
  function Put16LE(d: seq<byte>, o: nat, v: nat): (r: seq<byte>)
    requires o + 2 <= |d| && v < WORD
  {
    d[o := v % 256][o + 1 := v / 256]
  }

  lemma PseudoSum(ip: seq<byte>, len: nat)
    requires |ip| >= IP_MIN && len < WORD
    ensures SumLE(Pseudo(ip, len)) == PseudoSumLE(ip, len)
  {
    hide SumBE, SumLE, BigEndian;
    var s, d := ip[IP_SRC..IP_DST], ip[IP_DST..IP_MIN];
    SumConcat(s, d);
    SumConcat(s + d, [0, ip[IP_PROTO]]);
    SumConcat(s + d + [0, ip[IP_PROTO]], [len / 256, len % 256]);
    SumWord([0, ip[IP_PROTO]]);
    SumWord([len / 256, len % 256]);
  }

  /**
   * The little-endian checksum, stored directly, is the big-endian checksum of pseudo-header and
   * segment in network byte order: for every packet, of even or odd length.
   */
  lemma TransportChecksumIsSwapped(ip: seq<byte>, segment: seq<byte>)
    requires |ip| >= IP_MIN && |segment| < WORD
    ensures Swap(TransportChecksum(ip, segment)) == Checksum16(Pseudo(ip, |segment|) + segment)
  {
    hide SumBE, SumLE, Pseudo, PseudoSumLE, Same, Swap, Fold;
    var p := Pseudo(ip, |segment|);
    PseudoSum(ip, |segment|);
    SumConcat(p, segment);
    SumsSwapped(p + segment);
    var be := SumBE(p + segment);
    FoldSwapped(SumLE(p + segment), be);
    SwapTimes256(Fold(be));
    SwapComplement(Swap(Fold(be)));
  }

  lemma PutSwapped(d: seq<byte>, o: nat, v: nat)
    requires o + 2 <= |d| && v < WORD
    ensures Put16LE(d, o, v) == Put16(d, o, Swap(v))
  {}

  /** What a receiver checks: pseudo-header and segment sum to all ones. */
  predicate SegmentValid(ip: seq<byte>, segment: seq<byte>)
    requires |ip| >= IP_MIN && |segment| < WORD
  {
    Fold(SumBE(Pseudo(ip, |segment|) + segment)) == ONES
  }

  /** Zero the field, compute, store: the segment verifies under its pseudo-header. */
  lemma StoredTransportVerifies(ip: seq<byte>, segment: seq<byte>, o: nat)
    requires |ip| >= IP_MIN && |segment| < WORD && o + 2 <= |segment| && o % 2 == 0
    ensures SegmentValid(ip, Put16LE(segment, o, TransportChecksum(ip, Put16(segment, o, 0))))
  {
    var z := Put16(segment, o, 0);
    var c := TransportChecksum(ip, z);
    var p := Pseudo(ip, |segment|);
    TransportChecksumIsSwapped(ip, z);
    PutSwapped(segment, o, c);
    StoredChecksumVerifies(p + segment, 12 + o);
    assert Put16(p + segment, 12 + o, 0) == p + z;
    assert Put16(p + segment, 12 + o, Swap(c)) == p + Put16(segment, o, Swap(c));
  }

  /**
   * RFC 768 reserves a UDP checksum of zero for "none": a computed zero is sent as all ones. The source
   * stores what it computes, so it stores zero exactly when pseudo-header and datagram sum to a multiple of 65535.
   */
  lemma ZeroChecksumIff(ip: seq<byte>, segment: seq<byte>)
    requires |ip| >= IP_MIN && |segment| < WORD && ip[IP_PROTO] != 0
    ensures TransportChecksum(ip, segment) == 0 <==> Same(SumBE(Pseudo(ip, |segment|) + segment), 0)
  {
    hide SumBE, SumLE, Pseudo, PseudoSumLE, Swap, Fold;
    var p := Pseudo(ip, |segment|);
    TransportChecksumIsSwapped(ip, segment);
    SwapTimes256(TransportChecksum(ip, segment));
    SumConcat(p, segment);
    PseudoNonZero(ip, |segment|);
  }

  lemma PseudoNonZero(ip: seq<byte>, len: nat)
    requires |ip| >= IP_MIN && len < WORD && ip[IP_PROTO] != 0
    ensures SumBE(Pseudo(ip, len)) > 0
  {
    PseudoSum(ip, len);
    SumsSwapped(Pseudo(ip, len));
    SwapTimes256(ip[IP_PROTO]);
  }
}
