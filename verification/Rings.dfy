/** Circular buffers indexed by free-running counters, and the 16-bit indices that wrap beside them. */
module Rings {
  const INDEX_MODULUS: nat := 0x1_0000

  function Pow2(e: nat): nat {
    if e == 0 then 1 else 2 * Pow2(e - 1)
  }

  /** A virtqueue's size: a power of two, at most 32768. */
  predicate QueueSize(n: nat) {
    exists e: nat :: e <= 15 && n == Pow2(e)
  }

  lemma {:induction false} PowersMultiply(a: nat, b: nat)
    ensures Pow2(a + b) == Pow2(b) * Pow2(a)
    decreases b
  {
    if b > 0 {
      PowersMultiply(a, b - 1);
      assert Pow2(a + b) == 2 * Pow2(a + b - 1);
      assert 2 * (Pow2(b - 1) * Pow2(a)) == (2 * Pow2(b - 1)) * Pow2(a);
    }
  }

  /** The size divides the index modulus, so a wrapped index still finds its slot. */
  lemma SizeFactor(n: nat) returns (m: nat)
    requires QueueSize(n)
    ensures 0 < n && 0 < m && INDEX_MODULUS == m * n
  {
    var e: nat :| e <= 15 && n == Pow2(e);
    m := Pow2(16 - e);
    PowersMultiply(e, 16 - e);
    PowerPositive(e);
    PowerPositive(16 - e);
    PowerOf16();
  }

  lemma PowerOf16()
    ensures Pow2(15) == 32768 && Pow2(16) == 65536
  {
    assert Pow2(3) == 2 * Pow2(2) && Pow2(2) == 2 * Pow2(1) && Pow2(1) == 2 * Pow2(0);
    assert Pow2(3) == 8;
    PowersMultiply(3, 3);
    assert Pow2(6) == 64;
    PowersMultiply(6, 6);
    PowersMultiply(3, 12);
    assert Pow2(16) == 2 * Pow2(15);
  }

  lemma SizeDividesModulus(n: nat)
    requires QueueSize(n)
    ensures 0 < n <= 32768
  {
    var e: nat :| e <= 15 && n == Pow2(e);
    PowersGrow(e, 15);
    PowerPositive(e);
    PowerOf16();
  }

  lemma PowerPositive(a: nat)
    ensures Pow2(a) > 0
  {}

  lemma {:induction false} PowersGrow(a: nat, b: nat)
    requires a <= b
    ensures Pow2(a) <= Pow2(b)
    decreases b
  {
    if a < b {
      PowersGrow(a, b - 1);
    }
  }

  lemma Multiples(k: int, n: nat)
    requires n > 0
    ensures k >= 1 ==> k * n >= n
    ensures k <= -1 ==> k * n <= -(n as int)
    ensures k == 0 ==> k * n == 0
  {}

  lemma ModIs(x: int, n: nat, q: int, r: nat)
    requires n > 0 && x == q * n + r && r < n
    ensures x % n == r && x / n == q
  {
    Multiples(x / n - q, n);
    assert (x / n - q) * n == r - x % n by {
      assert x == (x / n) * n + x % n;
    }
  }

  lemma ModOfModulus(x: nat, m: nat, n: nat)
    requires m > 0 && n > 0
    ensures (x % (m * n)) % n == x % n
  {
    var r := x % (m * n);
    var q := x / (m * n);
    assert x == q * (m * n) + r;
    assert r == (r / n) * n + r % n;
    assert q * (m * n) == (q * m) * n;
    assert (q * m) * n + (r / n) * n == (q * m + r / n) * n;
    ModIs(x, n, q * m + r / n, r % n);
  }

  lemma WrappedSlot(x: nat, n: nat)
    requires QueueSize(n)
    ensures n > 0 && (x % INDEX_MODULUS) % n == x % n
  {
    hide QueueSize;
    var m := SizeFactor(n);
    ModOfModulus(x, m, n);
  }

  lemma WrappedNext(x: nat)
    ensures (x % INDEX_MODULUS + 1) % INDEX_MODULUS == (x + 1) % INDEX_MODULUS
  {}

  /** Two indices less than a wrap apart are equal exactly when their wrapped forms are. */
  lemma WrappedDifference(a: nat, b: nat)
    requires b <= a < b + INDEX_MODULUS
    ensures (a % INDEX_MODULUS - b % INDEX_MODULUS) % INDEX_MODULUS == a - b
    ensures a % INDEX_MODULUS == b % INDEX_MODULUS <==> a == b
  {}

  // ---------------------------------------------------------------- contents

  lemma SlotsDiffer(a: nat, b: nat, n: nat)
    requires n > 0 && a < b < a + n
    ensures a % n != b % n
  {
    var k := b / n - a / n;
    Multiples(k, n);
    assert b - a == k * n + (b % n - a % n) by {
      assert a == (a / n) * n + a % n;
      assert b == (b / n) * n + b % n;
      assert (b / n) * n - (a / n) * n == k * n;
    }
  }

  /** The slot of a free-running position. */
  function Slot(i: nat, n: nat): (s: nat)
    requires n > 0
    ensures s < n
  {
    i % n
  }

  /** The `len` entries that start at free-running position `start`. */
  function Window<T>(ring: seq<T>, start: nat, len: nat): (w: seq<T>)
    requires |ring| > 0
    ensures |w| == len && forall i :: 0 <= i < len ==> w[i] == ring[Slot(start + i, |ring|)]
  {
    seq(len, i requires 0 <= i < len => ring[Slot(start + i, |ring|)])
  }

  lemma DistinctSlots(a: nat, b: nat, n: nat)
    requires n > 0 && a < b < a + n
    ensures Slot(a, n) != Slot(b, n)
  {
    SlotsDiffer(a, b, n);
  }

  lemma SlotOfSlot(x: nat, y: nat, n: nat)
    requires n > 0
    ensures Slot(Slot(x, n) + y, n) == Slot(x + y, n)
  {
    ModOfSum(x, y, n);
  }

  /** Writing the slot behind the window extends it. */
  lemma WindowPush<T>(ring: seq<T>, start: nat, len: nat, x: T)
    requires len < |ring|
    ensures Window(ring[Slot(start + len, |ring|) := x], start, len + 1) == Window(ring, start, len) + [x]
  {
    hide Slot;
    var w, w' := Window(ring, start, len), Window(ring[Slot(start + len, |ring|) := x], start, len + 1);
    forall i | 0 <= i < len ensures w'[i] == w[i] {
      DistinctSlots(start + i, start + len, |ring|);
    }
  }

  lemma WindowPop<T>(ring: seq<T>, start: nat, len: nat)
    requires |ring| > 0 && len > 0
    ensures Window(ring, start, len)[0] == ring[Slot(start, |ring|)]
    ensures Window(ring, start + 1, len - 1) == Window(ring, start, len)[1..]
  {
    hide Slot;
    var w, w' := Window(ring, start, len), Window(ring, start + 1, len - 1);
    forall i | 0 <= i < len - 1 ensures w'[i] == w[i + 1] {
      assert start + 1 + i == start + (i + 1);
    }
  }

  lemma WindowWrap<T>(ring: seq<T>, start: nat, len: nat)
    requires |ring| > 0
    ensures Window(ring, Slot(start, |ring|), len) == Window(ring, start, len)
  {
    hide Slot;
    var w, w' := Window(ring, start, len), Window(ring, Slot(start, |ring|), len);
    forall i | 0 <= i < len ensures w'[i] == w[i] {
      SlotOfSlot(start, i, |ring|);
    }
  }

  lemma WindowAll<T>(ring: seq<T>)
    requires |ring| > 0
    ensures Window(ring, 0, |ring|) == ring
  {}

  lemma HeadSlot(i: nat, n: nat)
    requires i < n
    ensures Slot(i, n) == i
  {}

  // ---------------------------------------------------------------- the source's index arithmetic

  /** `idx % n`, for an index that has wrapped at 16 bits: the slot of the free-running position. */
  function IndexSlot(idx: nat, n: nat, ghost position: nat): (slot: nat)
    requires QueueSize(n) && idx == position % INDEX_MODULUS
    ensures n > 0 && slot == Slot(position, n) < n
  {
    SizeDividesModulus(n);
    WrappedSlot(position, n);
    idx % n
  }

  /** `(a - b) & 0xFFFF`, for wrapped indices: the distance of the free-running positions. */
  function IndexDistance(a: nat, b: nat, ghost x: nat, ghost y: nat): (d: nat)
    requires a == x % INDEX_MODULUS && b == y % INDEX_MODULUS && y <= x < y + INDEX_MODULUS
    ensures d == x - y
  {
    WrappedDifference(x, y);
    (a - b) % INDEX_MODULUS
  }

  /** `idx + 1` in 16 bits. */
  function NextIndex(idx: nat, ghost position: nat): (next: nat)
    requires idx == position % INDEX_MODULUS
    ensures next == (position + 1) % INDEX_MODULUS
  {
    WrappedNext(position);
    (idx + 1) % INDEX_MODULUS
  }

  /** The next position of a circular queue. */
  function NextSlot(i: nat, n: nat): (next: nat)
    requires n > 0
    ensures next == Slot(i + 1, n)
  {
    (i + 1) % n
  }

  lemma ModOfSum(x: nat, y: nat, n: nat)
    requires n > 0
    ensures (x % n + y) % n == (x + y) % n
  {
    var q, r := (x % n + y) / n, (x % n + y) % n;
    assert x % n + y == q * n + r;
    assert x == (x / n) * n + x % n;
    assert (x / n) * n + q * n == (x / n + q) * n;
    ModIs(x + y, n, x / n + q, r);
  }
}
