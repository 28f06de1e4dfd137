/**
 * The two-level priority bitmap: one byte per group of eight priorities and a group byte with one
 * bit per non-empty table byte. The ready list and every event's wait list have this layout.
 */
module PriorityBitmap {
  import opened Prelude

  // ---------------------------------------------------------------- priority resolution table

  // The table of the source, in its own sixteen rows of sixteen.
  const UNMAP_ROWS: seq<seq<nat>> :=
    [[0, 0, 1, 0, 2, 0, 1, 0, 3, 0, 1, 0, 2, 0, 1, 0],
     [4, 0, 1, 0, 2, 0, 1, 0, 3, 0, 1, 0, 2, 0, 1, 0],
     [5, 0, 1, 0, 2, 0, 1, 0, 3, 0, 1, 0, 2, 0, 1, 0],
     [4, 0, 1, 0, 2, 0, 1, 0, 3, 0, 1, 0, 2, 0, 1, 0],
     [6, 0, 1, 0, 2, 0, 1, 0, 3, 0, 1, 0, 2, 0, 1, 0],
     [4, 0, 1, 0, 2, 0, 1, 0, 3, 0, 1, 0, 2, 0, 1, 0],
     [5, 0, 1, 0, 2, 0, 1, 0, 3, 0, 1, 0, 2, 0, 1, 0],
     [4, 0, 1, 0, 2, 0, 1, 0, 3, 0, 1, 0, 2, 0, 1, 0],
     [7, 0, 1, 0, 2, 0, 1, 0, 3, 0, 1, 0, 2, 0, 1, 0],
     [4, 0, 1, 0, 2, 0, 1, 0, 3, 0, 1, 0, 2, 0, 1, 0],
     [5, 0, 1, 0, 2, 0, 1, 0, 3, 0, 1, 0, 2, 0, 1, 0],
     [4, 0, 1, 0, 2, 0, 1, 0, 3, 0, 1, 0, 2, 0, 1, 0],
     [6, 0, 1, 0, 2, 0, 1, 0, 3, 0, 1, 0, 2, 0, 1, 0],
     [4, 0, 1, 0, 2, 0, 1, 0, 3, 0, 1, 0, 2, 0, 1, 0],
     [5, 0, 1, 0, 2, 0, 1, 0, 3, 0, 1, 0, 2, 0, 1, 0],
     [4, 0, 1, 0, 2, 0, 1, 0, 3, 0, 1, 0, 2, 0, 1, 0]]

  lemma RowsShape()
    ensures |UNMAP_ROWS| == 16
    ensures forall y :: 0 <= y < 16 ==> |UNMAP_ROWS[y]| == 16
  {}

  function UnMap(b: bv8): nat {
    RowsShape();
    UNMAP_ROWS[b as nat / 16][b as nat % 16]
  }

  function Mask(i: nat): bv8
    requires i < 8
  {
    1 as bv8 << i
  }

  predicate Bit(b: bv8, i: nat)
    requires i < 8
  {
    b & Mask(i) != 0
  }

  // The position of the lowest set bit of a nibble.
  function LowestOfNibble(x: bv8): nat {
    if x & 1 != 0 then 0 else if x & 2 != 0 then 1 else if x & 4 != 0 then 2 else 3
  }

  lemma NibbleValue(x: bv8)
    requires x < 16
    ensures x as nat == (if x & 1 == 0 then 0 else 1) + (if x & 2 == 0 then 0 else 2)
                        + (if x & 4 == 0 then 0 else 4) + (if x & 8 == 0 then 0 else 8)
  {}

  lemma Nibbles(b: bv8)
    ensures b as nat / 16 == (b >> 4) as nat
    ensures b as nat % 16 == (b & 15) as nat
  {}

  lemma RowTail(y: nat, x: nat)
    requires y < 16 && 0 < x < 16
    ensures |UNMAP_ROWS| == 16 && |UNMAP_ROWS[y]| == 16
    ensures UNMAP_ROWS[y][x] == if x % 2 == 1 then 0 else if x % 4 == 2 then 1 else if x % 8 == 4 then 2 else 3
  {}

  lemma RowHead(y: nat)
    requires 0 < y < 16
    ensures |UNMAP_ROWS| == 16 && |UNMAP_ROWS[y]| == 16
    ensures UNMAP_ROWS[y][0] == if y % 2 == 1 then 4 else if y % 4 == 2 then 5 else if y % 8 == 4 then 6 else 7
  {}

  lemma TailEntry(y: nat, x: bv8)
    requires y < 16 && 0 < x < 16
    ensures |UNMAP_ROWS| == 16 && |UNMAP_ROWS[y]| == 16
    ensures UNMAP_ROWS[y][x as nat] == LowestOfNibble(x)
  {
    NibbleValue(x);
    RowTail(y, x as nat);
  }

  lemma HeadEntry(y: bv8)
    requires 0 < y < 16
    ensures |UNMAP_ROWS| == 16 && |UNMAP_ROWS[y as nat]| == 16
    ensures UNMAP_ROWS[y as nat][0] == 4 + LowestOfNibble(y)
  {
    NibbleValue(y);
    RowHead(y as nat);
  }

  lemma LowestInLowNibble(b: bv8)
    requires b & 15 != 0
    ensures var x := LowestOfNibble(b & 15); x < 8 && Bit(b, x) && b & (Mask(x) - 1) == 0
  {}

  lemma LowestInHighNibble(b: bv8)
    requires b != 0 && b & 15 == 0
    ensures var x := 4 + LowestOfNibble(b >> 4); x < 8 && Bit(b, x) && b & (Mask(x) - 1) == 0
  {}

  lemma BelowMask(b: bv8, x: nat, j: nat)
    requires j < x < 8 && b & (Mask(x) - 1) == 0
    ensures !Bit(b, j)
  {}

  /** The table maps every non-zero byte to the position of its lowest set bit. */
  lemma UnMapIsLowestBit(b: bv8)
    requires b != 0
    ensures UnMap(b) < 8 && Bit(b, UnMap(b))
    ensures forall j: nat :: j < UnMap(b) ==> !Bit(b, j)
  {
    Nibbles(b);
    if b & 15 != 0 {
      TailEntry(b as nat / 16, b & 15);
      LowestInLowNibble(b);
    } else {
      HeadEntry(b >> 4);
      LowestInHighNibble(b);
    }
    forall j: nat | j < UnMap(b) ensures !Bit(b, j) {
      BelowMask(b, UnMap(b), j);
    }
  }

  // ---------------------------------------------------------------- the two-level bitmap

  datatype Bitmap = Bitmap(grp: bv8, tbl: seq<bv8>)

  /** A group bit is set exactly when its table byte is non-zero. */
  ghost predicate Consistent(b: Bitmap) {
    && |b.tbl| <= 8
    && forall y: nat :: y < 8 ==> (Bit(b.grp, y) <==> y < |b.tbl| && b.tbl[y] != 0)
  }

  predicate Has(b: Bitmap, p: nat) {
    p / 8 < |b.tbl| && Bit(b.tbl[p / 8], p % 8)
  }

  /** The priorities a bitmap holds. */
  ghost function Members(b: Bitmap): (s: set<nat>)
    ensures forall p: nat :: p in s <==> Has(b, p)
  {
    set p: nat | p < 8 * |b.tbl| && Has(b, p)
  }

  function Insert(b: Bitmap, p: nat): Bitmap
    requires p / 8 < |b.tbl| <= 8
  {
    Bitmap(b.grp | Mask(p / 8), b.tbl[p / 8 := b.tbl[p / 8] | Mask(p % 8)])
  }

  function Remove(b: Bitmap, p: nat): Bitmap
    requires p / 8 < |b.tbl| <= 8
  {
    var byte := b.tbl[p / 8] & !Mask(p % 8);
    Bitmap(if byte == 0 then b.grp & !Mask(p / 8) else b.grp, b.tbl[p / 8 := byte])
  }

  function Highest(b: Bitmap): nat
    requires Consistent(b) && b.grp != 0
  {
    UnMapIsLowestBit(b.grp);
    8 * UnMap(b.grp) + UnMap(b.tbl[UnMap(b.grp)])
  }

  lemma OrMask(b: bv8, i: nat, j: nat)
    requires i < 8 && j < 8
    ensures Bit(b | Mask(i), j) <==> i == j || Bit(b, j)
  {}

  lemma ClearMask(b: bv8, i: nat, j: nat)
    requires i < 8 && j < 8
    ensures Bit(b & !Mask(i), j) <==> i != j && Bit(b, j)
  {}

  lemma ClearedByte(b: bv8, i: nat)
    requires i < 8
    ensures b & !Mask(i) != 0 ==> b != 0
  {}

  lemma SomeBit(b: bv8) returns (i: nat)
    requires b != 0
    ensures i < 8 && Bit(b, i)
  {
    UnMapIsLowestBit(b);
    i := UnMap(b);
  }

  lemma InsertKeepsConsistent(b: Bitmap, p: nat)
    requires Consistent(b) && p / 8 < |b.tbl|
    ensures Consistent(Insert(b, p))
  {
    var b' := Insert(b, p);
    OrMask(b.tbl[p / 8], p % 8, p % 8);
    assert b'.tbl[p / 8] != 0;
    forall y: nat | y < 8 ensures Bit(b'.grp, y) <==> y < |b'.tbl| && b'.tbl[y] != 0 {
      OrMask(b.grp, p / 8, y);
    }
  }

  lemma InsertHas(b: Bitmap, p: nat, q: nat)
    requires p / 8 < |b.tbl| <= 8
    ensures Has(Insert(b, p), q) <==> q == p || Has(b, q)
  {
    if q / 8 == p / 8 {
      OrMask(b.tbl[p / 8], p % 8, q % 8);
    }
  }

  lemma InsertMembers(b: Bitmap, p: nat)
    requires Consistent(b) && p / 8 < |b.tbl|
    ensures Consistent(Insert(b, p))
    ensures Members(Insert(b, p)) == Members(b) + {p}
  {
    InsertKeepsConsistent(b, p);
    forall q: nat ensures q in Members(Insert(b, p)) <==> q in Members(b) + {p} {
      InsertHas(b, p, q);
    }
  }

  lemma RemoveKeepsConsistent(b: Bitmap, p: nat)
    requires Consistent(b) && p / 8 < |b.tbl|
    ensures Consistent(Remove(b, p))
  {
    hide Bit, Mask;
    var b' := Remove(b, p);
    forall y: nat | y < 8 ensures Bit(b'.grp, y) <==> y < |b'.tbl| && b'.tbl[y] != 0 {
      assert Bit(b.grp, y) <==> y < |b.tbl| && b.tbl[y] != 0;
      ClearRow(b.grp, b.tbl, p / 8, p % 8, y);
    }
  }

  lemma ClearRow(grp: bv8, tbl: seq<bv8>, g: nat, x: nat, y: nat)
    requires g < |tbl| <= 8 && x < 8 && y < 8 && (Bit(grp, y) <==> y < |tbl| && tbl[y] != 0)
    ensures var byte := tbl[g] & !Mask(x);
            Bit(if byte == 0 then grp & !Mask(g) else grp, y) <==> y < |tbl| && tbl[g := byte][y] != 0
  {
    hide Bit, Mask;
    ClearedByte(tbl[g], x);
    if tbl[g] & !Mask(x) == 0 {
      ClearMask(grp, g, y);
    }
  }

  lemma RemoveHas(b: Bitmap, p: nat, q: nat)
    requires p / 8 < |b.tbl| <= 8
    ensures Has(Remove(b, p), q) <==> q != p && Has(b, q)
  {
    if q / 8 == p / 8 {
      ClearMask(b.tbl[p / 8], p % 8, q % 8);
    }
  }

  lemma RemoveMembers(b: Bitmap, p: nat)
    requires Consistent(b) && p / 8 < |b.tbl|
    ensures Consistent(Remove(b, p))
    ensures Members(Remove(b, p)) == Members(b) - {p}
  {
    RemoveKeepsConsistent(b, p);
    forall q: nat ensures q in Members(Remove(b, p)) <==> q in Members(b) - {p} {
      RemoveHas(b, p, q);
    }
  }

  lemma GroupZeroIffEmpty(b: Bitmap)
    requires Consistent(b)
    ensures b.grp == 0 <==> Members(b) == {}
  {
    if b.grp != 0 {
      var y := SomeBit(b.grp);
      var x := SomeBit(b.tbl[y]);
      assert Has(b, 8 * y + x);
    } else {
      forall p: nat ensures !Has(b, p) {
        if p / 8 < |b.tbl| {
          assert !Bit(b.grp, p / 8);
        }
      }
    }
  }

  /** The two-level lookup finds the least priority in the bitmap. */
  lemma HighestIsLeast(b: Bitmap)
    requires Consistent(b) && Members(b) != {}
    ensures b.grp != 0 && Highest(b) == Least(Members(b))
  {
    GroupZeroIffEmpty(b);
    UnMapIsLowestBit(b.grp);
    var y := UnMap(b.grp);
    UnMapIsLowestBit(b.tbl[y]);
    var x := UnMap(b.tbl[y]);
    var h := Highest(b);
    assert h / 8 == y && h % 8 == x;
    forall p: nat | Has(b, p) ensures h <= p {
      assert Bit(b.grp, p / 8);
      if p / 8 == y {
        assert !(p % 8 < x);
      }
    }
    LeastIs(Members(b), h);
  }
}
