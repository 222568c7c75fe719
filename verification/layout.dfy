/** Cell arithmetic of the W x H screen: the row-by-row linear index that
    term_puts' room check uses and the column/row wrap of its write loop. */
module Layout {

  /** Linear index of cell (x, y) on a screen `w` columns wide, row by row. */
  function Offset(w: nat, x: nat, y: nat): (p: nat)
  {
    y * w + x
  }

  /** The cell with linear index `p` on a screen `w` columns wide. */
  function Cell(w: nat, p: nat): (c: (nat, nat))
    requires 1 <= w
    ensures c.0 < w && Offset(w, c.0, c.1) == p
  {
    (p % w, p / w)
  }

  /** Where term_puts writes next after writing at (x, y) (term.c:360-366):
      one column right; past the last column, column 0 of the next row; past
      the last row, back to the upper left corner. */
  function Advance(w: nat, h: nat, x: nat, y: nat): (c: (nat, nat))
    ensures 1 <= w && y < h ==> c.0 < w && c.1 < h
  {
    if x + 1 >= w then (0, if y + 1 >= h then 0 else y + 1) else (x + 1, y)
  }

  lemma MulMonotonic(a: nat, b: nat, w: nat)
    requires a <= b
    ensures a * w <= b * w
  {
  }

  /** Distinct cells of one screen have distinct linear indices. */
  lemma {:induction false} OffsetInjective(w: nat, x: nat, y: nat, a: nat, b: nat)
    requires x < w && a < w
    ensures Offset(w, x, y) == Offset(w, a, b) <==> x == a && y == b
  {
    if y < b {
      MulMonotonic(y + 1, b, w);
      assert (y + 1) * w == y * w + w;
    } else if b < y {
      MulMonotonic(b + 1, y, w);
      assert (b + 1) * w == b * w + w;
    }
  }

  /** Cell (x, y) is the only cell of its row-major linear index. */
  lemma OnlyCellAtOffset(w: nat, x: nat, y: nat)
    requires x < w
    ensures forall a: nat, b: nat :: a < w ==> (Offset(w, a, b) == Offset(w, x, y) <==> a == x && b == y)
  {
    forall a: nat, b: nat | a < w
      ensures Offset(w, a, b) == Offset(w, x, y) <==> a == x && b == y
    {
      OffsetInjective(w, a, b, x, y);
    }
  }

  /** Every cell of the screen has a linear index below w * h, and every
      index below w * h names a cell of the screen. */
  lemma {:induction false} CellInScreen(w: nat, h: nat, p: nat)
    requires 1 <= w
    ensures p < w * h <==> Cell(w, p).1 < h
  {
    var (x, y) := Cell(w, p);
    if h <= y {
      MulMonotonic(h, y, w);
    } else {
      MulMonotonic(y + 1, h, w);
      assert (y + 1) * w == y * w + w;
    }
  }

  /** The cell of a given row and column is the only decomposition of its
      linear index. */
  lemma {:induction false} CellOfOffset(w: nat, x: nat, y: nat)
    requires x < w
    ensures Cell(w, Offset(w, x, y)) == (x, y)
  {
    var p := Offset(w, x, y);
    OffsetInjective(w, x, y, Cell(w, p).0, Cell(w, p).1);
  }

  /** Away from the last cell, term_puts' step from (x, y) lands on the cell
      whose linear index is one more. */
  lemma {:induction false} AdvanceFollowsOffset(w: nat, h: nat, x: nat, y: nat)
    requires x < w && y < h && Offset(w, x, y) + 1 < w * h
    ensures Advance(w, h, x, y) == Cell(w, Offset(w, x, y) + 1)
  {
    var p := Offset(w, x, y) + 1;
    if x + 1 < w {
      CellOfOffset(w, x + 1, y);
    } else {
      assert p == Offset(w, 0, y + 1);
      CellInScreen(w, h, p);
      CellOfOffset(w, 0, y + 1);
    }
  }

  /** The wrap back to the upper left corner (term.c:363-366) happens exactly
      when the step starts at the last cell of the screen. */
  lemma {:induction false} CornerWrapOnlyFromLastCell(w: nat, h: nat, x: nat, y: nat)
    requires x < w && y < h
    ensures (x + 1 >= w && y + 1 >= h) <==> Offset(w, x, y) + 1 == w * h
  {
    if x + 1 >= w && y + 1 >= h {
      assert Offset(w, x, y) + 1 == (h - 1) * w + w;
    } else if Offset(w, x, y) + 1 == w * h {
      assert Offset(w, x, y) == Offset(w, w - 1, h - 1) by {
        assert (h - 1) * w + w == w * h;
      }
      OffsetInjective(w, x, y, w - 1, h - 1);
    }
  }

  /** Under term_puts' room check (offset + n < w * h) the write loop never
      takes the wrap back to the upper left corner: none of the n cells it
      writes is the last cell of the screen. */
  lemma {:induction false} RoomExcludesCornerWrap(w: nat, h: nat, x: nat, y: nat, n: nat, i: nat)
    requires 1 <= w && x < w && y < h && Offset(w, x, y) + n < w * h && i < n
    ensures Cell(w, Offset(w, x, y) + i).1 < h
    ensures !(Cell(w, Offset(w, x, y) + i).0 + 1 >= w && Cell(w, Offset(w, x, y) + i).1 + 1 >= h)
  {
    var p := Offset(w, x, y) + i;
    CellInScreen(w, h, p);
    CornerWrapOnlyFromLastCell(w, h, Cell(w, p).0, Cell(w, p).1);
  }
}
