/**
 * Grid geometry of a sheet: the cell size (floor division of what is left
 * after the margins and gaps), each cell's crop box, and counting over the
 * cells in row-major order.
 */
module Geometry {
  import opened Bits

  /** The sheet's pixel size and the grid laid over it. */
  datatype Layout = Layout(width: int, height: int, rows: int, cols: int, margin: int, gap: int)

  /** A crop box (left, upper, right, lower), as the imaging library takes it. */
  datatype Box = Box(left: int, upper: int, right: int, lower: int)

  /**
   * `cell_w` / `cell_h`: (extent - 2 * margin - (count - 1) * gap) // count.
   * Python's `//` by a positive divisor rounds down, as Dafny's `/` does.
   */
  function CellSize(extent: int, count: int, margin: int, gap: int): int
    requires count > 0
  {
    (extent - 2 * margin - (count - 1) * gap) / count
  }

  /** The offset of cell `index` along one axis: `margin + index * (cell + gap)`. */
  function CellOrigin(margin: int, index: int, cell: int, gap: int): int
  {
    margin + index * (cell + gap)
  }

  function CellWidth(l: Layout): int
    requires l.cols > 0
  {
    CellSize(l.width, l.cols, l.margin, l.gap)
  }

  function CellHeight(l: Layout): int
    requires l.rows > 0
  {
    CellSize(l.height, l.rows, l.margin, l.gap)
  }

  /** The crop box of the cell in 0-based row r and column c. */
  function CellBox(l: Layout, r: int, c: int): Box
    requires l.rows > 0 && l.cols > 0
  {
    var x := CellOrigin(l.margin, c, CellWidth(l), l.gap);
    var y := CellOrigin(l.margin, r, CellHeight(l), l.gap);
    Box(x, y, x + CellWidth(l), y + CellHeight(l))
  }

  /** The configurations the geometry promises something for. */
  predicate WellFormed(l: Layout)
  {
    l.rows > 0 && l.cols > 0 && l.margin >= 0 && l.gap >= 0 && CellWidth(l) > 0 && CellHeight(l) > 0
  }

  /**
   * The cells, margins and gaps fit in the extent, and what floor division
   * drops is less than one pixel per cell.
   */
  lemma CellSizeFits(extent: int, count: int, margin: int, gap: int)
    requires count > 0
    ensures 2 * margin + count * CellSize(extent, count, margin, gap) + (count - 1) * gap <= extent
    ensures extent < 2 * margin + count * (CellSize(extent, count, margin, gap) + 1) + (count - 1) * gap
  {
    var n := extent - 2 * margin - (count - 1) * gap;
    var q := n / count;
    assert n == count * q + n % count;
    assert count * (q + 1) == count * q + count;
  }

  /** Along one axis, every cell lies between the two margins. */
  lemma CellInsideMargins(extent: int, count: int, margin: int, gap: int, i: int)
    requires count > 0 && 0 <= i < count && margin >= 0 && gap >= 0
    requires CellSize(extent, count, margin, gap) > 0
    ensures var cell := CellSize(extent, count, margin, gap);
      var o := CellOrigin(margin, i, cell, gap);
      0 <= margin <= o && o + cell <= extent - margin <= extent
  {
    var cell := CellSize(extent, count, margin, gap);
    CellSizeFits(extent, count, margin, gap);
    MulMono(i, count - 1, cell + gap);
    assert (count - 1) * (cell + gap) + cell == count * cell + (count - 1) * gap;
  }

  /** Along one axis, the next cell starts cell + gap further on, so cell i ends before cell j starts. */
  lemma CellsApart(margin: int, cell: int, gap: int, i: int, j: int)
    requires cell > 0 && gap >= 0 && i < j
    ensures CellOrigin(margin, i + 1, cell, gap) - CellOrigin(margin, i, cell, gap) == cell + gap
    ensures CellOrigin(margin, i, cell, gap) + cell <= CellOrigin(margin, j, cell, gap)
  {
    MulMono(i + 1, j, cell + gap);
  }

  /** Every cell's crop box lies on the sheet, inside the outer margin. */
  lemma CellBoxOnSheet(l: Layout, r: int, c: int)
    requires WellFormed(l) && 0 <= r < l.rows && 0 <= c < l.cols
    ensures var b := CellBox(l, r, c);
      0 <= l.margin <= b.left < b.right <= l.width - l.margin
      && 0 <= l.margin <= b.upper < b.lower <= l.height - l.margin
  {
    CellInsideMargins(l.width, l.cols, l.margin, l.gap, c);
    CellInsideMargins(l.height, l.rows, l.margin, l.gap, r);
  }

  /** Two boxes share no pixel. */
  predicate Disjoint(a: Box, b: Box)
  {
    a.right <= b.left || b.right <= a.left || a.lower <= b.upper || b.lower <= a.upper
  }

  /** The crop boxes of two different cells do not overlap. */
  lemma CellBoxesDisjoint(l: Layout, r1: int, c1: int, r2: int, c2: int)
    requires WellFormed(l)
    requires 0 <= r1 < l.rows && 0 <= c1 < l.cols && 0 <= r2 < l.rows && 0 <= c2 < l.cols
    requires r1 != r2 || c1 != c2
    ensures Disjoint(CellBox(l, r1, c1), CellBox(l, r2, c2))
  {
    if c1 < c2 {
      CellsApart(l.margin, CellWidth(l), l.gap, c1, c2);
    } else if c2 < c1 {
      CellsApart(l.margin, CellWidth(l), l.gap, c2, c1);
    } else if r1 < r2 {
      CellsApart(l.margin, CellHeight(l), l.gap, r1, r2);
    } else {
      CellsApart(l.margin, CellHeight(l), l.gap, r2, r1);
    }
  }

  /** Cell (r1, c1) comes before cell (r2, c2) in row-major order. */
  predicate Before(r1: int, c1: int, r2: int, c2: int)
  {
    r1 < r2 || (r1 == r2 && c1 < c2)
  }

  /** The number of cells (r, 0) .. (r, c - 1) satisfying p. */
  function CountInRow(p: (nat, nat) -> bool, r: nat, c: nat): (n: nat)
    ensures n <= c
  {
    if c == 0 then 0 else CountInRow(p, r, c - 1) + (if p(r, c - 1) then 1 else 0)
  }

  /** The number of cells before (r, c) in row-major order, on a grid `cols` wide, satisfying p. */
  function CountBefore(p: (nat, nat) -> bool, cols: nat, r: nat, c: nat): nat
  {
    (if r == 0 then 0 else CountBefore(p, cols, r - 1, cols)) + CountInRow(p, r, c)
  }

  /** Counting up to the end of a row is counting up to the start of the next. */
  lemma CountAtRowEnd(p: (nat, nat) -> bool, cols: nat, r: nat)
    ensures CountBefore(p, cols, r, cols) == CountBefore(p, cols, r + 1, 0)
  {
  }

  /** Every cell. */
  function AllCells(): (nat, nat) -> bool
  {
    (r: nat, c: nat) => true
  }

  /** On a grid `cols` wide, r * cols + c cells come before (r, c). */
  lemma {:induction false} CountAll(cols: nat, r: nat, c: nat)
    requires c <= cols
    ensures CountBefore(AllCells(), cols, r, c) == r * cols + c
  {
    CountAllInRow(r, c);
    if r > 0 {
      CountAll(cols, r - 1, cols);
      assert (r - 1) * cols + cols == r * cols;
    }
  }

  lemma {:induction false} CountAllInRow(r: nat, c: nat)
    ensures CountInRow(AllCells(), r, c) == c
  {
    if c > 0 {
      CountAllInRow(r, c - 1);
    }
  }

  /** A predicate that holds nowhere counts nothing. */
  lemma {:induction false} CountNone(p: (nat, nat) -> bool, cols: nat, r: nat, c: nat)
    requires forall r', c' :: !p(r', c')
    ensures CountBefore(p, cols, r, c) == 0
  {
    CountNoneInRow(p, r, c);
    if r > 0 {
      CountNone(p, cols, r - 1, cols);
    }
  }

  lemma {:induction false} CountNoneInRow(p: (nat, nat) -> bool, r: nat, c: nat)
    requires forall r', c' :: !p(r', c')
    ensures CountInRow(p, r, c) == 0
  {
    if c > 0 {
      CountNoneInRow(p, r, c - 1);
    }
  }
}
