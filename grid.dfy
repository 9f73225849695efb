/** Snapping a projected point to the layer's grid, and the 11 x 11 block of
    grid cells laid out around it. Projected coordinates are metres. */
module Grid {

  /** Python's `x % unit` for a float `x` and a positive integer `unit`
      (floored, so never negative). */
  function FloorMod(x: real, unit: nat): (m: real)
    requires unit > 0
    ensures 0.0 <= m < unit as real
    ensures (x - m) / unit as real == (x / unit as real).Floor as real
  {
    var q := (x / unit as real).Floor;
    assert q as real * unit as real <= x < (q + 1) as real * unit as real by {
      QuotientBounds(x, unit as real, q);
    }
    x - q as real * unit as real
  }

  lemma QuotientBounds(x: real, u: real, q: int)
    requires u > 0.0 && q == (x / u).Floor
    ensures q as real * u <= x < (q + 1) as real * u
  {
    var y := x / u;
    assert q as real <= y < (q + 1) as real;
    assert y * u == x;
    MulLe(q as real, y, u);
    assert (q + 1) as real * u - y * u == ((q + 1) as real - y) * u;
    MulPos((q + 1) as real - y, u);
  }

  lemma MulLe(a: real, b: real, u: real)
    requires a <= b && u > 0.0
    ensures a * u <= b * u
  {
    assert b * u - a * u == (b - a) * u;
  }

  /** Multiplying by a positive factor preserves strict order, so it can be cancelled. */
  lemma MulLtCancel(a: real, b: real, u: real)
    requires u > 0.0 && a * u < b * u
    ensures a < b
  {
    assert (b - a) * u == b * u - a * u;
  }

  lemma MulPos(a: real, u: real)
    requires a > 0.0 && u > 0.0
    ensures a * u > 0.0
  {
  }

  /** A multiple of `u` leaves no remainder. */
  lemma MulModZero(u: int, m: int)
    requires u > 0
    ensures (u * m) % u == 0
  {
    var a := u * m;
    var d, r := a / u, a % u;
    assert a == u * d + r && 0 <= r < u;
    assert u * (m - d) == r;
    SmallProduct(u, m - d);
  }

  lemma SmallProduct(u: int, t: int)
    requires u > 0 && 0 <= u * t < u
    ensures t == 0
  {
    if t >= 1 {
      MulGe(u, t);
      assert false;
    } else if t <= -1 {
      MulGe(u, -t);
      assert false;
    }
  }

  lemma MulGe(u: int, t: int)
    requires u > 0 && t >= 1
    ensures u * t >= u
  {
  }

  /** The origin snap: `x - (x % unit)`, the largest multiple of `unit` not above `x`. */
  function SnapDown(x: real, unit: nat): (o: int)
    requires unit > 0
    ensures o as real == x - FloorMod(x, unit)
    ensures o % unit == 0
    ensures o as real <= x < (o + unit) as real
  {
    var q := (x / unit as real).Floor;
    QuotientBounds(x, unit as real, q);
    MulModZero(unit, q);
    unit * q
  }

  /** `MINUS_5_TO_PLUS_5` is `range(-5, 6)`: the row and column offsets of the
      block run from `-Reach` to `Reach`. */
  const Reach: int := 5

  /** The side of the block, in cells. */
  const Side: nat := 2 * Reach + 1

  /** A grid cell: south and north northings, west and east eastings. */
  datatype Cell = Cell(s: int, w: int, n: int, e: int)

  /** The cell `i` rows north and `j` columns east of the origin cell. */
  function CellAt(origS: int, origW: int, unit: nat, i: int, j: int): (c: Cell)
    ensures c.n - c.s == unit && c.e - c.w == unit
    ensures c.s - origS == unit * i && c.w - origW == unit * j
  {
    var s := origS + unit * i;
    var w := origW + unit * j;
    Cell(s, w, s + unit, w + unit)
  }

  /** The 121 cells of the block in row-major order: the outer offset picks the
      row (northing), the inner offset the column (easting). */
  function Block(origS: int, origW: int, unit: nat): (r: seq<Cell>)
    ensures |r| == Side * Side
    ensures forall k :: 0 <= k < |r| ==> r[k].n - r[k].s == unit && r[k].e - r[k].w == unit
  {
    seq(Side * Side, k requires 0 <= k < Side * Side =>
      CellAt(origS, origW, unit, k / Side - Reach, k % Side - Reach))
  }

  /** Position `Side * a + b` of the block is row offset `a - Reach`, column offset `b - Reach`. */
  lemma BlockRowMajor(origS: int, origW: int, unit: nat, a: nat, b: nat)
    requires a < Side && b < Side
    ensures Side * a + b < |Block(origS, origW, unit)|
    ensures Block(origS, origW, unit)[Side * a + b] == CellAt(origS, origW, unit, a - Reach, b - Reach)
  {
    var k := Side * a + b;
    assert k / Side == a && k % Side == b;
  }

  /** The cell at offsets `(i, j)`, its south-west corner given, sits at position
      `Side * (i + Reach) + (j + Reach)` of the block. */
  lemma BlockAt(origS: int, origW: int, unit: nat, i: int, j: int, k: int, s: int, w: int)
    requires -Reach <= i <= Reach && -Reach <= j <= Reach
    requires k == Side * (i + Reach) + (j + Reach)
    requires s == origS + unit * i && w == origW + unit * j
    ensures 0 <= k < Side * Side
    ensures Block(origS, origW, unit)[k] == Cell(s, w, s + unit, w + unit)
  {
    BlockRowMajor(origS, origW, unit, i + Reach, j + Reach);
    assert CellAt(origS, origW, unit, i + Reach - Reach, j + Reach - Reach) == Cell(s, w, s + unit, w + unit);
  }

  /** Every cell is a square `unit` on a side, its corners on the grid. */
  lemma {:induction false} BlockCellsAreGridSquares(origS: int, origW: int, unit: nat, k: nat)
    requires unit > 0 && origS % unit == 0 && origW % unit == 0
    requires k < Side * Side
    ensures var c := Block(origS, origW, unit)[k];
      c.n - c.s == unit && c.e - c.w == unit && c.s % unit == 0 && c.w % unit == 0
  {
    var c := Block(origS, origW, unit)[k];
    var i, j := k / Side - Reach, k % Side - Reach;
    assert c.s == origS + unit * i && c.w == origW + unit * j;
    MultipleShift(origS, unit, i);
    MultipleShift(origW, unit, j);
  }

  lemma MultipleShift(x: int, unit: nat, i: int)
    requires unit > 0 && x % unit == 0
    ensures (x + unit * i) % unit == 0
  {
    var q := x / unit;
    assert x == unit * q;
    assert x + unit * i == unit * (q + i);
    MulModZero(unit, q + i);
  }

  /** Cells next to each other in a row share their east/west edge, and cells in
      the same column of consecutive rows share their north/south edge. */
  lemma {:induction false} BlockNeighboursShareEdges(origS: int, origW: int, unit: nat, k: nat)
    requires k < Side * Side
    ensures var b := Block(origS, origW, unit);
      (k % Side < Side - 1 ==> b[k].e == b[k + 1].w && b[k].s == b[k + 1].s && b[k].n == b[k + 1].n)
    ensures var b := Block(origS, origW, unit);
      (k + Side < Side * Side ==> b[k].n == b[k + Side].s && b[k].w == b[k + Side].w && b[k].e == b[k + Side].e)
  {
    var a, c := k / Side, k % Side;
    assert k == Side * a + c;
    NeighboursAt(origS, origW, unit, a, c);
  }

  /** The cell in row `a`, column `c` shares its east edge with the next cell of
      its row and its north edge with the cell above it in the next row. */
  lemma NeighboursAt(origS: int, origW: int, unit: nat, a: nat, c: nat)
    requires a < Side && c < Side
    ensures var b, k := Block(origS, origW, unit), Side * a + c;
      (c < Side - 1 ==> b[k].e == b[k + 1].w && b[k].s == b[k + 1].s && b[k].n == b[k + 1].n) &&
      (a < Side - 1 ==> b[k].n == b[k + Side].s && b[k].w == b[k + Side].w && b[k].e == b[k + Side].e)
  {
    BlockRowMajor(origS, origW, unit, a, c);
    if c < Side - 1 {
      BlockRowMajor(origS, origW, unit, a, c + 1);
      assert unit * (c + 1 - Reach) == unit * (c - Reach) + unit;
    }
    if a < Side - 1 {
      BlockRowMajor(origS, origW, unit, a + 1, c);
      assert unit * (a + 1 - Reach) == unit * (a - Reach) + unit;
    }
  }

  /** The centre of the block (position 60) is the cell holding the snapped point. */
  lemma CentreCellHoldsPoint(north: real, east: real, unit: nat)
    requires unit > 0
    ensures var c := Block(SnapDown(north, unit), SnapDown(east, unit), unit)[Side * Side / 2];
      c.s as real <= north < c.n as real && c.w as real <= east < c.e as real
  {
    BlockRowMajor(SnapDown(north, unit), SnapDown(east, unit), unit, Reach, Reach);
  }

  /** Any point of the block's square lies in exactly one of its cells. */
  lemma BlockCoversSquare(origS: int, origW: int, unit: nat, pn: real, pe: real)
    requires unit > 0
    requires (origS - Reach * unit) as real <= pn < (origS + (Reach + 1) * unit) as real
    requires (origW - Reach * unit) as real <= pe < (origW + (Reach + 1) * unit) as real
    ensures exists k :: 0 <= k < Side * Side && Holds(Block(origS, origW, unit)[k], pn, pe)
    ensures forall k1, k2 :: 0 <= k1 < k2 < Side * Side ==>
      !(Holds(Block(origS, origW, unit)[k1], pn, pe) && Holds(Block(origS, origW, unit)[k2], pn, pe))
  {
    var b := Block(origS, origW, unit);
    var a := RowOf(origS, unit, pn);
    var c := RowOf(origW, unit, pe);
    BlockRowMajor(origS, origW, unit, a, c);
    assert Holds(b[Side * a + c], pn, pe);
    forall k1, k2 | 0 <= k1 < k2 < Side * Side
      ensures !(Holds(b[k1], pn, pe) && Holds(b[k2], pn, pe))
    {
      TwoCellsApart(origS, origW, unit, pn, pe, k1, k2);
    }
  }

  /** Two different cells of the block never both hold a point. */
  lemma TwoCellsApart(origS: int, origW: int, unit: nat, pn: real, pe: real, k1: int, k2: int)
    requires unit > 0
    requires 0 <= k1 < k2 < Side * Side
    ensures !(Holds(Block(origS, origW, unit)[k1], pn, pe) && Holds(Block(origS, origW, unit)[k2], pn, pe))
  {
    var b := Block(origS, origW, unit);
    if Holds(b[k1], pn, pe) && Holds(b[k2], pn, pe) {
      OneRowHolds(origS, unit, pn, k1 / Side, k2 / Side);
      OneRowHolds(origW, unit, pe, k1 % Side, k2 % Side);
      assert false;
    }
  }

  /** Whether a point lies in a cell (south and west edges inclusive). */
  predicate Holds(c: Cell, pn: real, pe: real)
  {
    c.s as real <= pn < c.n as real && c.w as real <= pe < c.e as real
  }

  /** The index, from 0, of the row of the block in which `p` lies. */
  function RowOf(orig: int, unit: nat, p: real): (a: nat)
    requires unit > 0
    requires (orig - Reach * unit) as real <= p < (orig + (Reach + 1) * unit) as real
    ensures a < Side
    ensures (orig + unit * (a - Reach)) as real <= p < (orig + unit * (a - Reach) + unit) as real
  {
    var u := unit as real;
    var lo := (orig - Reach * unit) as real;
    var q := ((p - lo) / u).Floor;
    RowStart(orig, unit, Side);
    assert orig + unit * (Side - Reach) == orig + (Reach + 1) * unit;
    RowIndex(lo, u, p, q);
    RowStart(orig, unit, q);
    q
  }

  /** `floor((p - lo) / u)` numbers the strip of width `u`, from 0 at `lo`, that holds `p`. */
  lemma RowIndex(lo: real, u: real, p: real, q: int)
    requires u > 0.0 && lo <= p < lo + u * Side as real
    requires q == ((p - lo) / u).Floor
    ensures 0 <= q < Side
    ensures lo + u * q as real <= p < lo + u * q as real + u
  {
    QuotientBounds(p - lo, u, q);
    MulLtCancel(0.0, (q + 1) as real, u);
    MulLtCancel(q as real, Side as real, u);
  }

  /** The south (or west) edge of row `q` of the block, counted from 0, as a real. */
  lemma RowStart(orig: int, unit: nat, q: int)
    ensures (orig + unit * (q - Reach)) as real == (orig - Reach * unit) as real + unit as real * q as real
  {
    assert unit * (q - Reach) == unit * q - Reach * unit;
    assert (unit * q) as real == unit as real * q as real;
  }

  /** At most one row of the block holds a given coordinate. */
  lemma OneRowHolds(orig: int, unit: nat, p: real, a1: int, a2: int)
    requires unit > 0
    requires (orig + unit * (a1 - Reach)) as real <= p < (orig + unit * (a1 - Reach) + unit) as real
    requires (orig + unit * (a2 - Reach)) as real <= p < (orig + unit * (a2 - Reach) + unit) as real
    ensures a1 == a2
  {
    if a1 < a2 {
      MulGe(unit, a2 - a1);
      assert false;
    } else if a2 < a1 {
      MulGe(unit, a1 - a2);
      assert false;
    }
  }
}
