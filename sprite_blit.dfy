/**
 * XOR sprite blitting with wrap-around, as both display files implement it.
 *
 * A sprite is a sequence of bytes, one per row; bit i of row j (most significant bit first)
 * lands on column (x + i) mod width and row (y + j) mod height. Every set bit toggles its
 * target cell; the blit reports a collision as soon as a set bit finds its target lit.
 * The two display files keep the cells in a linear buffer row by row; the main processor's
 * own drawing loop addresses the same buffer column by column, so the layout is a parameter.
 */
module SpriteBlit {
  import opened Bits

  datatype Layout = RowMajor | ColumnMajor

  /** A width × height grid of cells stored in a linear buffer of width * height cells. */
  datatype Screen = Screen(width: nat, height: nat, layout: Layout)

  /** A screen a sprite can be drawn on: both dimensions are positive. */
  predicate Wf(scr: Screen)
  {
    0 < scr.width && 0 < scr.height
  }

  function Size(scr: Screen): nat
  {
    scr.width * scr.height
  }

  /** The buffer index of the cell at (col, row). */
  function Cell(scr: Screen, col: nat, row: nat): (p: nat)
    requires col < scr.width && row < scr.height
    ensures p < Size(scr)
  {
    match scr.layout
    case RowMajor =>
      CellBound(col, row, scr.width, scr.height);
      col + row * scr.width
    case ColumnMajor =>
      CellBound(row, col, scr.height, scr.width);
      assert scr.height * scr.width == Size(scr);
      row + col * scr.height
  }

  /** The column of buffer index p. */
  function ColOf(scr: Screen, p: nat): nat
    requires Wf(scr)
  {
    match scr.layout
    case RowMajor => p % scr.width
    case ColumnMajor => p / scr.height
  }

  /** The row of buffer index p. */
  function RowOf(scr: Screen, p: nat): nat
    requires Wf(scr)
  {
    match scr.layout
    case RowMajor => p / scr.width
    case ColumnMajor => p % scr.height
  }

  /** Every buffer index is the cell of exactly one coordinate pair: the layout is a bijection. */
  lemma {:induction false} CellOnto(scr: Screen, p: nat)
    requires Wf(scr) && p < Size(scr)
    ensures ColOf(scr, p) < scr.width && RowOf(scr, p) < scr.height
    ensures Cell(scr, ColOf(scr, p), RowOf(scr, p)) == p
  {
    match scr.layout
    case RowMajor =>
      DivBelow(p, scr.width, scr.height);
    case ColumnMajor =>
      assert p < scr.height * scr.width;
      DivBelow(p, scr.height, scr.width);
  }

  lemma {:induction false} CellInjective(scr: Screen, col: nat, row: nat, col': nat, row': nat)
    requires col < scr.width && row < scr.height && col' < scr.width && row' < scr.height
    ensures Cell(scr, col, row) == Cell(scr, col', row') <==> col == col' && row == row'
  {
    match scr.layout
    case RowMajor => LinearInjective(col, row, col', row', scr.width);
    case ColumnMajor => LinearInjective(row, col, row', col', scr.height);
  }

  /** The cell that bit i of sprite row j lands on when the sprite is drawn at (x, y). */
  function Target(scr: Screen, x: nat, y: nat, j: nat, i: nat): (p: nat)
    requires Wf(scr)
    ensures p < Size(scr)
  {
    Cell(scr, (x + i) % scr.width, (y + j) % scr.height)
  }

  /** Within one sprite that is no taller than the screen, no two bits share a target cell. */
  lemma {:induction false} TargetInjective(scr: Screen, x: nat, y: nat, j: nat, i: nat, j': nat, i': nat)
    requires Wf(scr) && 8 <= scr.width
    requires j < scr.height && j' < scr.height && i < 8 && i' < 8
    ensures Target(scr, x, y, j, i) == Target(scr, x, y, j', i') <==> j == j' && i == i'
  {
    CellInjective(scr, (x + i) % scr.width, (y + j) % scr.height, (x + i') % scr.width, (y + j') % scr.height);
    if (x + i) % scr.width == (x + i') % scr.width {
      ModInjective(x, i, i', scr.width);
    }
    if (y + j) % scr.height == (y + j') % scr.height {
      ModInjective(y, j, j', scr.height);
    }
  }

  /** The buffer and the collision flag while a sprite is being drawn. */
  datatype Blit = Blit(cells: seq<bool>, collision: bool)

  /** One pass of the inner loop of draw: a set bit toggles its target and notes whether it was lit. */
  function Visit(scr: Screen, st: Blit, x: nat, y: nat, sprite: seq<byte>, j: nat, i: nat): (r: Blit)
    requires Wf(scr) && |st.cells| == Size(scr) && j < |sprite| && i < 8
    ensures |r.cells| == Size(scr)
  {
    if BitAt(sprite[j], i) then
      var p := Target(scr, x, y, j, i);
      Blit(st.cells[p := !st.cells[p]], st.collision || st.cells[p])
    else
      st
  }

  /** The state after bits 0 .. b-1 of sprite row j have been visited, starting from st. */
  function DrawBits(scr: Screen, st: Blit, x: nat, y: nat, sprite: seq<byte>, j: nat, b: nat): (r: Blit)
    requires Wf(scr) && |st.cells| == Size(scr) && j < |sprite| && b <= 8
    ensures |r.cells| == Size(scr)
    // The row index is part of the measure so that a literal bit count does not unroll the recursion.
    decreases b, j
  {
    if b == 0 then st
    else Visit(scr, DrawBits(scr, st, x, y, sprite, j, b - 1), x, y, sprite, j, b - 1)
  }

  /** The state after sprite rows 0 .. r-1 have been drawn on cells, with no collision yet. */
  function DrawRows(scr: Screen, cells: seq<bool>, x: nat, y: nat, sprite: seq<byte>, r: nat): (d: Blit)
    requires Wf(scr) && |cells| == Size(scr) && r <= |sprite|
    ensures |d.cells| == Size(scr)
    decreases r
  {
    if r == 0 then Blit(cells, false)
    else DrawBits(scr, DrawRows(scr, cells, x, y, sprite, r - 1), x, y, sprite, r - 1, 8)
  }

  /** Drawing a whole sprite at (x, y): the new buffer and whether a collision occurred. */
  function Draw(scr: Screen, cells: seq<bool>, x: nat, y: nat, sprite: seq<byte>): (d: Blit)
    requires Wf(scr) && |cells| == Size(scr)
    ensures |d.cells| == Size(scr)
  {
    DrawRows(scr, cells, x, y, sprite, |sprite|)
  }

  /** Some set bit of the sprite lands on cell p. */
  ghost predicate Covered(scr: Screen, x: nat, y: nat, sprite: seq<byte>, p: nat)
    requires Wf(scr)
  {
    exists j, i :: 0 <= j < |sprite| && 0 <= i < 8 && BitAt(sprite[j], i) && Target(scr, x, y, j, i) == p
  }

  /** Some set bit of the sprite lands on a cell that is lit in cells. */
  ghost predicate HitsLit(scr: Screen, cells: seq<bool>, x: nat, y: nat, sprite: seq<byte>)
    requires Wf(scr) && |cells| == Size(scr)
  {
    exists j, i :: 0 <= j < |sprite| && 0 <= i < 8 && BitAt(sprite[j], i) && cells[Target(scr, x, y, j, i)]
  }

  // ---------------------------------------------------------------------------------------
  // Drawing is XOR with a mask that does not depend on the buffer.

  /** The cells a sprite toggles: drawing it on a blank buffer. */
  function Mask(scr: Screen, x: nat, y: nat, sprite: seq<byte>): (m: seq<bool>)
    requires Wf(scr)
    ensures |m| == Size(scr)
  {
    Draw(scr, AllOff(Size(scr)), x, y, sprite).cells
  }

  lemma {:induction false} DrawBitsXor(scr: Screen, st: Blit, off: Blit, x: nat, y: nat, sprite: seq<byte>, j: nat, b: nat)
    requires Wf(scr) && |st.cells| == Size(scr) && |off.cells| == Size(scr) && j < |sprite| && b <= 8
    ensures forall p :: 0 <= p < Size(scr) ==>
      (DrawBits(scr, st, x, y, sprite, j, b).cells[p] != DrawBits(scr, off, x, y, sprite, j, b).cells[p])
      == (st.cells[p] != off.cells[p])
    decreases b
  {
    if b > 0 {
      DrawBitsXor(scr, st, off, x, y, sprite, j, b - 1);
    }
  }

  lemma {:induction false} DrawRowsXor(scr: Screen, cells: seq<bool>, x: nat, y: nat, sprite: seq<byte>, r: nat)
    requires Wf(scr) && |cells| == Size(scr) && r <= |sprite|
    ensures forall p :: 0 <= p < Size(scr) ==>
      DrawRows(scr, cells, x, y, sprite, r).cells[p]
      == (cells[p] != DrawRows(scr, AllOff(Size(scr)), x, y, sprite, r).cells[p])
    decreases r
  {
    if r > 0 {
      DrawRowsXor(scr, cells, x, y, sprite, r - 1);
      DrawBitsXor(scr, DrawRows(scr, cells, x, y, sprite, r - 1),
                  DrawRows(scr, AllOff(Size(scr)), x, y, sprite, r - 1), x, y, sprite, r - 1, 8);
    }
  }

  /** Drawing toggles exactly the cells of the sprite's mask, whatever the buffer holds. */
  lemma DrawIsXorMask(scr: Screen, cells: seq<bool>, x: nat, y: nat, sprite: seq<byte>)
    requires Wf(scr) && |cells| == Size(scr)
    ensures forall p :: 0 <= p < Size(scr) ==>
      Draw(scr, cells, x, y, sprite).cells[p] == (cells[p] != Mask(scr, x, y, sprite)[p])
  {
    DrawRowsXor(scr, cells, x, y, sprite, |sprite|);
  }

  /** Drawing the same sprite twice at the same place restores the buffer. */
  lemma DrawTwiceRestores(scr: Screen, cells: seq<bool>, x: nat, y: nat, sprite: seq<byte>)
    requires Wf(scr) && |cells| == Size(scr)
    ensures Draw(scr, Draw(scr, cells, x, y, sprite).cells, x, y, sprite).cells == cells
  {
    var once := Draw(scr, cells, x, y, sprite).cells;
    DrawIsXorMask(scr, cells, x, y, sprite);
    DrawIsXorMask(scr, once, x, y, sprite);
  }

  // ---------------------------------------------------------------------------------------
  // Cells under no set bit are never written.

  lemma {:induction false} DrawBitsUntouched(scr: Screen, st: Blit, x: nat, y: nat, sprite: seq<byte>, j: nat, b: nat, p: nat)
    requires Wf(scr) && |st.cells| == Size(scr) && j < |sprite| && b <= 8 && p < Size(scr)
    requires forall i :: 0 <= i < b && BitAt(sprite[j], i) ==> Target(scr, x, y, j, i) != p
    ensures DrawBits(scr, st, x, y, sprite, j, b).cells[p] == st.cells[p]
    decreases b
  {
    if b > 0 {
      DrawBitsUntouched(scr, st, x, y, sprite, j, b - 1, p);
    }
  }

  lemma UncoveredRow(scr: Screen, x: nat, y: nat, sprite: seq<byte>, j: nat, p: nat)
    requires Wf(scr) && j < |sprite| && !Covered(scr, x, y, sprite, p)
    ensures forall i :: 0 <= i < 8 && BitAt(sprite[j], i) ==> Target(scr, x, y, j, i) != p
  {
  }

  lemma {:induction false} DrawRowsUntouched(scr: Screen, cells: seq<bool>, x: nat, y: nat, sprite: seq<byte>, r: nat, p: nat)
    requires Wf(scr) && |cells| == Size(scr) && r <= |sprite| && p < Size(scr)
    requires !Covered(scr, x, y, sprite, p)
    ensures DrawRows(scr, cells, x, y, sprite, r).cells[p] == cells[p]
    decreases r
  {
    if r > 0 {
      var j := r - 1;
      DrawRowsUntouched(scr, cells, x, y, sprite, j, p);
      UncoveredRow(scr, x, y, sprite, j, p);
      DrawBitsUntouched(scr, DrawRows(scr, cells, x, y, sprite, j), x, y, sprite, j, 8, p);
    }
  }

  /** A cell that no set bit of the sprite lands on keeps its value. */
  lemma DrawLeavesUncovered(scr: Screen, cells: seq<bool>, x: nat, y: nat, sprite: seq<byte>, p: nat)
    requires Wf(scr) && |cells| == Size(scr) && p < Size(scr)
    requires !Covered(scr, x, y, sprite, p)
    ensures Draw(scr, cells, x, y, sprite).cells[p] == cells[p]
  {
    DrawRowsUntouched(scr, cells, x, y, sprite, |sprite|, p);
  }

  // ---------------------------------------------------------------------------------------
  // A sprite no taller than the screen visits every cell at most once, so its effect is
  // exactly "toggle the covered cells" and the collision flag is "some set bit hit a lit cell".

  /** Bit (j, i) comes before bit (r, b) in draw's visiting order. */
  predicate Before(j: nat, i: nat, r: nat, b: nat)
  {
    j < r || (j == r && i < b)
  }

  ghost predicate CoveredBefore(scr: Screen, x: nat, y: nat, sprite: seq<byte>, r: nat, b: nat, p: nat)
    requires Wf(scr)
  {
    exists j, i :: 0 <= j < |sprite| && 0 <= i < 8 && Before(j, i, r, b) && BitAt(sprite[j], i) && Target(scr, x, y, j, i) == p
  }

  ghost predicate LitBefore(scr: Screen, cells: seq<bool>, x: nat, y: nat, sprite: seq<byte>, r: nat, b: nat)
    requires Wf(scr) && |cells| == Size(scr)
  {
    exists j, i :: 0 <= j < |sprite| && 0 <= i < 8 && Before(j, i, r, b) && BitAt(sprite[j], i) && cells[Target(scr, x, y, j, i)]
  }

  /** Visiting bit (r, b) adds at most that bit's target to the covered cells. */
  lemma CoveredStep(scr: Screen, x: nat, y: nat, sprite: seq<byte>, r: nat, b: nat, p: nat)
    requires Wf(scr) && r < |sprite| && b < 8
    ensures CoveredBefore(scr, x, y, sprite, r, b + 1, p)
        == (CoveredBefore(scr, x, y, sprite, r, b, p) || (BitAt(sprite[r], b) && Target(scr, x, y, r, b) == p))
  {
    if CoveredBefore(scr, x, y, sprite, r, b + 1, p) && !(BitAt(sprite[r], b) && Target(scr, x, y, r, b) == p) {
      var j, i :| 0 <= j < |sprite| && 0 <= i < 8 && Before(j, i, r, b + 1) && BitAt(sprite[j], i) && Target(scr, x, y, j, i) == p;
      assert Before(j, i, r, b);
    }
  }

  /** Visiting bit (r, b) adds at most that bit's hit to the collision. */
  lemma LitStep(scr: Screen, cells: seq<bool>, x: nat, y: nat, sprite: seq<byte>, r: nat, b: nat)
    requires Wf(scr) && |cells| == Size(scr) && r < |sprite| && b < 8
    ensures LitBefore(scr, cells, x, y, sprite, r, b + 1)
        == (LitBefore(scr, cells, x, y, sprite, r, b) || (BitAt(sprite[r], b) && cells[Target(scr, x, y, r, b)]))
  {
    if LitBefore(scr, cells, x, y, sprite, r, b + 1) && !(BitAt(sprite[r], b) && cells[Target(scr, x, y, r, b)]) {
      var j, i :| 0 <= j < |sprite| && 0 <= i < 8 && Before(j, i, r, b + 1) && BitAt(sprite[j], i) && cells[Target(scr, x, y, j, i)];
      assert Before(j, i, r, b);
    }
  }

  /** No bit visited before (r, b) shares its target. */
  lemma FreshTarget(scr: Screen, x: nat, y: nat, sprite: seq<byte>, r: nat, b: nat)
    requires Wf(scr) && 8 <= scr.width && |sprite| <= scr.height && r < |sprite| && b < 8
    ensures !CoveredBefore(scr, x, y, sprite, r, b, Target(scr, x, y, r, b))
  {
    if CoveredBefore(scr, x, y, sprite, r, b, Target(scr, x, y, r, b)) {
      var j, i :| 0 <= j < |sprite| && 0 <= i < 8 && Before(j, i, r, b) && BitAt(sprite[j], i) && Target(scr, x, y, j, i) == Target(scr, x, y, r, b);
      TargetInjective(scr, x, y, j, i, r, b);
      assert false;
    }
  }

  /** The bits before (r - 1, 8) are the bits before (r, 0). */
  lemma CoveredBoundary(scr: Screen, x: nat, y: nat, sprite: seq<byte>, r: nat, p: nat)
    requires Wf(scr) && 0 < r
    ensures CoveredBefore(scr, x, y, sprite, r - 1, 8, p) == CoveredBefore(scr, x, y, sprite, r, 0, p)
  {
  }

  lemma LitBoundary(scr: Screen, cells: seq<bool>, x: nat, y: nat, sprite: seq<byte>, r: nat)
    requires Wf(scr) && |cells| == Size(scr) && 0 < r
    ensures LitBefore(scr, cells, x, y, sprite, r - 1, 8) == LitBefore(scr, cells, x, y, sprite, r, 0)
  {
  }

  /** After rows 0 .. r-1, cell p is toggled exactly when some bit of those rows covers it. */
  lemma {:induction false} RowsCellExact(scr: Screen, cells: seq<bool>, x: nat, y: nat, sprite: seq<byte>, r: nat, p: nat)
    requires Wf(scr) && 8 <= scr.width && |sprite| <= scr.height
    requires |cells| == Size(scr) && r <= |sprite| && p < Size(scr)
    ensures DrawRows(scr, cells, x, y, sprite, r).cells[p] == (cells[p] != CoveredBefore(scr, x, y, sprite, r, 0, p))
    decreases r, 0
  {
    if r > 0 {
      BitsCellExact(scr, cells, x, y, sprite, r - 1, 8, p);
      CoveredBoundary(scr, x, y, sprite, r, p);
    }
  }

  /** The same in the middle of row r, after its bits 0 .. b-1. */
  lemma {:induction false} BitsCellExact(scr: Screen, cells: seq<bool>, x: nat, y: nat, sprite: seq<byte>, r: nat, b: nat, p: nat)
    requires Wf(scr) && 8 <= scr.width && |sprite| <= scr.height
    requires |cells| == Size(scr) && r < |sprite| && b <= 8 && p < Size(scr)
    ensures DrawBits(scr, DrawRows(scr, cells, x, y, sprite, r), x, y, sprite, r, b).cells[p]
         == (cells[p] != CoveredBefore(scr, x, y, sprite, r, b, p))
    decreases r, b + 1
  {
    if b == 0 {
      RowsCellExact(scr, cells, x, y, sprite, r, p);
    } else {
      BitsCellExact(scr, cells, x, y, sprite, r, b - 1, p);
      CoveredStep(scr, x, y, sprite, r, b - 1, p);
      FreshTarget(scr, x, y, sprite, r, b - 1);
    }
  }

  /** After rows 0 .. r-1, the collision flag says whether some set bit of those rows met a lit cell. */
  lemma {:induction false} RowsHitExact(scr: Screen, cells: seq<bool>, x: nat, y: nat, sprite: seq<byte>, r: nat)
    requires Wf(scr) && 8 <= scr.width && |sprite| <= scr.height
    requires |cells| == Size(scr) && r <= |sprite|
    ensures DrawRows(scr, cells, x, y, sprite, r).collision == LitBefore(scr, cells, x, y, sprite, r, 0)
    decreases r, 0
  {
    if r > 0 {
      BitsHitExact(scr, cells, x, y, sprite, r - 1, 8);
      LitBoundary(scr, cells, x, y, sprite, r);
    }
  }

  lemma {:induction false} BitsHitExact(scr: Screen, cells: seq<bool>, x: nat, y: nat, sprite: seq<byte>, r: nat, b: nat)
    requires Wf(scr) && 8 <= scr.width && |sprite| <= scr.height
    requires |cells| == Size(scr) && r < |sprite| && b <= 8
    ensures DrawBits(scr, DrawRows(scr, cells, x, y, sprite, r), x, y, sprite, r, b).collision
         == LitBefore(scr, cells, x, y, sprite, r, b)
    decreases r, b + 1
  {
    if b == 0 {
      RowsHitExact(scr, cells, x, y, sprite, r);
    } else {
      BitsHitExact(scr, cells, x, y, sprite, r, b - 1);
      BitsCellExact(scr, cells, x, y, sprite, r, b - 1, Target(scr, x, y, r, b - 1));
      FreshTarget(scr, x, y, sprite, r, b - 1);
      LitStep(scr, cells, x, y, sprite, r, b - 1);
    }
  }

  /**
   * For a sprite no taller than the screen on a screen at least 8 cells wide: exactly the cells
   * under set bits are toggled, and the collision result is true iff some set bit lands on a
   * cell that was lit before the draw.
   */
  lemma DrawExact(scr: Screen, cells: seq<bool>, x: nat, y: nat, sprite: seq<byte>)
    requires Wf(scr) && 8 <= scr.width && |sprite| <= scr.height && |cells| == Size(scr)
    ensures forall p :: 0 <= p < Size(scr) ==>
      Draw(scr, cells, x, y, sprite).cells[p] == (cells[p] != Covered(scr, x, y, sprite, p))
    ensures Draw(scr, cells, x, y, sprite).collision == HitsLit(scr, cells, x, y, sprite)
  {
    forall p | 0 <= p < Size(scr)
      ensures Draw(scr, cells, x, y, sprite).cells[p] == (cells[p] != Covered(scr, x, y, sprite, p))
    {
      RowsCellExact(scr, cells, x, y, sprite, |sprite|, p);
      assert CoveredBefore(scr, x, y, sprite, |sprite|, 0, p) == Covered(scr, x, y, sprite, p);
    }
    RowsHitExact(scr, cells, x, y, sprite, |sprite|);
  }

  /** The facts a display's draw method promises, for a screen at least 8 cells wide. */
  lemma DrawProperties(scr: Screen, cells: seq<bool>, x: nat, y: nat, sprite: seq<byte>)
    requires Wf(scr) && 8 <= scr.width && |cells| == Size(scr)
    ensures forall p :: 0 <= p < Size(scr) && !Covered(scr, x, y, sprite, p) ==> Draw(scr, cells, x, y, sprite).cells[p] == cells[p]
    ensures |sprite| <= scr.height ==>
      && (forall p :: 0 <= p < Size(scr) ==> Draw(scr, cells, x, y, sprite).cells[p] == (cells[p] != Covered(scr, x, y, sprite, p)))
      && (Draw(scr, cells, x, y, sprite).collision <==> HitsLit(scr, cells, x, y, sprite))
  {
    forall p | 0 <= p < Size(scr) && !Covered(scr, x, y, sprite, p)
      ensures Draw(scr, cells, x, y, sprite).cells[p] == cells[p]
    {
      DrawLeavesUncovered(scr, cells, x, y, sprite, p);
    }
    if |sprite| <= scr.height {
      DrawExact(scr, cells, x, y, sprite);
    }
  }

  // ---------------------------------------------------------------------------------------
  // Arithmetic helpers

  lemma CellBound(a: nat, b: nat, w: nat, h: nat)
    requires a < w && b < h
    ensures a + b * w < w * h
  {
    assert (b + 1) * w <= h * w by { MulMono(b + 1, h, w); }
  }

  lemma MulMono(a: nat, b: nat, w: nat)
    requires a <= b
    ensures a * w <= b * w
  {
  }

  lemma {:induction false} LinearInjective(a: nat, b: nat, a': nat, b': nat, w: nat)
    requires a < w && a' < w
    ensures a + b * w == a' + b' * w <==> a == a' && b == b'
  {
    if b < b' {
      MulMono(b + 1, b', w);
    } else if b' < b {
      MulMono(b' + 1, b, w);
    }
  }

  lemma {:induction false} DivBelow(p: nat, w: nat, h: nat)
    requires 0 < w && p < w * h
    ensures p / w < h && p % w < w && p % w + (p / w) * w == p
  {
    if p / w >= h {
      MulMono(h, p / w, w);
    }
  }

  lemma {:induction false} ModInjective(x: nat, i: nat, i': nat, n: nat)
    requires i < n && i' < n && (x + i) % n == (x + i') % n
    ensures i == i'
  {
    var q, q' := (x + i) / n, (x + i') / n;
    assert x + i == q * n + (x + i) % n;
    assert x + i' == q' * n + (x + i') % n;
    if i < i' {
      assert i' - i == (q' - q) * n;
      MultipleBelow(q' - q, n, i' - i);
    } else if i' < i {
      assert i - i' == (q - q') * n;
      MultipleBelow(q - q', n, i - i');
    }
  }

  /** The only multiple of n in 0 .. n - 1 is 0. */
  lemma MultipleBelow(k: int, n: int, d: int)
    requires 0 < n && 0 <= d < n && d == k * n
    ensures k == 0
  {
    if k > 0 {
      MulMono(1, k, n);
    }
  }
}
