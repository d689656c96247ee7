/**
 * The joy band's grid: which tier a viewport gets (`computeConfig`) and
 * where the tiles stand (`computeSlots`), a row-major grid visited in
 * boustrophedon ("snake") order.
 */
module JoyLayout {
  import opened Common
  import opened JoyAssign

  /** One tier's grid: columns, rows, gap in pixels and tile height/width ratio. */
  datatype Config = Config(cols: nat, rows: nat, gap: nat, aspect: real)

  /** A slot's offset inside the band, in CSS pixels. */
  datatype Slot = Slot(x: real, y: real)

  const TABLET_COLS: nat := 3
  const TABLET_MIN_ROWS: nat := 3
  const WIDE_COLS: nat := 4
  const WIDE_MIN_ROWS: nat := 2

  /** `Math.ceil(n / d)` for a whole `n`: the fewest rows of `d` that hold `n` tiles. */
  function CeilDiv(n: nat, d: nat): (q: nat)
    requires d > 0
    ensures q * d >= n
    ensures q == 0 || (q - 1) * d < n
  {
    var q := (n + d - 1) / d;
    assert q * d + (n + d - 1) % d == n + d - 1;
    q
  }

  /**
   * `rows` is the least row count that is at least the tier's minimum and,
   * at `cols` tiles a row, holds every tile.
   */
  ghost predicate LeastRows(rows: nat, cols: nat, minRows: nat, tileCount: nat)
  {
    && rows >= minRows
    && rows * cols >= tileCount
    && (rows == minRows || (rows - 1) * cols < tileCount)
  }

  /**
   * `computeConfig`: the band is disabled under reduced motion or on a mobile
   * viewport; a tablet viewport gets three columns, anything wider four.
   */
  function ComputeConfig(reduceMotion: bool, mobile: bool, tablet: bool, tileCount: nat): (r: Option<Config>)
    ensures r.None? <==> reduceMotion || mobile
    ensures r.Some? && tablet ==>
      r.value.cols == TABLET_COLS && r.value.gap == 14 && r.value.aspect == 1.55
      && LeastRows(r.value.rows, TABLET_COLS, TABLET_MIN_ROWS, tileCount)
    ensures r.Some? && !tablet ==>
      r.value.cols == WIDE_COLS && r.value.gap == 18 && r.value.aspect == 1.85
      && LeastRows(r.value.rows, WIDE_COLS, WIDE_MIN_ROWS, tileCount)
  {
    if reduceMotion || mobile then
      None
    else if tablet then
      Some(Config(TABLET_COLS, Max(TABLET_MIN_ROWS, CeilDiv(tileCount, TABLET_COLS)), 14, 1.55))
    else
      Some(Config(WIDE_COLS, Max(WIDE_MIN_ROWS, CeilDiv(tileCount, WIDE_COLS)), 18, 1.85))
  }

  /** Every enabled tier has at least as many grid cells as there are tiles. */
  lemma ConfigHoldsAllTiles(reduceMotion: bool, mobile: bool, tablet: bool, tileCount: nat)
    requires ComputeConfig(reduceMotion, mobile, tablet, tileCount).Some?
    ensures var c := ComputeConfig(reduceMotion, mobile, tablet, tileCount).value;
      c.cols > 0 && c.rows * c.cols >= tileCount
  {
  }

  /**
   * The grid cell visited `k`-th on the snake path: the `k`-th cell in row-major
   * order, mirrored within its row when that row is odd.
   */
  function SnakeCell(cols: nat, k: nat): (c: nat)
    ensures cols > 0 ==> c / cols == k / cols
    ensures cols > 0 ==> c % cols == (if (k / cols) % 2 == 0 then k % cols else cols - 1 - k % cols)
  {
    if cols == 0 then k
    else
      var row := k / cols;
      var col := k % cols;
      DivMod(k, cols);
      var mirrored := if row % 2 == 0 then col else cols - 1 - col;
      RowColIndex(row, mirrored, cols);
      row * cols + mirrored
  }

  /** The snake visiting order over a `rows` by `cols` grid. */
  function SnakePath(rows: nat, cols: nat): (p: seq<nat>)
    ensures |p| == rows * cols
  {
    seq(rows * cols, k requires 0 <= k => SnakeCell(cols, k))
  }

  /** The offset of row-major grid cell `i`. */
  function GridSlot(cols: nat, i: nat, tileWidth: real, tileHeight: real, gap: real): (s: Slot)
    ensures cols > 0 && tileWidth + gap >= 0.0 ==> 0.0 <= s.x <= (cols - 1) as real * (tileWidth + gap)
    ensures tileHeight + gap >= 0.0 ==> 0.0 <= s.y
  {
    if cols == 0 then Slot(0.0, 0.0)
    else
      OffsetWithin(i % cols, cols, tileWidth + gap);
      OffsetWithin(0, i / cols + 1, tileHeight + gap);
      Slot(Offset(i % cols, tileWidth + gap), Offset(i / cols, tileHeight + gap))
  }

  /** How far column or row `k` lies from the first, at `pitch` per step. */
  function Offset(k: nat, pitch: real): real
  {
    k as real * pitch
  }

  /** With a non-negative pitch, step `k` of `n` lies between the first and the last. */
  lemma OffsetWithin(k: nat, n: nat, pitch: real)
    requires k < n
    ensures pitch >= 0.0 ==> 0.0 <= Offset(k, pitch) <= Offset(n - 1, pitch)
  {
    var d := (n - 1 - k) as real;
    assert Offset(n - 1, pitch) - Offset(k, pitch) == d * pitch;
    if pitch >= 0.0 {
      assert d * pitch >= 0.0 && k as real * pitch >= 0.0;
    }
  }

  /** The slots `computeSlots` returns: the first `tileCount` cells of the snake path. */
  function SnakeSlots(config: Config, tileWidth: real, tileHeight: real, gap: real, tileCount: nat): (s: seq<Slot>)
    ensures |s| == Min(tileCount, config.rows * config.cols)
  {
    var path := SnakePath(config.rows, config.cols);
    seq(Min(tileCount, |path|), k requires 0 <= k < Min(tileCount, |path|) =>
      GridSlot(config.cols, path[k], tileWidth, tileHeight, gap))
  }

  /** Within a row, even rows run left to right and odd rows right to left. */
  lemma SnakeCellInRow(cols: nat, row: nat, col: nat)
    requires col < cols
    ensures SnakeCell(cols, row * cols + col)
         == row * cols + (if row % 2 == 0 then col else cols - 1 - col)
  {
    RowColIndex(row, col, cols);
  }

  /** Visiting a cell's own snake position gives the cell back: the order is an involution. */
  lemma SnakeCellInvolution(cols: nat, k: nat)
    ensures SnakeCell(cols, SnakeCell(cols, k)) == k
  {
    if cols > 0 {
      var row, col := k / cols, k % cols;
      DivMod(k, cols);
      var mirrored := if row % 2 == 0 then col else cols - 1 - col;
      var cell := row * cols + mirrored;
      assert SnakeCell(cols, k) == cell;
      RowColIndex(row, mirrored, cols);
      assert SnakeCell(cols, cell) == row * cols + col;
    }
  }

  /** A snake position inside the grid names a cell inside the grid. */
  lemma SnakeCellInGrid(rows: nat, cols: nat, k: nat)
    requires k < rows * cols
    ensures SnakeCell(cols, k) < rows * cols
  {
    if cols > 0 {
      var row, col := k / cols, k % cols;
      DivMod(k, cols);
      DivBelow(k, rows, cols);
      RowEndInGrid(row, rows, cols);
      var mirrored := if row % 2 == 0 then col else cols - 1 - col;
      assert SnakeCell(cols, k) == row * cols + mirrored;
    }
  }

  /** The snake path lists every cell of the grid exactly once. */
  lemma SnakePathIsPermutation(rows: nat, cols: nat)
    ensures IsPermutation(SnakePath(rows, cols), rows * cols)
  {
    var p, n := SnakePath(rows, cols), rows * cols;
    forall i | 0 <= i < n ensures p[i] < n {
      SnakeCellInGrid(rows, cols, i);
    }
    forall i, j | 0 <= i < j < n ensures p[i] != p[j] {
      SnakeCellInvolution(cols, i);
      SnakeCellInvolution(cols, j);
    }
    forall v | 0 <= v < n ensures v in p {
      SnakeCellInGrid(rows, cols, v);
      SnakeCellInvolution(cols, v);
      assert p[SnakeCell(cols, v)] == v;
    }
  }

  /** Cells `a` and `b` share a side in a grid of `cols` columns. */
  ghost predicate Adjacent(cols: nat, a: nat, b: nat)
    requires cols > 0
  {
    || (a / cols == b / cols && (a % cols == b % cols + 1 || b % cols == a % cols + 1))
    || (a % cols == b % cols && (a / cols == b / cols + 1 || b / cols == a / cols + 1))
  }

  /** Two neighbouring stops inside one row are neighbouring cells. */
  lemma SnakeStepWithinRow(cols: nat, k: nat)
    requires cols > 0 && k % cols + 1 < cols
    ensures Adjacent(cols, SnakeCell(cols, k), SnakeCell(cols, k + 1))
  {
    var row, col := k / cols, k % cols;
    assert k == row * cols + col;
    RowColIndex(row, col + 1, cols);
    assert (k + 1) / cols == row && (k + 1) % cols == col + 1;
    var ca := if row % 2 == 0 then col else cols - 1 - col;
    var cb := if row % 2 == 0 then col + 1 else cols - 2 - col;
    assert SnakeCell(cols, k) == row * cols + ca;
    assert SnakeCell(cols, k + 1) == row * cols + cb;
    RowColIndex(row, ca, cols);
    RowColIndex(row, cb, cols);
  }

  /** The last stop of a row and the first of the next lie in the same column. */
  lemma SnakeStepAcrossRows(cols: nat, k: nat)
    requires cols > 0 && k % cols == cols - 1
    ensures Adjacent(cols, SnakeCell(cols, k), SnakeCell(cols, k + 1))
  {
    var row := k / cols;
    assert k == row * cols + (cols - 1);
    assert k + 1 == (row + 1) * cols + 0;
    RowColIndex(row + 1, 0, cols);
    assert (k + 1) / cols == row + 1 && (k + 1) % cols == 0;
    var c := if row % 2 == 0 then cols - 1 else 0;
    assert SnakeCell(cols, k) == row * cols + c;
    assert SnakeCell(cols, k + 1) == (row + 1) * cols + c;
    RowColIndex(row, c, cols);
    RowColIndex(row + 1, c, cols);
  }

  /**
   * Consecutive stops on the snake path are neighbouring cells. The band's cycle
   * moves each tile between consecutive stops, except the one wrapping from the
   * first slot to the last (`CycleStepIsAdjacent`).
   */
  lemma SnakePathIsContinuous(rows: nat, cols: nat, k: nat)
    requires k + 1 < rows * cols
    ensures cols > 0 && Adjacent(cols, SnakePath(rows, cols)[k], SnakePath(rows, cols)[k + 1])
  {
    if k % cols + 1 < cols {
      SnakeStepWithinRow(cols, k);
    } else {
      SnakeStepAcrossRows(cols, k);
    }
  }

  /** The row-major grid of `computeSlots`' first loop nest. */
  method BuildGrid(rows: nat, cols: nat, tileWidth: real, tileHeight: real, gap: real)
    returns (grid: seq<Slot>)
    ensures |grid| == rows * cols
    ensures forall i | 0 <= i < |grid| :: grid[i] == GridSlot(cols, i, tileWidth, tileHeight, gap)
  {
    grid := [];
    for row := 0 to rows
      invariant |grid| == row * cols
      invariant GridPrefix(cols, tileWidth, tileHeight, gap, grid)
    {
      for col := 0 to cols
        invariant |grid| == row * cols + col
        invariant GridPrefix(cols, tileWidth, tileHeight, gap, grid)
      {
        var slot := Slot(col as real * (tileWidth + gap), row as real * (tileHeight + gap));
        GridSlotAt(cols, row, col, tileWidth, tileHeight, gap);
        GridPrefixExtend(cols, tileWidth, tileHeight, gap, grid, slot);
        grid := grid + [slot];
      }
      assert (row + 1) * cols == row * cols + cols;
    }
  }

  /** `g` holds the first `|g|` grid slots. */
  predicate GridPrefix(cols: nat, tileWidth: real, tileHeight: real, gap: real, g: seq<Slot>)
  {
    forall i | 0 <= i < |g| :: g[i] == GridSlot(cols, i, tileWidth, tileHeight, gap)
  }

  /** The slot at row `row` and column `col` is offset by that many pitches. */
  lemma GridSlotAt(cols: nat, row: nat, col: nat, tileWidth: real, tileHeight: real, gap: real)
    requires col < cols
    ensures GridSlot(cols, row * cols + col, tileWidth, tileHeight, gap)
         == Slot(col as real * (tileWidth + gap), row as real * (tileHeight + gap))
  {
    RowColIndex(row, col, cols);
  }

  /** Appending the next grid slot keeps a grid prefix. */
  lemma GridPrefixExtend(cols: nat, tileWidth: real, tileHeight: real, gap: real, g: seq<Slot>, s: Slot)
    requires GridPrefix(cols, tileWidth, tileHeight, gap, g) && s == GridSlot(cols, |g|, tileWidth, tileHeight, gap)
    ensures GridPrefix(cols, tileWidth, tileHeight, gap, g + [s])
  {
    assert forall i | 0 <= i < |g| :: (g + [s])[i] == g[i];
  }

  /** The snake path of `computeSlots`' second loop nest. */
  method BuildSnakePath(rows: nat, cols: nat) returns (snakePath: seq<nat>)
    ensures snakePath == SnakePath(rows, cols)
  {
    snakePath := [];
    for row := 0 to rows
      invariant |snakePath| == row * cols
      invariant SnakePrefix(cols, snakePath)
    {
      if row % 2 == 0 {
        for col := 0 to cols
          invariant |snakePath| == row * cols + col
          invariant SnakePrefix(cols, snakePath)
        {
          SnakeCellInRow(cols, row, col);
          SnakePrefixExtend(cols, snakePath, row * cols + col);
          snakePath := snakePath + [row * cols + col];
        }
      } else {
        for col := cols downto 0
          invariant |snakePath| == row * cols + (cols - col)
          invariant SnakePrefix(cols, snakePath)
        {
          SnakeCellInRow(cols, row, cols - 1 - col);
          SnakePrefixExtend(cols, snakePath, row * cols + col);
          snakePath := snakePath + [row * cols + col];
        }
      }
      assert (row + 1) * cols == row * cols + cols;
    }
  }

  /** `p` holds the first `|p|` snake positions. */
  predicate SnakePrefix(cols: nat, p: seq<nat>)
  {
    forall k | 0 <= k < |p| :: p[k] == SnakeCell(cols, k)
  }

  /** Appending the next snake position keeps a snake prefix. */
  lemma SnakePrefixExtend(cols: nat, p: seq<nat>, v: nat)
    requires SnakePrefix(cols, p) && v == SnakeCell(cols, |p|)
    ensures SnakePrefix(cols, p + [v])
  {
    assert forall k | 0 <= k < |p| :: (p + [v])[k] == p[k];
  }

  /**
   * `computeSlots`: builds the grid and the snake path, then keeps the first
   * `tileCount` snake positions, each as its grid offset.
   */
  method ComputeSlots(config: Config, tileWidth: real, tileHeight: real, gap: real, tileCount: nat)
    returns (slots: seq<Slot>)
    ensures slots == SnakeSlots(config, tileWidth, tileHeight, gap, tileCount)
  {
    var grid := BuildGrid(config.rows, config.cols, tileWidth, tileHeight, gap);
    var snakePath := BuildSnakePath(config.rows, config.cols);
    forall k | 0 <= k < |snakePath| ensures snakePath[k] < |grid| {
      SnakeCellInGrid(config.rows, config.cols, k);
    }
    var kept := Min(tileCount, |snakePath|);
    slots := seq(kept, k requires 0 <= k < kept => grid[snakePath[k]]);
  }

  /**
   * On an enabled tier `computeSlots` returns one slot per tile, and the
   * `k`-th slot is the grid cell at snake position `k`.
   */
  lemma SlotsMatchTiles(reduceMotion: bool, mobile: bool, tablet: bool, tileCount: nat,
                        tileWidth: real, tileHeight: real, gap: real, k: nat)
    requires ComputeConfig(reduceMotion, mobile, tablet, tileCount).Some?
    requires k < tileCount
    ensures var c := ComputeConfig(reduceMotion, mobile, tablet, tileCount).value;
      var s := SnakeSlots(c, tileWidth, tileHeight, gap, tileCount);
      |s| == tileCount && s[k] == GridSlot(c.cols, SnakeCell(c.cols, k), tileWidth, tileHeight, gap)
  {
    ConfigHoldsAllTiles(reduceMotion, mobile, tablet, tileCount);
  }
}
