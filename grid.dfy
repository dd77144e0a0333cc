/** Geometry shared by the two uniform-grid puzzles (word search and spot the
    difference): cell `(r, c)` has its top-left corner at
    `(c * (cellSize + gap), r * (cellSize + gap))`, is `cellSize` wide and high,
    and is laid out at index `r * cols + c` of the flat cell list. */
module Grid {
  import opened Common

  /** A laid-out cell: grid position, top-left corner and the glyph it shows. */
  datatype Cell<T> = Cell(row: int, col: int, x: int, y: int, glyph: T)

  /** Offset of the `index`-th row or column. */
  function Origin(index: int, cellSize: nat, gap: nat): int
  {
    index * (cellSize + gap)
  }

  /** `p` lies in the closed interval covered by the `index`-th row or column. */
  predicate InSpan(p: real, index: int, cellSize: nat, gap: nat)
  {
    Origin(index, cellSize, gap) as real <= p <= (Origin(index, cellSize, gap) + cellSize) as real
  }

  /** The point lies in the closed `cellSize` box of the cell at row `r`, column `c`. */
  predicate InCell(px: real, py: real, r: int, c: int, cellSize: nat, gap: nat)
  {
    InSpan(px, c, cellSize, gap) && InSpan(py, r, cellSize, gap)
  }

  /** Position `r * cols + c` of the cell `(r, c)` in the flat cell list. */
  function FlatIndex(r: int, c: int, cols: nat): int
  {
    r * cols + c
  }

  /** Consecutive rows or columns are a full cell plus a gap apart. */
  lemma OriginsSpread(a: int, b: int, cellSize: nat, gap: nat)
    requires a < b
    ensures Origin(a, cellSize, gap) + cellSize + gap <= Origin(b, cellSize, gap)
  {
    var w := cellSize + gap;
    var d := b - a - 1;
    assert Origin(b, cellSize, gap) - Origin(a, cellSize, gap) == (b - a) * w;
    assert (b - a) * w == d * w + w;
    assert d * w >= 0;
  }

  /** Each row or column starts a full cell plus a gap after the previous one. */
  lemma OriginNext(a: int, cellSize: nat, gap: nat)
    ensures Origin(a + 1, cellSize, gap) == Origin(a, cellSize, gap) + cellSize + gap
  {
  }

  /** With a positive gap, no coordinate lies in two spans: the hit cell is unique. */
  lemma SpansDisjoint(p: real, a: int, b: int, cellSize: nat, gap: nat)
    requires gap > 0
    requires InSpan(p, a, cellSize, gap) && InSpan(p, b, cellSize, gap)
    ensures a == b
  {
    if a < b {
      OriginsSpread(a, b, cellSize, gap);
    } else if b < a {
      OriginsSpread(b, a, cellSize, gap);
    }
  }

  /** A coordinate strictly inside the gap after span `k` lies in no span at all. */
  lemma GapInNoSpan(p: real, k: int, cellSize: nat, gap: nat)
    requires (Origin(k, cellSize, gap) + cellSize) as real < p < Origin(k + 1, cellSize, gap) as real
    ensures forall j :: !InSpan(p, j, cellSize, gap)
  {
    forall j
      ensures !InSpan(p, j, cellSize, gap)
    {
      if j < k {
        OriginsSpread(j, k, cellSize, gap);
      } else if j > k + 1 {
        OriginsSpread(k + 1, j, cellSize, gap);
      }
    }
  }

  /** Every in-range row and column has its flat index inside the grid. */
  lemma IndexInGrid(r: nat, c: nat, rows: nat, cols: nat)
    requires r < rows && c < cols
    ensures 0 <= FlatIndex(r, c, cols) < rows * cols
  {
    assert (rows - 1 - r) * cols >= 0;
    assert rows * cols == r * cols + cols + (rows - 1 - r) * cols;
  }

  /** `m` has `rows` rows of `cols` entries each. */
  predicate IsGrid<T>(m: seq<seq<T>>, rows: nat, cols: nat)
  {
    |m| == rows && forall r :: 0 <= r < rows ==> |m[r]| == cols
  }

  /** The first `c` cells of row `r`, whose glyphs are `row`, in the order the
      build loop pushes them. */
  function RowCells<T>(row: seq<T>, r: nat, c: nat, cellSize: nat, gap: nat): (cs: seq<Cell<T>>)
    requires c <= |row|
    ensures |cs| == c
  {
    if c == 0 then []
    else RowCells(row, r, c - 1, cellSize, gap)
         + [Cell(r, c - 1, Origin(c - 1, cellSize, gap), Origin(r, cellSize, gap), row[c - 1])]
  }

  /** The cells of the first `r` rows of `m`, row by row. */
  function Layout<T>(m: seq<seq<T>>, r: nat, cellSize: nat, gap: nat): seq<Cell<T>>
    requires r <= |m|
  {
    if r == 0 then [] else Layout(m, r - 1, cellSize, gap) + RowCells(m[r - 1], r - 1, |m[r - 1]|, cellSize, gap)
  }

  /** The glyphs of `m` row by row, as the flat list the grid was cut from. */
  function Flatten<T>(m: seq<seq<T>>): seq<T>
  {
    if m == [] then [] else Flatten(m[..|m| - 1]) + m[|m| - 1]
  }

  /** The cells of a row depend only on the glyphs laid out so far. */
  lemma {:induction false} RowCellsPrefix<T>(a: seq<T>, b: seq<T>, r: nat, c: nat, cellSize: nat, gap: nat)
    requires c <= |a| && c <= |b| && a[..c] == b[..c]
    ensures RowCells(a, r, c, cellSize, gap) == RowCells(b, r, c, cellSize, gap)
  {
    if c > 0 {
      assert a[..c - 1] == a[..c][..c - 1];
      assert b[..c - 1] == b[..c][..c - 1];
      assert a[c - 1] == a[..c][c - 1];
      RowCellsPrefix(a, b, r, c - 1, cellSize, gap);
    }
  }

  /** The cells of the first rows depend only on those rows. */
  lemma {:induction false} LayoutPrefix<T>(a: seq<seq<T>>, b: seq<seq<T>>, r: nat, cellSize: nat, gap: nat)
    requires r <= |a| && r <= |b| && a[..r] == b[..r]
    ensures Layout(a, r, cellSize, gap) == Layout(b, r, cellSize, gap)
  {
    if r > 0 {
      assert a[..r - 1] == a[..r][..r - 1];
      assert b[..r - 1] == b[..r][..r - 1];
      assert a[r - 1] == a[..r][r - 1];
      LayoutPrefix(a, b, r - 1, cellSize, gap);
    }
  }

  /** A cell record is where the grid puts it and shows the matrix entry there. */
  ghost predicate Placed<T>(cell: Cell<T>, m: seq<seq<T>>, rows: nat, cols: nat, cellSize: nat, gap: nat)
    requires IsGrid(m, rows, cols)
  {
    && 0 <= cell.row < rows && 0 <= cell.col < cols
    && cell.x == Origin(cell.col, cellSize, gap)
    && cell.y == Origin(cell.row, cellSize, gap)
    && cell.glyph == m[cell.row][cell.col]
  }

  lemma {:induction false} LayoutLength<T>(m: seq<seq<T>>, r: nat, rows: nat, cols: nat, cellSize: nat, gap: nat)
    requires IsGrid(m, rows, cols) && r <= rows
    ensures |Layout(m, r, cellSize, gap)| == r * cols
  {
    if r > 0 {
      LayoutLength(m, r - 1, rows, cols, cellSize, gap);
    }
  }

  lemma {:induction false} RowCellsAt<T>(row: seq<T>, r: nat, n: nat, c: nat, cellSize: nat, gap: nat)
    requires c < n <= |row|
    ensures RowCells(row, r, n, cellSize, gap)[c]
            == Cell(r, c, Origin(c, cellSize, gap), Origin(r, cellSize, gap), row[c])
  {
    if c < n - 1 {
      RowCellsAt(row, r, n - 1, c, cellSize, gap);
    }
  }

  /** The cell of row `r`, column `c` sits at flat index `r * cols + c`. */
  lemma {:induction false} LayoutAt<T>(m: seq<seq<T>>, n: nat, rows: nat, cols: nat, r: nat, c: nat,
                                       cellSize: nat, gap: nat)
    requires IsGrid(m, rows, cols) && r < n <= rows && c < cols
    ensures |Layout(m, n, cellSize, gap)| == n * cols
    ensures 0 <= FlatIndex(r, c, cols) < n * cols
    ensures Layout(m, n, cellSize, gap)[FlatIndex(r, c, cols)]
            == Cell(r, c, Origin(c, cellSize, gap), Origin(r, cellSize, gap), m[r][c])
  {
    LayoutLength(m, n, rows, cols, cellSize, gap);
    IndexInGrid(r, c, n, cols);
    LayoutLength(m, n - 1, rows, cols, cellSize, gap);
    if r < n - 1 {
      LayoutAt(m, n - 1, rows, cols, r, c, cellSize, gap);
    } else {
      assert FlatIndex(r, c, cols) == (n - 1) * cols + c;
      RowCellsAt(m[n - 1], n - 1, cols, c, cellSize, gap);
    }
  }

  /** Every entry of the layout is placed where the grid puts it. */
  lemma {:induction false} LayoutPlaced<T>(m: seq<seq<T>>, n: nat, rows: nat, cols: nat, k: nat,
                                           cellSize: nat, gap: nat)
    requires IsGrid(m, rows, cols) && n <= rows && k < |Layout(m, n, cellSize, gap)|
    ensures Placed(Layout(m, n, cellSize, gap)[k], m, rows, cols, cellSize, gap)
  {
    var prefix := Layout(m, n - 1, cellSize, gap);
    if k < |prefix| {
      LayoutPlaced(m, n - 1, rows, cols, k, cellSize, gap);
    } else {
      RowCellsAt(m[n - 1], n - 1, cols, k - |prefix|, cellSize, gap);
    }
  }

  /** Whole-grid form of `LayoutAt` and `LayoutPlaced`. */
  lemma GridLayout<T>(m: seq<seq<T>>, rows: nat, cols: nat, cellSize: nat, gap: nat)
    requires IsGrid(m, rows, cols)
    ensures |Layout(m, rows, cellSize, gap)| == rows * cols
    ensures forall k :: 0 <= k < |Layout(m, rows, cellSize, gap)| ==>
              Placed(Layout(m, rows, cellSize, gap)[k], m, rows, cols, cellSize, gap)
    ensures forall r, c :: 0 <= r < rows && 0 <= c < cols ==>
              0 <= FlatIndex(r, c, cols) < rows * cols &&
              Layout(m, rows, cellSize, gap)[FlatIndex(r, c, cols)]
              == Cell(r, c, Origin(c, cellSize, gap), Origin(r, cellSize, gap), m[r][c])
  {
    LayoutLength(m, rows, rows, cols, cellSize, gap);
    forall k | 0 <= k < |Layout(m, rows, cellSize, gap)|
      ensures Placed(Layout(m, rows, cellSize, gap)[k], m, rows, cols, cellSize, gap)
    {
      LayoutPlaced(m, rows, rows, cols, k, cellSize, gap);
    }
    forall r, c | 0 <= r < rows && 0 <= c < cols
      ensures 0 <= FlatIndex(r, c, cols) < rows * cols
      ensures Layout(m, rows, cellSize, gap)[FlatIndex(r, c, cols)]
              == Cell(r, c, Origin(c, cellSize, gap), Origin(r, cellSize, gap), m[r][c])
    {
      LayoutAt(m, rows, rows, cols, r, c, cellSize, gap);
    }
  }

  /** With a positive gap a point lies in at most one cell. */
  lemma CellsDisjoint(px: real, py: real, r1: int, c1: int, r2: int, c2: int, cellSize: nat, gap: nat)
    requires gap > 0
    requires InCell(px, py, r1, c1, cellSize, gap) && InCell(px, py, r2, c2, cellSize, gap)
    ensures r1 == r2 && c1 == c2
  {
    SpansDisjoint(px, c1, c2, cellSize, gap);
    SpansDisjoint(py, r1, r2, cellSize, gap);
  }

  /** The point lies in the closed `cellSize` box of the cell record. */
  predicate CellHit<T>(cell: Cell<T>, px: real, py: real, cellSize: nat)
  {
    cell.x as real <= px <= (cell.x + cellSize) as real &&
    cell.y as real <= py <= (cell.y + cellSize) as real
  }

  /** The scan of `getCellByPoint`: the index of the first cell whose box holds the
      point, or -1 when there is none. */
  method FindCell<T>(cells: seq<Cell<T>>, px: real, py: real, cellSize: nat) returns (k: int)
    ensures -1 <= k < |cells|
    ensures k >= 0 ==> CellHit(cells[k], px, py, cellSize)
    ensures k >= 0 ==> forall j :: 0 <= j < k ==> !CellHit(cells[j], px, py, cellSize)
    ensures k < 0 ==> forall j :: 0 <= j < |cells| ==> !CellHit(cells[j], px, py, cellSize)
  {
    var i := 0;
    while i < |cells|
      invariant 0 <= i <= |cells|
      invariant forall j :: 0 <= j < i ==> !CellHit(cells[j], px, py, cellSize)
    {
      var cell := cells[i];
      if px >= cell.x as real && px <= (cell.x + cellSize) as real
         && py >= cell.y as real && py <= (cell.y + cellSize) as real {
        return i;
      }
      i := i + 1;
    }
    return -1;
  }

  /** On a laid-out grid, a cell record is hit exactly when the point is in the
      box of its row and column. */
  lemma PlacedHit<T>(cell: Cell<T>, m: seq<seq<T>>, rows: nat, cols: nat, px: real, py: real,
                     cellSize: nat, gap: nat)
    requires IsGrid(m, rows, cols) && Placed(cell, m, rows, cols, cellSize, gap)
    ensures CellHit(cell, px, py, cellSize) <==> InCell(px, py, cell.row, cell.col, cellSize, gap)
  {
  }

  /** `getCellByPoint` on a laid-out grid: the row and column of the cell whose
      closed box holds the point, or nothing when the point is in no box, for
      instance in a gap. With a positive gap the answer is the only such cell. */
  method CellByPoint<T>(cells: seq<Cell<T>>, m: seq<seq<T>>, rows: nat, cols: nat,
                        cellSize: nat, gap: nat, px: real, py: real) returns (hit: Option<(int, int)>)
    requires IsGrid(m, rows, cols) && cells == Layout(m, rows, cellSize, gap)
    ensures hit.Some? ==> 0 <= hit.value.0 < rows && 0 <= hit.value.1 < cols
    ensures hit.Some? ==> InCell(px, py, hit.value.0, hit.value.1, cellSize, gap)
    ensures hit.Some? && gap > 0 ==>
              forall r, c :: InCell(px, py, r, c, cellSize, gap) ==> r == hit.value.0 && c == hit.value.1
    ensures hit.None? <==> forall r, c :: 0 <= r < rows && 0 <= c < cols ==> !InCell(px, py, r, c, cellSize, gap)
  {
    GridLayout(m, rows, cols, cellSize, gap);
    var k := FindCell(cells, px, py, cellSize);
    if k < 0 {
      forall r, c | 0 <= r < rows && 0 <= c < cols
        ensures !InCell(px, py, r, c, cellSize, gap)
      {
        PlacedHit(cells[FlatIndex(r, c, cols)], m, rows, cols, px, py, cellSize, gap);
      }
      return None;
    }
    PlacedHit(cells[k], m, rows, cols, px, py, cellSize, gap);
    hit := Some((cells[k].row, cells[k].col));
    if gap > 0 {
      forall r, c | InCell(px, py, r, c, cellSize, gap)
        ensures r == hit.value.0 && c == hit.value.1
      {
        CellsDisjoint(px, py, r, c, hit.value.0, hit.value.1, cellSize, gap);
      }
    }
  }

  /** Appending a row leaves the layout of the rows before it unchanged. */
  lemma LayoutAppendRow<T>(m: seq<seq<T>>, row: seq<T>, cellSize: nat, gap: nat)
    ensures Layout(m + [row], |m|, cellSize, gap) == Layout(m, |m|, cellSize, gap)
  {
    assert (m + [row])[..|m|] == m[..|m|];
    LayoutPrefix(m, m + [row], |m|, cellSize, gap);
  }

  /** Appending a row appends its glyphs to the flat list. */
  lemma FlattenAppend<T>(m: seq<seq<T>>, row: seq<T>)
    ensures Flatten(m + [row]) == Flatten(m) + row
  {
    assert (m + [row])[..|m + [row]| - 1] == m;
  }

  /** Row `r` of a `rows` by `cols` flat list is the slice after the rows before it. */
  lemma RowSlice<T>(flat: seq<T>, r: nat, rows: nat, cols: nat)
    requires r < rows && |flat| == rows * cols
    ensures r * cols + cols == (r + 1) * cols <= |flat|
    ensures flat[..(r + 1) * cols] == flat[..r * cols] + flat[r * cols .. r * cols + cols]
  {
    RowEnd(r, rows, cols);
    var start := r * cols;
    assert flat[..start + cols] == flat[..start] + flat[start .. start + cols];
  }

  /** Row `r` ends within the rows. */
  lemma RowEnd(r: nat, rows: nat, cols: nat)
    requires r < rows
    ensures r * cols + cols == (r + 1) * cols <= rows * cols
  {
    assert (r + 1) * cols == r * cols + cols;
    assert rows * cols == (r + 1) * cols + (rows - r - 1) * cols;
    assert (rows - r - 1) * cols >= 0;
  }
}
