/** Grid coordinates, cell states and the board layout shared by the grid,
    the flow field and the placement validator. */
module Cells {
  import opened Basics

  /** A grid coordinate: column `x`, row `y`; row 0 is the top of the board. */
  datatype Cell = Cell(x: int, y: int)

  /** Occupancy of one cell. Only `Tower` stops movement; `Blocked` cells
      (entry, exit, designer-blocked) cannot be built on but can be walked. */
  datatype CellState = Empty | Blocked | Tower

  /** A world-space vector with integer components (a unit step or zero). */
  datatype Vec = Vec(x: int, y: int)

  const Zero: Vec := Vec(0, 0)

  /** The distance sentinel of the integration field, C#'s `int.MaxValue`. */
  const Unreachable: int := 0x7FFF_FFFF

  /** `Constants.InvalidCell`: the coordinate used for "no cell". */
  const InvalidCell: int := -1

  /** The sentinel cell `(-1, -1)` returned for off-grid positions. */
  const NoCell: Cell := Cell(InvalidCell, InvalidCell)

  /** Board geometry: grid dimensions (from the grid asset) and the fixed
      entry and exit cells (from the constants table). */
  datatype Layout = Layout(cols: nat, rows: nat, entry: Cell, exit: Cell)

  /** The default board: 9 columns, 16 rows, entry at the top centre and
      exit at the bottom centre. */
  const DefaultLayout: Layout := Layout(9, 16, Cell(9 / 2, 0), Cell(9 / 2, 16 - 1))

  predicate InBounds(L: Layout, c: Cell) {
    0 <= c.x < L.cols && 0 <= c.y < L.rows
  }

  /** What every board the game builds satisfies: entry and exit are distinct
      cells on the board, and a hop count can never reach the sentinel. */
  predicate ValidLayout(L: Layout) {
    InBounds(L, L.entry) && InBounds(L, L.exit) && L.entry != L.exit
    && L.cols * L.rows < Unreachable
  }

  /** The fixed neighbour order +x, -x, +y, -y. */
  function Offset(i: nat): (d: Cell)
    requires i < 4
    ensures (if d.x < 0 then -d.x else d.x) + (if d.y < 0 then -d.y else d.y) == 1
  {
    if i == 0 then Cell(1, 0)
    else if i == 1 then Cell(-1, 0)
    else if i == 2 then Cell(0, 1)
    else Cell(0, -1)
  }

  function Neighbour(c: Cell, i: nat): Cell
    requires i < 4
  {
    Cell(c.x + Offset(i).x, c.y + Offset(i).y)
  }

  function Abs(n: int): nat {
    if n < 0 then -n else n
  }

  /** 4-adjacency. */
  predicate Adjacent(a: Cell, b: Cell) {
    Abs(a.x - b.x) + Abs(a.y - b.y) == 1
  }

  lemma AdjacentSymmetric(a: Cell, b: Cell)
    requires Adjacent(a, b)
    ensures Adjacent(b, a)
  {
  }

  lemma NeighbourIsAdjacent(c: Cell, i: nat)
    requires i < 4
    ensures Adjacent(c, Neighbour(c, i)) && Adjacent(Neighbour(c, i), c)
  {
  }

  /** Every 4-adjacent cell is one of the four neighbours, so a scan over the
      neighbour order sees the whole 4-neighbourhood. */
  lemma AdjacentIsNeighbour(a: Cell, b: Cell) returns (i: nat)
    requires Adjacent(a, b)
    ensures i < 4 && Neighbour(a, i) == b
  {
    if b.x == a.x + 1 { i := 0; }
    else if b.x == a.x - 1 { i := 1; }
    else if b.y == a.y + 1 { i := 2; }
    else { i := 3; }
  }

  /** The cells of a `cols` x `rows` board. */
  function BoardCells(cols: nat, rows: nat): set<Cell> {
    set x: int, y: int | 0 <= x < cols && 0 <= y < rows :: Cell(x, y)
  }

  function ColumnCells(x: int, rows: nat): set<Cell> {
    set y: int | 0 <= y < rows :: Cell(x, y)
  }

  lemma {:induction false} ColumnSize(x: int, rows: nat)
    ensures |ColumnCells(x, rows)| == rows
  {
    if rows == 0 {
      assert ColumnCells(x, rows) == {};
    } else {
      ColumnSize(x, rows - 1);
      assert ColumnCells(x, rows) == ColumnCells(x, rows - 1) + {Cell(x, rows - 1)};
    }
  }

  /** A board has exactly cols * rows cells. */
  lemma {:induction false} BoardSize(cols: nat, rows: nat)
    ensures |BoardCells(cols, rows)| == cols * rows
  {
    if cols == 0 {
      assert BoardCells(cols, rows) == {};
    } else {
      BoardSize(cols - 1, rows);
      ColumnSize(cols - 1, rows);
      assert BoardCells(cols, rows) == BoardCells(cols - 1, rows) + ColumnCells(cols - 1, rows);
      assert BoardCells(cols - 1, rows) !! ColumnCells(cols - 1, rows);
      MulSucc(cols - 1, rows);
    }
  }

  /** One more column adds one column's worth of cells. */
  lemma MulSucc(c: nat, r: nat)
    ensures c * r + r == (c + 1) * r
  {
  }

  /** A set of board cells has at most cols * rows members. */
  lemma BoardBound(L: Layout, S: set<Cell>)
    requires forall c | c in S :: InBounds(L, c)
    ensures |S| <= L.cols * L.rows
  {
    assert S <= BoardCells(L.cols, L.rows);
    SubsetSize(S, BoardCells(L.cols, L.rows));
    BoardSize(L.cols, L.rows);
  }

  lemma DefaultLayoutIsValid()
    ensures ValidLayout(DefaultLayout)
    ensures DefaultLayout.entry == Cell(4, 0) && DefaultLayout.exit == Cell(4, 15)
  {
  }
}
