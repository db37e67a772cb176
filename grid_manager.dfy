/** The grid store: the table of cell states, bounds checks, the single
    mutation entry point with its change notification, and the mapping
    between cells and world positions. */
module GridStore {
  import opened Basics
  import opened Cells
  import opened Routes

  /** A world position; only x and y matter on the board plane. */
  datatype Point = Point(x: real, y: real)

  /** The notification `(cell, newState)` sent on every grid mutation. */
  datatype CellChange = CellChange(cell: Cell, state: CellState)

  /** The state a cell has after initialisation: entry, exit and designer
      cells are blocked, everything else is empty. */
  predicate InitiallyBlocked(L: Layout, blocked: seq<Cell>, c: Cell) {
    c == L.entry || c == L.exit || c in blocked
  }

  /** The notifications of the designer cells that lie on the board, in list
      order; off-board designer cells produce none. */
  function BlockedChanges(L: Layout, cs: seq<Cell>): (r: seq<CellChange>)
    ensures |r| <= |cs|
    ensures forall e | e in r :: e.state == Blocked && InBounds(L, e.cell) && e.cell in cs
    ensures forall c | c in cs && InBounds(L, c) :: CellChange(c, Blocked) in r
  {
    if cs == [] then []
    else
      var rest := BlockedChanges(L, cs[..|cs| - 1]);
      var last := cs[|cs| - 1];
      assert cs == cs[..|cs| - 1] + [last];
      if InBounds(L, last) then rest + [CellChange(last, Blocked)] else rest
  }

  /** Every board cell holds its initial state for the designer list `bs`. */
  ghost predicate Seeded(L: Layout, g: GridView, bs: seq<Cell>)
    requires WellFormed(L, g)
  {
    forall c | InBounds(L, c) ::
      StateAt(L, g, c) == if InitiallyBlocked(L, bs, c) then Blocked else Empty
  }

  /** Blocking one more designer cell keeps the table seeded for the
      longer list. */
  lemma SeededStep(L: Layout, g: GridView, bs: seq<Cell>, c: Cell)
    requires WellFormed(L, g) && Seeded(L, g, bs)
    ensures Seeded(L, Update(L, g, c, Blocked), bs + [c])
  {
    forall d | InBounds(L, d)
      ensures StateAt(L, Update(L, g, c, Blocked), d)
              == if InitiallyBlocked(L, bs + [c], d) then Blocked else Empty
    {
      assert d in bs + [c] <==> d in bs || d == c;
    }
  }

  lemma PrefixStep<T>(s: seq<T>, k: nat)
    requires k < |s|
    ensures s[..k + 1] == s[..k] + [s[k]] && s[..k + 1][..k] == s[..k]
  {
  }

  class GridManager {
    const layout: Layout
    /** `GridData.BlockedCells`: designer cells, possibly off the board. */
    const blockedCells: seq<Cell>
    /** `Constants.CellSize` (1 in the game). */
    const cellSize: real
    /** The grid object's world position. */
    const origin: Point

    var cells: array2<CellState>

    ghost predicate Valid()
      reads this
    {
      ValidLayout(layout) && cellSize > 0.0
      && cells.Length0 == layout.cols && cells.Length1 == layout.rows
    }

    /** The cell table as a value. */
    ghost function View(): (g: GridView)
      reads this, cells
      requires Valid()
      ensures WellFormed(layout, g)
      ensures forall c {:trigger StateAt(layout, g, c)} | InBounds(layout, c) :: StateAt(layout, g, c) == cells[c.x, c.y]
    {
      var a := cells;
      seq(a.Length0, x requires 0 <= x < a.Length0 reads a =>
        seq(a.Length1, y requires 0 <= y < a.Length1 reads a => a[x, y]))
    }

    /** Awake: allocate the table and initialise it. */
    constructor (layout: Layout, blockedCells: seq<Cell>, cellSize: real, origin: Point)
      requires ValidLayout(layout) && cellSize > 0.0
      ensures Valid() && fresh(cells)
      ensures this.layout == layout && this.blockedCells == blockedCells
      ensures this.cellSize == cellSize && this.origin == origin
      ensures forall c | InBounds(layout, c) ::
        GetCellState(c) == if InitiallyBlocked(layout, blockedCells, c) then Blocked else Empty
    {
      this.layout := layout;
      this.blockedCells := blockedCells;
      this.cellSize := cellSize;
      this.origin := origin;
      cells := new CellState[0, 0];
      new;
      var _ := InitializeGrid();
    }

    /** Fill the table with `Empty`, then block entry, exit and every
        designer cell that lies on the board, notifying each change. */
    method InitializeGrid() returns (events: seq<CellChange>)
      requires ValidLayout(layout) && cellSize > 0.0
      modifies this
      ensures Valid() && fresh(cells)
      ensures forall c | InBounds(layout, c) ::
        GetCellState(c) == if InitiallyBlocked(layout, blockedCells, c) then Blocked else Empty
      ensures events == [CellChange(layout.entry, Blocked), CellChange(layout.exit, Blocked)]
                        + BlockedChanges(layout, blockedCells)
    {
      AllocateEmpty();
      var e1 := SetCellStateInternal(layout.entry, Blocked);
      var e2 := SetCellStateInternal(layout.exit, Blocked);
      assert Seeded(layout, View(), []);
      var rest := BlockDesignerCells();
      events := [e1.value, e2.value] + rest;
    }

    /** Block every designer cell in list order, notifying each on-board one. */
    method BlockDesignerCells() returns (events: seq<CellChange>)
      requires Valid() && Seeded(layout, View(), [])
      modifies cells
      ensures Valid() && Seeded(layout, View(), blockedCells)
      ensures events == BlockedChanges(layout, blockedCells)
    {
      events := [];
      for k := 0 to |blockedCells|
        invariant Valid()
        invariant Seeded(layout, View(), blockedCells[..k])
        invariant events == BlockedChanges(layout, blockedCells[..k])
      {
        ghost var before := View();
        var e := SetCellStateInternal(blockedCells[k], Blocked);
        PrefixStep(blockedCells, k);
        SeededStep(layout, before, blockedCells[..k], blockedCells[k]);
        if e.Some? {
          events := events + [e.value];
        }
      }
      assert blockedCells[..|blockedCells|] == blockedCells;
    }

    /** Allocate a `cols` x `rows` table with every cell `Empty`. */
    method AllocateEmpty()
      requires ValidLayout(layout) && cellSize > 0.0
      modifies this
      ensures Valid() && fresh(cells)
      ensures forall c | InBounds(layout, c) :: StateAt(layout, View(), c) == Empty
    {
      cells := new CellState[layout.cols, layout.rows];
      for col := 0 to layout.cols
        invariant Valid() && fresh(cells)
        invariant forall x, y | 0 <= x < col && 0 <= y < layout.rows :: cells[x, y] == Empty
      {
        for row := 0 to layout.rows
          invariant Valid() && fresh(cells)
          invariant forall x, y | 0 <= x < col && 0 <= y < layout.rows :: cells[x, y] == Empty
          invariant forall y | 0 <= y < row :: cells[col, y] == Empty
        {
          cells[col, row] := Empty;
        }
      }
    }

    /** GetCellState: the stored state, `Blocked` for any off-board cell. */
    function GetCellState(c: Cell): (s: CellState)
      reads this, cells
      requires Valid()
      ensures !InBounds(layout, c) ==> s == Blocked
      ensures InBounds(layout, c) ==> s == cells[c.x, c.y]
      ensures s == StateAt(layout, View(), c)
    {
      if !IsInBounds(c) then Blocked else cells[c.x, c.y]
    }

    /** A cell can be built on exactly when it is on the board and empty. */
    function IsBuildable(c: Cell): (b: bool)
      reads this, cells
      requires Valid()
      ensures b <==> InBounds(layout, c) && StateAt(layout, View(), c) == Empty
    {
      IsInBounds(c) && cells[c.x, c.y] == Empty
    }

    function IsInBounds(c: Cell): (b: bool)
      reads this
      ensures b <==> 0 <= c.x < layout.cols && 0 <= c.y < layout.rows
    {
      c.x >= 0 && c.x < layout.cols && c.y >= 0 && c.y < layout.rows
    }

    /** The public mutation entry point: ignores off-board cells, otherwise
        delegates to the internal setter. */
    method SetCellState(c: Cell, s: CellState) returns (event: Option<CellChange>)
      requires Valid()
      modifies cells
      ensures Valid()
      ensures View() == Update(layout, old(View()), c, s)
      ensures event == if InBounds(layout, c) then Some(CellChange(c, s)) else None
    {
      if !IsInBounds(c) {
        return None;
      }
      event := SetCellStateInternal(c, s);
    }

    /** Sets exactly one on-board cell and reports `(cell, newState)`; an
        off-board cell changes nothing and reports nothing. */
    method SetCellStateInternal(c: Cell, s: CellState) returns (event: Option<CellChange>)
      requires Valid()
      modifies cells
      ensures Valid()
      ensures View() == Update(layout, old(View()), c, s)
      ensures event == if InBounds(layout, c) then Some(CellChange(c, s)) else None
    {
      if !IsInBounds(c) {
        return None;
      }
      ghost var before := View();
      cells[c.x, c.y] := s;
      ghost var expected := Update(layout, before, c, s);
      assert forall x | 0 <= x < layout.cols :: View()[x] == expected[x];
      event := Some(CellChange(c, s));
    }

    /** The world position of a cell's centre; rows grow downwards, so the
        world y falls as the row index rises. */
    function CellToWorld(c: Cell): (p: Point)
      reads this
      requires Valid()
      ensures p.x - origin.x == (c.x as real + 0.5) * cellSize
      ensures origin.y - p.y == (c.y as real + 0.5) * cellSize
    {
      Point(origin.x + (c.x as real * cellSize) + (cellSize * 0.5),
            origin.y - (c.y as real * cellSize) - (cellSize * 0.5))
    }

    /** The board cell whose square contains p, or the sentinel `(-1, -1)`
        when p lies off the board. */
    function WorldToCell(p: Point): (c: Cell)
      reads this
      requires Valid()
      ensures c == NoCell || InBounds(layout, c)
      ensures c != NoCell ==>
        (c.x as real) * cellSize <= p.x - origin.x < ((c.x + 1) as real) * cellSize
        && (c.y as real) * cellSize <= origin.y - p.y < ((c.y + 1) as real) * cellSize
      ensures c == NoCell <==>
        !InBounds(layout, Cell(((p.x - origin.x) / cellSize).Floor, ((origin.y - p.y) / cellSize).Floor))
    {
      var col := ((p.x - origin.x) / cellSize).Floor;
      var row := ((origin.y - p.y) / cellSize).Floor;
      FloorBounds(p.x - origin.x, cellSize);
      FloorBounds(origin.y - p.y, cellSize);
      var cell := Cell(col, row);
      if IsInBounds(cell) then cell else NoCell
    }

    /** Round trip: the centre of a board cell maps back to that cell. */
    lemma WorldToCellOfCentre(c: Cell)
      requires Valid() && InBounds(layout, c)
      ensures WorldToCell(CellToWorld(c)) == c
    {
      var p := CellToWorld(c);
      CentreFloor(c.x, cellSize, p.x - origin.x);
      CentreFloor(c.y, cellSize, origin.y - p.y);
    }
  }

  lemma DivOf(d: real, a: real, s: real)
    requires s > 0.0 && d == a * s
    ensures d / s == a
  {
  }

  lemma MulLe(a: real, b: real, s: real)
    requires s > 0.0 && a <= b
    ensures a * s <= b * s
  {
  }

  lemma MulLt(a: real, b: real, s: real)
    requires s > 0.0 && a < b
    ensures a * s < b * s
  {
  }

  /** The floor of d / s places d in the s-wide band it falls into. */
  lemma FloorBounds(d: real, s: real)
    requires s > 0.0
    ensures ((d / s).Floor as real) * s <= d < (((d / s).Floor + 1) as real) * s
  {
    var q := d / s;
    DivOf(d, q, s);
    var f := q.Floor;
    assert f as real <= q < f as real + 1.0;
    MulLe(f as real, q, s);
    MulLt(q, f as real + 1.0, s);
    assert ((f + 1) as real) * s == (f as real + 1.0) * s;
    assert d < ((f + 1) as real) * s;
  }

  lemma FloorOfHalf(k: int)
    ensures (k as real + 0.5).Floor == k
  {
    var r := k as real + 0.5;
    assert r.Floor as real <= r < r.Floor as real + 1.0;
  }

  lemma CentreFloor(k: int, s: real, d: real)
    requires s > 0.0 && d == (k as real + 0.5) * s
    ensures (d / s).Floor == k
  {
    DivOf(d, k as real + 0.5, s);
    FloorOfHalf(k);
  }
}
