/** The flow-field calculator: a breadth-first integration field of hop
    counts from the exit, a direction field pointing every reachable cell one
    hop closer, path extraction from the entry, and recomputation on grid
    changes. */
module FlowField {
  import opened Cells
  import opened Routes
  import opened Steering
  import opened GridStore

  /** The distance table with one board entry overwritten. */
  function SetDist(L: Layout, D: DistField, c: Cell, v: int): (D': DistField)
    requires FieldShape(L, D)
    ensures FieldShape(L, D')
    ensures forall d :: DistAt(D', d) == if d == c && InBounds(L, c) then v else DistAt(D, d)
  {
    if InBounds(L, c) then D[c.x := D[c.x][c.y := v]] else D
  }

  /** The direction table with one board entry overwritten. */
  function SetDir(L: Layout, V: DirField, c: Cell, v: Vec): (V': DirField)
    requires DirShape(L, V)
    ensures DirShape(L, V')
    ensures forall d :: DirAt(V', d) == if d == c && InBounds(L, c) then v else DirAt(V, d)
  {
    if InBounds(L, c) then V[c.x := V[c.x][c.y := v]] else V
  }

  /** The queue holds non-decreasing distances. */
  ghost predicate Sorted(D: DistField, queue: seq<Cell>) {
    forall i, j | 0 <= i <= j < |queue| :: DistAt(D, queue[i]) <= DistAt(D, queue[j])
  }

  /** Facts shared by the outer and inner loops of the search: the finite
      entries are exactly the discovered cells, which are the expanded ones
      plus the queued ones; every discovered cell other than the exit is
      passable and one hop above a neighbour; and no distance reaches the
      number of discovered cells. */
  ghost predicate Discovered(L: Layout, g: GridView, D: DistField, done: set<Cell>, queue: seq<Cell>, seen: set<Cell>) {
    ValidLayout(L) && IntField(L, D) && DistAt(D, L.exit) == 0
    && (forall c :: DistAt(D, c) != Unreachable <==> c in seen)
    && Frontier(L, done, queue, seen)
    && Sorted(D, queue)
    && (forall c | c in seen && c != L.exit :: Passable(L, g, c) && HasDescent(L, D, c))
    && (forall c | c in seen :: DistAt(D, c) < |seen|)
  }

  /** Every passable neighbour of an expanded cell in `done` is discovered,
      at most one hop further. */
  ghost predicate ClosedOver(L: Layout, g: GridView, D: DistField, done: set<Cell>, seen: set<Cell>) {
    forall d, i | d in done && 0 <= i < 4 && Passable(L, g, Neighbour(d, i)) ::
      Neighbour(d, i) in seen && DistAt(D, Neighbour(d, i)) <= DistAt(D, d) + 1
  }

  /** The outer-loop invariant of the breadth-first search. */
  ghost predicate BfsInv(L: Layout, g: GridView, D: DistField, done: set<Cell>, queue: seq<Cell>, seen: set<Cell>) {
    Discovered(L, g, D, done, queue, seen)
    && (|queue| > 0 ==> DistAt(D, queue[|queue| - 1]) <= DistAt(D, queue[0]) + 1)
    && (|queue| > 0 ==> forall d | d in done :: DistAt(D, d) <= DistAt(D, queue[0]))
    && ClosedOver(L, g, D, done, seen)
  }

  /** The inner-loop invariant while cell h, at distance nd - 1, has its
      neighbours 0 .. i - 1 relaxed. */
  ghost predicate RelaxInv(L: Layout, g: GridView, D: DistField, done: set<Cell>, queue: seq<Cell>, seen: set<Cell>,
                           h: Cell, nd: int, i: nat) {
    Discovered(L, g, D, done, queue, seen)
    && h in done && nd == DistAt(D, h) + 1 && nd < Unreachable && i <= 4
    && (forall k | 0 <= k < |queue| :: nd - 1 <= DistAt(D, queue[k]) <= nd)
    && (forall d | d in done :: DistAt(D, d) < nd)
    && ClosedOver(L, g, D, done - {h}, seen)
    && (forall j | 0 <= j < i && Passable(L, g, Neighbour(h, j)) ::
          Neighbour(h, j) in seen && DistAt(D, Neighbour(h, j)) <= nd)
  }

  /** The search starts with the exit alone, at distance 0. */
  lemma BfsStart(L: Layout, g: GridView, D: DistField)
    requires ValidLayout(L) && FieldShape(L, D)
    requires forall c :: DistAt(D, c) == if c == L.exit then 0 else Unreachable
    ensures BfsInv(L, g, D, {}, [L.exit], {L.exit})
  {
    forall x, y | 0 <= x < |D| && 0 <= y < |D[x]|
      ensures 0 <= D[x][y] <= Unreachable
    {
      assert D[x][y] == DistAt(D, Cell(x, y));
    }
  }

  /** Dequeuing the head moves it to `done` and starts its relaxation. */
  lemma BfsDequeue(L: Layout, g: GridView, D: DistField, done: set<Cell>, queue: seq<Cell>, seen: set<Cell>)
    requires BfsInv(L, g, D, done, queue, seen) && |queue| > 0
    ensures queue[0] !in done && queue[0] in BoardCells(L.cols, L.rows)
    ensures RelaxInv(L, g, D, done + {queue[0]}, queue[1..], seen, queue[0], DistAt(D, queue[0]) + 1, 0)
  {
    var h := queue[0];
    BoardBound(L, seen);
    assert DistAt(D, h) < |seen| <= L.cols * L.rows;
    var done', queue' := done + {h}, queue[1..];
    FrontierPop(L, done, queue, seen);
    assert forall k | 0 <= k < |queue'| :: queue'[k] == queue[k + 1];
    assert ClosedOver(L, g, D, done' - {h}, seen) by {
      assert done' - {h} <= done;
    }
  }

  /** Discovering n from h keeps every discovered cell passable and one hop
      above a neighbour, n included. */
  lemma RaiseKeepsDescents(L: Layout, g: GridView, D: DistField, n: Cell, nd: int, h: Cell, seen: set<Cell>)
    requires IntField(L, D) && n !in seen && n != L.exit && Passable(L, g, n)
    requires Adjacent(n, h) && InBounds(L, h) && DistAt(D, h) == nd - 1 && nd < Unreachable
    requires forall c | c in seen && c != L.exit :: Passable(L, g, c) && HasDescent(L, D, c)
    requires forall c :: DistAt(D, c) != Unreachable <==> c in seen
    ensures forall c | c in seen + {n} && c != L.exit :: Passable(L, g, c) && HasDescent(L, SetDist(L, D, n, nd), c)
  {
    var D' := SetDist(L, D, n, nd);
    forall c | c in seen + {n} && c != L.exit
      ensures Passable(L, g, c) && HasDescent(L, D', c)
    {
      if c != n {
        var w :| Adjacent(c, w) && InBounds(L, w) && DistAt(D, w) == DistAt(D, c) - 1;
        assert w != n;
        assert DistAt(D', w) == DistAt(D', c) - 1;
      } else {
        assert DistAt(D', h) == DistAt(D', c) - 1;
      }
    }
  }

  lemma SetDistKeepsIntField(L: Layout, D: DistField, c: Cell, v: int)
    requires IntField(L, D) && 0 <= v <= Unreachable
    ensures IntField(L, SetDist(L, D, c, v))
  {
    var D' := SetDist(L, D, c, v);
    forall x, y | 0 <= x < |D'| && 0 <= y < |D'[x]|
      ensures 0 <= D'[x][y] <= Unreachable
    {
      assert D'[x][y] == DistAt(D', Cell(x, y));
      assert D[x][y] == DistAt(D, Cell(x, y));
    }
  }

  /** Giving the undiscovered cell n a finite distance nd no larger than
      the number of discovered cells keeps the finite entries exactly the
      discovered ones, each below their number. */
  lemma DiscoverKeepsCounts(L: Layout, D: DistField, seen: set<Cell>, n: Cell, nd: int)
    requires IntField(L, D) && InBounds(L, n) && n !in seen && 0 <= nd < Unreachable && nd <= |seen|
    requires forall c :: DistAt(D, c) != Unreachable <==> c in seen
    requires forall c | c in seen :: DistAt(D, c) < |seen|
    ensures IntField(L, SetDist(L, D, n, nd))
    ensures forall c :: DistAt(SetDist(L, D, n, nd), c) != Unreachable <==> c in seen + {n}
    ensures forall c | c in seen + {n} :: DistAt(SetDist(L, D, n, nd), c) < |seen + {n}|
  {
    var D', seen' := SetDist(L, D, n, nd), seen + {n};
    SetDistKeepsIntField(L, D, n, nd);
    assert |seen'| == |seen| + 1;
    forall c
      ensures DistAt(D', c) != Unreachable <==> c in seen'
      ensures c in seen' ==> DistAt(D', c) < |seen'|
    {
      if c != n {
        assert DistAt(D', c) == DistAt(D, c);
      }
    }
  }

  /** Queueing an unqueued cell with a distance no smaller than any queued
      one keeps the queue sorted. */
  lemma SortedPush(L: Layout, D: DistField, queue: seq<Cell>, n: Cell, nd: int)
    requires FieldShape(L, D) && Sorted(D, queue) && n !in queue && InBounds(L, n)
    requires forall k | 0 <= k < |queue| :: DistAt(D, queue[k]) <= nd
    ensures Sorted(SetDist(L, D, n, nd), queue + [n])
  {
    var D', queue' := SetDist(L, D, n, nd), queue + [n];
    forall i, j | 0 <= i <= j < |queue'|
      ensures DistAt(D', queue'[i]) <= DistAt(D', queue'[j])
    {
      if j < |queue| {
        assert queue'[j] == queue[j] && queue'[i] == queue[i];
      } else if i < |queue| {
        assert queue'[i] == queue[i] && queue'[j] == n;
      }
    }
  }

  /** Discovering a passable cell n next to a discovered cell h, one hop
      above h and no nearer than anything queued, keeps the shared facts. */
  lemma DiscoverKeepsDiscovered(L: Layout, g: GridView, D: DistField, done: set<Cell>, queue: seq<Cell>, seen: set<Cell>,
                                h: Cell, n: Cell, nd: int)
    requires Discovered(L, g, D, done, queue, seen)
    requires n !in seen && Passable(L, g, n) && Adjacent(n, h) && h in seen
    requires nd == DistAt(D, h) + 1 && nd < Unreachable
    requires forall k | 0 <= k < |queue| :: DistAt(D, queue[k]) <= nd
    ensures Discovered(L, g, SetDist(L, D, n, nd), done, queue + [n], seen + {n})
  {
    var D' := SetDist(L, D, n, nd);
    var queue', seen' := queue + [n], seen + {n};
    DiscoverKeepsCounts(L, D, seen, n, nd);
    RaiseKeepsDescents(L, g, D, n, nd, h, seen);
    FrontierPush(L, done, queue, seen, n);
    SortedPush(L, D, queue, n, nd);
  }

  /** Giving a fresh distance to an undiscovered cell keeps every expanded
      cell's neighbourhood closed. */
  lemma ClosedOverGrows(L: Layout, g: GridView, D: DistField, done: set<Cell>, seen: set<Cell>, n: Cell, nd: int)
    requires FieldShape(L, D) && ClosedOver(L, g, D, done, seen) && done <= seen && n !in seen
    ensures ClosedOver(L, g, SetDist(L, D, n, nd), done, seen + {n})
  {
    var D' := SetDist(L, D, n, nd);
    forall d, i | d in done && 0 <= i < 4 && Passable(L, g, Neighbour(d, i))
      ensures Neighbour(d, i) in seen + {n} && DistAt(D', Neighbour(d, i)) <= DistAt(D', d) + 1
    {
      assert Neighbour(d, i) in seen && d in seen;
    }
  }

  /** Queueing an unqueued cell at distance nd keeps every queued distance
      within nd - 1 .. nd. */
  lemma BandPush(L: Layout, D: DistField, queue: seq<Cell>, n: Cell, nd: int)
    requires FieldShape(L, D) && n !in queue && InBounds(L, n)
    requires forall k | 0 <= k < |queue| :: nd - 1 <= DistAt(D, queue[k]) <= nd
    ensures forall k | 0 <= k < |queue + [n]| ::
      nd - 1 <= DistAt(SetDist(L, D, n, nd), (queue + [n])[k]) <= nd
  {
    var D', queue' := SetDist(L, D, n, nd), queue + [n];
    forall k | 0 <= k < |queue'|
      ensures nd - 1 <= DistAt(D', queue'[k]) <= nd
    {
      if k < |queue| {
        assert queue'[k] == queue[k];
      }
    }
  }

  /** Discovering neighbour i of h at distance nd extends the relaxed
      prefix of h's neighbours by one. */
  lemma RelaxedPush(L: Layout, g: GridView, D: DistField, seen: set<Cell>, h: Cell, nd: int, i: nat)
    requires FieldShape(L, D) && i < 4 && Neighbour(h, i) !in seen && InBounds(L, Neighbour(h, i))
    requires forall j | 0 <= j < i && Passable(L, g, Neighbour(h, j)) ::
      Neighbour(h, j) in seen && DistAt(D, Neighbour(h, j)) <= nd
    ensures forall j | 0 <= j < i + 1 && Passable(L, g, Neighbour(h, j)) ::
      Neighbour(h, j) in seen + {Neighbour(h, i)}
      && DistAt(SetDist(L, D, Neighbour(h, i), nd), Neighbour(h, j)) <= nd
  {
  }

  /** Relaxing neighbour i of h when it is discovered now. */
  lemma RelaxFound(L: Layout, g: GridView, D: DistField, done: set<Cell>, queue: seq<Cell>, seen: set<Cell>,
                   h: Cell, nd: int, i: nat)
    requires RelaxInv(L, g, D, done, queue, seen, h, nd, i) && i < 4
    requires Passable(L, g, Neighbour(h, i)) && DistAt(D, Neighbour(h, i)) == Unreachable
    ensures RelaxInv(L, g, SetDist(L, D, Neighbour(h, i), nd), done, queue + [Neighbour(h, i)],
                     seen + {Neighbour(h, i)}, h, nd, i + 1)
  {
    var n := Neighbour(h, i);
    var D' := SetDist(L, D, n, nd);
    assert n !in seen && n !in queue;
    NeighbourIsAdjacent(h, i);
    DiscoverKeepsDiscovered(L, g, D, done, queue, seen, h, n, nd);
    ClosedOverGrows(L, g, D, done - {h}, seen, n, nd);
    BandPush(L, D, queue, n, nd);
    RelaxedPush(L, g, D, seen, h, nd, i);
    assert forall d | d in done :: d in seen && DistAt(D', d) == DistAt(D, d);
  }

  /** Relaxing neighbour i of h when there is nothing to do. */
  lemma RelaxSkipped(L: Layout, g: GridView, D: DistField, done: set<Cell>, queue: seq<Cell>, seen: set<Cell>,
                     h: Cell, nd: int, i: nat)
    requires RelaxInv(L, g, D, done, queue, seen, h, nd, i) && i < 4
    requires !(Passable(L, g, Neighbour(h, i)) && DistAt(D, Neighbour(h, i)) == Unreachable)
    ensures RelaxInv(L, g, D, done, queue, seen, h, nd, i + 1)
  {
    if Passable(L, g, Neighbour(h, i)) {
      assert Neighbour(h, i) in seen;
      assert Neighbour(h, i) in done || Neighbour(h, i) in queue;
    }
  }

  /** With all four neighbours relaxed, the outer invariant holds again. */
  lemma RelaxDone(L: Layout, g: GridView, D: DistField, done: set<Cell>, queue: seq<Cell>, seen: set<Cell>,
                  h: Cell, nd: int)
    requires RelaxInv(L, g, D, done, queue, seen, h, nd, 4)
    ensures BfsInv(L, g, D, done, queue, seen)
  {
    assert ClosedOver(L, g, D, done, seen) by {
      forall d, i | d in done && 0 <= i < 4 && Passable(L, g, Neighbour(d, i))
        ensures Neighbour(d, i) in seen && DistAt(D, Neighbour(d, i)) <= DistAt(D, d) + 1
      {
        if d != h {
          assert d in done - {h};
        }
      }
    }
  }

  /** An exhausted search has produced a breadth-first field whose entries
      are below the number of board cells. */
  lemma BfsEnd(L: Layout, g: GridView, D: DistField, done: set<Cell>, seen: set<Cell>)
    requires BfsInv(L, g, D, done, [], seen)
    ensures LocallyConsistent(L, g, D) && IsShortest(L, g, D)
    ensures forall c | InBounds(L, c) && DistAt(D, c) != Unreachable :: DistAt(D, c) < L.cols * L.rows
  {
    BoardBound(L, seen);
    assert Closed(L, g, D) by {
      forall c, i | InBounds(L, c) && DistAt(D, c) != Unreachable && 0 <= i < 4 && Passable(L, g, Neighbour(c, i))
        ensures DistAt(D, Neighbour(c, i)) != Unreachable && DistAt(D, Neighbour(c, i)) <= DistAt(D, c) + 1
      {
        assert c in done;
      }
    }
    LocalIsShortest(L, g, D);
  }

  /** Cell c comes before (col, row) in the column-major sweep. */
  predicate SweptBefore(c: Cell, col: int, row: int) {
    c.x < col || (c.x == col && c.y < row)
  }

  /** Every board cell swept before (col, row) carries its heading under the
      direction rule. */
  ghost predicate DirectionsFollowRule(L: Layout, g: GridView, D: DistField, V: DirField, col: int, row: int) {
    forall c {:trigger SweptBefore(c, col, row)} | InBounds(L, c) && SweptBefore(c, col, row) ::
      DirAt(V, c) == Direction(L, g, D, c)
  }

  /** Storing the rule's heading for (col, row) extends the swept prefix by
      one cell. */
  lemma RuleExtends(L: Layout, g: GridView, D: DistField, V: DirField, col: int, row: int, v: Vec)
    requires DirShape(L, V) && InBounds(L, Cell(col, row))
    requires DirectionsFollowRule(L, g, D, V, col, row)
    requires v == Direction(L, g, D, Cell(col, row))
    ensures DirectionsFollowRule(L, g, D, SetDir(L, V, Cell(col, row), v), col, row + 1)
  {
    forall c | InBounds(L, c) && SweptBefore(c, col, row + 1)
      ensures DirAt(SetDir(L, V, Cell(col, row), v), c) == Direction(L, g, D, c)
    {
      if c != Cell(col, row) {
        assert SweptBefore(c, col, row);
      }
    }
  }

  /** Finishing a column's rows starts the next column. */
  lemma RuleNextColumn(L: Layout, g: GridView, D: DistField, V: DirField, col: int)
    requires DirectionsFollowRule(L, g, D, V, col, L.rows)
    ensures DirectionsFollowRule(L, g, D, V, col + 1, 0)
  {
    forall c | InBounds(L, c) && SweptBefore(c, col + 1, 0)
      ensures DirAt(V, c) == Direction(L, g, D, c)
    {
      assert SweptBefore(c, col, L.rows);
    }
  }

  /** Once every column is swept, every board cell follows the rule. */
  lemma RuleComplete(L: Layout, g: GridView, D: DistField, V: DirField)
    requires DirectionsFollowRule(L, g, D, V, L.cols, 0)
    ensures forall c | InBounds(L, c) :: DirAt(V, c) == Direction(L, g, D, c)
  {
    forall c | InBounds(L, c)
      ensures DirAt(V, c) == Direction(L, g, D, c)
    {
      assert SweptBefore(c, L.cols, 0);
    }
  }

  class FlowFieldCalculator {
    const grid: GridManager
    const layout: Layout
    /** Hop counts from the exit; the sentinel marks unreachable cells. */
    var integration: array2<int>
    /** Unit world-space headings; zero where an enemy has nowhere to go. */
    var directions: array2<Vec>

    /** Both tables match the grid's dimensions. */
    ghost predicate Shaped()
      reads this, grid
    {
      grid.Valid() && grid.layout == layout
      && integration.Length0 == layout.cols && integration.Length1 == layout.rows
      && directions.Length0 == layout.cols && directions.Length1 == layout.rows
    }

    ghost function DView(): (D: DistField)
      reads this, grid, integration
      requires Shaped()
      ensures FieldShape(layout, D)
      ensures forall c {:trigger DistAt(D, c)} | InBounds(layout, c) :: DistAt(D, c) == integration[c.x, c.y]
    {
      var a := integration;
      seq(a.Length0, x requires 0 <= x < a.Length0 reads a =>
        seq(a.Length1, y requires 0 <= y < a.Length1 reads a => a[x, y]))
    }

    ghost function VView(): (V: DirField)
      reads this, grid, directions
      requires Shaped()
      ensures DirShape(layout, V)
      ensures forall c {:trigger DirAt(V, c)} | InBounds(layout, c) :: DirAt(V, c) == directions[c.x, c.y]
    {
      var a := directions;
      seq(a.Length0, x requires 0 <= x < a.Length0 reads a =>
        seq(a.Length1, y requires 0 <= y < a.Length1 reads a => a[x, y]))
    }

    /** The object invariant: the two tables are coherent, whatever the grid
        has become since they were computed. */
    ghost predicate Valid()
      reads this, grid, integration, directions
    {
      Shaped() && Coherent(layout, DView(), VView())
    }

    /** The tables describe the grid as it is now: shortest hop counts and
        the direction rule on every board cell (the sweep has passed every
        column; `RuleComplete` states it cell by cell). */
    ghost predicate Current()
      reads this, grid, grid.cells, integration, directions
    {
      Valid()
      && IsShortest(layout, grid.View(), DView())
      && DirectionsFollowRule(layout, grid.View(), DView(), VView(), layout.cols, 0)
    }

    /** Awake allocates both tables; Start computes them once the grid is
        initialised. */
    constructor (grid: GridManager)
      requires grid.Valid()
      ensures this.grid == grid && this.layout == grid.layout
      ensures fresh(integration) && fresh(directions)
      ensures Current()
    {
      this.grid := grid;
      layout := grid.layout;
      integration := new int[grid.layout.cols, grid.layout.rows];
      directions := new Vec[grid.layout.cols, grid.layout.rows];
      new;
      var _ := Compute();
    }

    /** One entry of the integration table is overwritten. */
    method StoreDistance(c: Cell, v: int)
      requires Shaped() && InBounds(layout, c)
      modifies integration
      ensures Shaped()
      ensures DView() == SetDist(layout, old(DView()), c, v)
      ensures grid.View() == old(grid.View())
    {
      ghost var before := DView();
      integration[c.x, c.y] := v;
      ghost var expected := SetDist(layout, before, c, v);
      assert forall x | 0 <= x < layout.cols :: DView()[x] == expected[x];
    }

    /** GetDirection: the stored heading, zero off the board. A heading is
        a step onto an adjacent board cell one hop nearer the exit, and every
        finite cell but the exit has one. */
    function GetDirection(c: Cell): (v: Vec)
      reads this, grid, integration, directions
      requires Valid()
      ensures !InBounds(layout, c) ==> v == Zero
      ensures v != Zero ==>
        InBounds(layout, Step(c, v)) && Adjacent(c, Step(c, v))
        && DistAt(DView(), Step(c, v)) == DistAt(DView(), c) - 1
      ensures InBounds(layout, c) && DistAt(DView(), c) != Unreachable && c != layout.exit ==> v != Zero
    {
      if !grid.IsInBounds(c) then Zero else directions[c.x, c.y]
    }

    /** IsReachable: on the board and not carrying the sentinel. */
    function IsReachable(c: Cell): (b: bool)
      reads this, grid, integration, directions
      requires Valid()
      ensures b <==> InBounds(layout, c) && DistAt(DView(), c) != Unreachable
    {
      grid.IsInBounds(c) && integration[c.x, c.y] != Unreachable
    }

    /** On current tables, IsReachable answers whether a route joins the
        cell and the exit, and GetDirection is zero on a reachable cell only
        at the exit. */
    lemma QueriesMatchGrid(c: Cell)
      requires Current()
      ensures IsReachable(c) <==> InBounds(layout, c) && Reachable(layout, grid.View(), c)
      ensures InBounds(layout, c) && c != layout.exit ==>
        (GetDirection(c) != Zero <==> Reachable(layout, grid.View(), c))
    {
      if InBounds(layout, c) {
        ShortestDecidesReachability(layout, grid.View(), DView(), c);
      }
    }

    /** GetPath: follow the headings from the entry for at most cols * rows
        cells, stopping at the exit or at a zero heading. From a reachable
        entry the walk reaches the exit in exactly its hop count; from an
        unreachable one it is the entry alone. */
    method GetPath() returns (path: seq<Cell>)
      requires Valid()
      ensures |path| > 0 && path[0] == layout.entry && |path| <= layout.cols * layout.rows
      ensures Follows(layout, VView(), layout.entry, path)
      ensures DistAt(DView(), layout.entry) == Unreachable ==> path == [layout.entry]
      ensures DistAt(DView(), layout.entry) != Unreachable ==>
        |path| == DistAt(DView(), layout.entry) + 1 && path[|path| - 1] == layout.exit
      ensures Current() && Reachable(layout, grid.View(), layout.entry) ==>
        RouteTo(layout, grid.View(), Reverse(path), layout.entry)
        && forall p | RouteTo(layout, grid.View(), p, layout.entry) :: |path| <= |p|
    {
      path := Walk();
      WalkStops(layout, DView(), VView(), layout.entry, path);
      if Current() && Reachable(layout, grid.View(), layout.entry) {
        StoppedWalkIsShortest(layout, grid.View(), DView(), VView(), layout.entry, path);
      }
    }

    /** The loop of GetPath: from the entry, follow the stored headings,
        stopping at the exit, at a zero heading or after one step per board
        cell. */
    method Walk() returns (path: seq<Cell>)
      requires Valid()
      ensures Follows(layout, VView(), layout.entry, path)
      ensures path[|path| - 1] == layout.exit || DirAt(VView(), path[|path| - 1]) == Zero
    {
      ghost var D, V := DView(), VView();
      path := [];
      var current := layout.entry;
      var exit := layout.exit;
      var maxSteps := layout.cols * layout.rows;
      var step := 0;
      while step < maxSteps
        invariant D == DView() && V == VView()
        invariant 0 <= step < maxSteps && |path| == step
        invariant InBounds(layout, current)
        invariant Follows(layout, V, layout.entry, path + [current])
        invariant DistAt(D, layout.entry) != Unreachable ==> DistAt(D, current) == DistAt(D, layout.entry) - step
        invariant DistAt(D, layout.entry) == Unreachable ==> step == 0
      {
        path := path + [current];
        if current == exit {
          break;
        }
        var dir := directions[current.x, current.y];
        if dir == Zero {
          break;
        }
        FollowsExtend(layout, V, layout.entry, path);
        CoherentStep(layout, D, V, current);
        current := Step(current, dir);
        step := step + 1;
      }
    }

    /** A grid change triggers a recomputation unless the new state is
        `Blocked`, which leaves passability, hence both tables, unchanged
        when the cell was not a tower (see `Routes.BlockingKeepsShortest`). */
    method HandleCellStateChanged(cell: Cell, newState: CellState) returns (updated: bool)
      requires Shaped()
      modifies integration, directions
      ensures Shaped()
      ensures updated <==> newState == Tower || newState == Empty
      ensures updated ==> Current()
      ensures !updated ==> unchanged(integration, directions)
    {
      updated := false;
      if newState == Tower || newState == Empty {
        updated := Compute();
      }
    }

    /** Compute: the integration field, then the direction field, then the
        announcement that both are current (the result, always true). */
    method Compute() returns (updated: bool)
      requires Shaped()
      modifies integration, directions
      ensures Shaped() && Current()
      ensures updated
    {
      ComputeIntegrationField();
      ComputeDirectionField();
      RuleComplete(layout, grid.View(), DView(), VView());
      FieldsCoherent(layout, grid.View(), DView(), VView());
      updated := true;
    }

    /** Breadth-first search from the exit over board cells that are not
        towers: every cell gets its hop count, or the sentinel when no route
        joins it to the exit. */
    method ComputeIntegrationField()
      requires Shaped()
      modifies integration
      ensures Shaped()
      ensures LocallyConsistent(layout, grid.View(), DView()) && IsShortest(layout, grid.View(), DView())
      ensures forall c | InBounds(layout, c) && DistAt(DView(), c) != Unreachable ::
        DistAt(DView(), c) < layout.cols * layout.rows
    {
      ResetDistances();
      ghost var g := grid.View();
      var exit := layout.exit;
      StoreDistance(exit, 0);
      ghost var D := DView();
      var queue := [exit];
      ghost var done: set<Cell> := {};
      ghost var seen: set<Cell> := {exit};
      BfsStart(layout, g, D);
      while |queue| > 0
        invariant Shaped() && D == DView()
        invariant g == grid.View()
        invariant BfsInv(layout, g, D, done, queue, seen)
        decreases BoardCells(layout.cols, layout.rows) - done
      {
        BfsDequeue(layout, g, D, done, queue, seen);
        var current := queue[0];
        queue := queue[1..];
        done := done + {current};
        var nextDist := integration[current.x, current.y] + 1;
        for i := 0 to 4
          invariant Shaped() && D == DView()
          invariant g == grid.View()
          invariant RelaxInv(layout, g, D, done, queue, seen, current, nextDist, i)
        {
          var neighbor := Neighbour(current, i);
          if IsUndiscovered(neighbor) {
            RelaxFound(layout, g, D, done, queue, seen, current, nextDist, i);
            StoreDistance(neighbor, nextDist);
            D := SetDist(layout, D, neighbor, nextDist);
            queue := queue + [neighbor];
            seen := seen + {neighbor};
          } else {
            RelaxSkipped(layout, g, D, done, queue, seen, current, nextDist, i);
          }
        }
        RelaxDone(layout, g, D, done, queue, seen, current, nextDist);
      }
      BfsEnd(layout, g, D, done, seen);
    }

    /** The search's test on a neighbour: on the board, still carrying the
        sentinel, and not a tower. */
    function IsUndiscovered(c: Cell): (b: bool)
      reads this, grid, grid.cells, integration
      requires Shaped()
      ensures b <==> Passable(layout, grid.View(), c) && DistAt(DView(), c) == Unreachable
    {
      grid.IsInBounds(c) && integration[c.x, c.y] == Unreachable && grid.GetCellState(c) != Tower
    }

    /** Every entry of the integration table becomes the sentinel. */
    method ResetDistances()
      requires Shaped()
      modifies integration
      ensures Shaped() && grid.View() == old(grid.View())
      ensures forall c :: DistAt(DView(), c) == Unreachable
    {
      for col := 0 to layout.cols
        invariant Shaped()
        invariant forall x, y | 0 <= x < col && 0 <= y < layout.rows :: integration[x, y] == Unreachable
      {
        for row := 0 to layout.rows
          invariant Shaped()
          invariant forall x, y | 0 <= x < col && 0 <= y < layout.rows :: integration[x, y] == Unreachable
          invariant forall y | 0 <= y < row :: integration[col, y] == Unreachable
        {
          integration[col, row] := Unreachable;
        }
      }
    }

    /** For every board cell: zero on a tower or an unreachable cell,
        otherwise the heading to the first strictly nearest neighbour, or
        zero when none is nearer. Columns outer, rows inner. */
    method ComputeDirectionField()
      requires Shaped()
      modifies directions
      ensures Shaped() && grid.View() == old(grid.View()) && DView() == old(DView())
      ensures DirectionsFollowRule(layout, grid.View(), DView(), VView(), layout.cols, 0)
    {
      for col := 0 to layout.cols
        invariant Shaped() && grid.View() == old(grid.View()) && DView() == old(DView())
        invariant DirectionsFollowRule(layout, grid.View(), DView(), VView(), col, 0)
      {
        ComputeColumn(col);
        RuleNextColumn(layout, grid.View(), DView(), VView(), col);
      }
    }

    /** The direction pass over one column, row by row. */
    method ComputeColumn(col: int)
      requires Shaped() && 0 <= col < layout.cols
      requires DirectionsFollowRule(layout, grid.View(), DView(), VView(), col, 0)
      modifies directions
      ensures Shaped() && grid.View() == old(grid.View()) && DView() == old(DView())
      ensures DirectionsFollowRule(layout, grid.View(), DView(), VView(), col, layout.rows)
    {
      ghost var g, D, V := grid.View(), DView(), VView();
      for row := 0 to layout.rows
        invariant Shaped() && g == grid.View() && D == DView() && V == VView()
        invariant DirectionsFollowRule(layout, g, D, V, col, row)
      {
        FillCell(g, D, V, Cell(col, row));
        RuleExtends(layout, g, D, V, col, row, Direction(layout, g, D, Cell(col, row)));
        V := SetDir(layout, V, Cell(col, row), Direction(layout, g, D, Cell(col, row)));
      }
    }

    /** One step of the sweep: the rule's heading for a board cell is
        computed and stored. */
    method FillCell(ghost g: GridView, ghost D: DistField, ghost V: DirField, cell: Cell)
      requires Shaped() && InBounds(layout, cell)
      requires g == grid.View() && D == DView() && V == VView()
      modifies directions
      ensures Shaped() && g == grid.View() && D == DView()
      ensures VView() == SetDir(layout, V, cell, Direction(layout, g, D, cell))
    {
      var v := CellDirection(g, D, cell);
      StoreDirection(cell, v);
    }

    /** The heading of one board cell under the direction rule. */
    method CellDirection(ghost g: GridView, ghost D: DistField, cell: Cell) returns (v: Vec)
      requires Shaped() && InBounds(layout, cell)
      requires g == grid.View() && D == DView()
      ensures v == Direction(layout, g, D, cell)
    {
      if grid.GetCellState(cell) == Tower || integration[cell.x, cell.y] == Unreachable {
        v := Zero;
      } else {
        var best := NearestNeighbour(cell);
        if best == cell {
          v := Zero;
        } else {
          v := Heading(cell, best);
        }
      }
    }

    /** The scan over the four neighbours in order, keeping the first one on
        the board that is strictly nearer than everything before it. */
    method NearestNeighbour(cell: Cell) returns (best: Cell)
      requires Shaped() && InBounds(layout, cell)
      ensures best == BestNeighbour(layout, DView(), cell)
      ensures best == cell || (Adjacent(cell, best) && InBounds(layout, best) && DistAt(DView(), best) < DistAt(DView(), cell))
    {
      ghost var D := DView();
      best := cell;
      var bestDist := integration[cell.x, cell.y];
      for i := 0 to 4
        invariant DistAt(D, best) == bestDist
        invariant Scan(layout, D, cell, i, best, bestDist) == BestNeighbour(layout, D, cell)
      {
        var neighbor := Neighbour(cell, i);
        if grid.IsInBounds(neighbor) && integration[neighbor.x, neighbor.y] < bestDist {
          bestDist := integration[neighbor.x, neighbor.y];
          best := neighbor;
        }
      }
    }

    /** One entry of the direction table is overwritten. */
    method StoreDirection(c: Cell, v: Vec)
      requires Shaped() && InBounds(layout, c)
      modifies directions
      ensures Shaped()
      ensures VView() == SetDir(layout, old(VView()), c, v)
      ensures grid.View() == old(grid.View()) && DView() == old(DView())
    {
      ghost var before := VView();
      directions[c.x, c.y] := v;
      ghost var expected := SetDir(layout, before, c, v);
      assert forall x | 0 <= x < layout.cols :: VView()[x] == expected[x];
    }
  }

  /** The heading is the normalised difference of the two cells' world
      centres: the centres are exactly one cell size apart along it. */
  lemma HeadingIsWorldDelta(grid: GridManager, c: Cell, b: Cell)
    requires grid.Valid() && Adjacent(c, b)
    ensures grid.CellToWorld(b).x - grid.CellToWorld(c).x == (Heading(c, b).x as real) * grid.cellSize
    ensures grid.CellToWorld(b).y - grid.CellToWorld(c).y == (Heading(c, b).y as real) * grid.cellSize
  {
  }
}
