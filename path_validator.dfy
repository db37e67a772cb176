/** The placement validator: a read-only breadth-first search from the exit
    that treats towers and the candidate cell as walls and answers whether
    the entry can still be reached. */
module Validation {
  import opened Cells
  import opened Routes
  import opened GridStore

  /** The visited marks, indexed `[column][row]`. */
  type MarkTable = seq<seq<bool>>

  predicate MarkShape(L: Layout, M: MarkTable) {
    |M| == L.cols && forall x | 0 <= x < |M| :: |M[x]| == L.rows
  }

  /** The mark of a cell, unmarked off the table. */
  function Marked(M: MarkTable, c: Cell): bool {
    0 <= c.x < |M| && 0 <= c.y < |M[c.x]| && M[c.x][c.y]
  }

  /** The mark table with one board cell marked. */
  function SetMark(L: Layout, M: MarkTable, c: Cell): (M': MarkTable)
    requires MarkShape(L, M)
    ensures MarkShape(L, M')
    ensures forall d :: Marked(M', d) == ((d == c && InBounds(L, c)) || Marked(M, d))
  {
    if InBounds(L, c) then M[c.x := M[c.x][c.y := true]] else M
  }

  /** The grid the validator searches: the candidate counts as a tower. */
  function Walled(L: Layout, g: GridView, cand: Cell): (w: GridView)
    requires WellFormed(L, g)
    ensures WellFormed(L, w)
    ensures forall c :: Passable(L, w, c) <==> Passable(L, g, c) && c != cand
  {
    Update(L, g, cand, Tower)
  }

  /** Every passable neighbour of an expanded cell has been discovered. */
  ghost predicate ClosedUnder(L: Layout, g: GridView, done: set<Cell>, seen: set<Cell>) {
    forall d, i | d in done && 0 <= i < 4 && Passable(L, g, Neighbour(d, i)) :: Neighbour(d, i) in seen
  }

  /** Facts shared by both loops of the search over grid g: the marks are
      exactly the discovered cells, every discovered cell is reachable, the
      exit is discovered, and the entry has not been expanded (the search
      stops when it dequeues the entry). */
  ghost predicate Searched(L: Layout, g: GridView, M: MarkTable, done: set<Cell>, queue: seq<Cell>, seen: set<Cell>) {
    ValidLayout(L) && MarkShape(L, M)
    && (forall c :: Marked(M, c) <==> c in seen)
    && Frontier(L, done, queue, seen)
    && L.exit in seen && L.entry !in done
    && (forall c | c in seen :: Reachable(L, g, c))
  }

  /** The outer-loop invariant. */
  ghost predicate SearchInv(L: Layout, g: GridView, M: MarkTable, done: set<Cell>, queue: seq<Cell>, seen: set<Cell>) {
    Searched(L, g, M, done, queue, seen) && ClosedUnder(L, g, done, seen)
  }

  /** The inner-loop invariant while cell h has its neighbours 0 .. i - 1
      examined. */
  ghost predicate ExpandInv(L: Layout, g: GridView, M: MarkTable, done: set<Cell>, queue: seq<Cell>, seen: set<Cell>,
                            h: Cell, i: nat) {
    Searched(L, g, M, done, queue, seen)
    && h in done && i <= 4
    && ClosedUnder(L, g, done - {h}, seen)
    && (forall j | 0 <= j < i && Passable(L, g, Neighbour(h, j)) :: Neighbour(h, j) in seen)
  }

  /** The search starts with the exit marked and queued. */
  lemma SearchStart(L: Layout, g: GridView, M: MarkTable)
    requires ValidLayout(L) && MarkShape(L, M) && forall c :: !Marked(M, c)
    ensures SearchInv(L, g, SetMark(L, M, L.exit), {}, [L.exit], {L.exit})
  {
    assert RouteTo(L, g, [L.exit], L.exit);
  }

  /** Dequeuing a cell other than the entry starts its expansion. */
  lemma SearchDequeue(L: Layout, g: GridView, M: MarkTable, done: set<Cell>, queue: seq<Cell>, seen: set<Cell>)
    requires SearchInv(L, g, M, done, queue, seen) && |queue| > 0 && queue[0] != L.entry
    ensures queue[0] !in done && queue[0] in BoardCells(L.cols, L.rows)
    ensures ExpandInv(L, g, M, done + {queue[0]}, queue[1..], seen, queue[0], 0)
  {
    FrontierPop(L, done, queue, seen);
    assert done + {queue[0]} - {queue[0]} <= done;
  }

  /** A dequeued entry is reachable. */
  lemma SearchFindsEntry(L: Layout, g: GridView, M: MarkTable, done: set<Cell>, queue: seq<Cell>, seen: set<Cell>)
    requires SearchInv(L, g, M, done, queue, seen) && |queue| > 0 && queue[0] == L.entry
    ensures Reachable(L, g, L.entry)
  {
    assert queue[0] in seen;
  }

  /** Marking and queueing a passable unmarked neighbour. */
  lemma SearchFound(L: Layout, g: GridView, M: MarkTable, done: set<Cell>, queue: seq<Cell>, seen: set<Cell>,
                    h: Cell, i: nat)
    requires ExpandInv(L, g, M, done, queue, seen, h, i) && i < 4
    requires Passable(L, g, Neighbour(h, i)) && !Marked(M, Neighbour(h, i))
    ensures ExpandInv(L, g, SetMark(L, M, Neighbour(h, i)), done, queue + [Neighbour(h, i)],
                      seen + {Neighbour(h, i)}, h, i + 1)
  {
    var n := Neighbour(h, i);
    assert h in seen;
    var p :| RouteTo(L, g, p, h);
    NeighbourIsAdjacent(h, i);
    ExtendRoute(L, g, p, h, n);
    FrontierPush(L, done, queue, seen, n);
    assert forall c | c in seen + {n} :: Reachable(L, g, c);
  }

  /** Skipping a neighbour that is off the board, marked, or a wall. */
  lemma SearchSkipped(L: Layout, g: GridView, M: MarkTable, done: set<Cell>, queue: seq<Cell>, seen: set<Cell>,
                      h: Cell, i: nat)
    requires ExpandInv(L, g, M, done, queue, seen, h, i) && i < 4
    requires !(Passable(L, g, Neighbour(h, i)) && !Marked(M, Neighbour(h, i)))
    ensures ExpandInv(L, g, M, done, queue, seen, h, i + 1)
  {
  }

  /** With all four neighbours examined, the outer invariant holds again. */
  lemma SearchExpanded(L: Layout, g: GridView, M: MarkTable, done: set<Cell>, queue: seq<Cell>, seen: set<Cell>, h: Cell)
    requires ExpandInv(L, g, M, done, queue, seen, h, 4)
    ensures SearchInv(L, g, M, done, queue, seen)
  {
    forall d, i | d in done && 0 <= i < 4 && Passable(L, g, Neighbour(d, i))
      ensures Neighbour(d, i) in seen
    {
      if d != h {
        assert d in done - {h};
      }
    }
  }

  /** An exhausted search never reached the entry: it is unreachable. */
  lemma SearchExhausted(L: Layout, g: GridView, M: MarkTable, done: set<Cell>, seen: set<Cell>)
    requires SearchInv(L, g, M, done, [], seen)
    ensures !Reachable(L, g, L.entry)
  {
    if Reachable(L, g, L.entry) {
      var p :| RouteTo(L, g, p, L.entry);
      assert forall c | c in seen :: c in done;
      ClosedSetHoldsRoutes(L, g, done, p);
    }
  }

  /** The validator's answer for a candidate, as a property of the grid. */
  ghost predicate PlacementKeepsRoute(L: Layout, g: GridView, cand: Cell)
    requires WellFormed(L, g)
  {
    Reachable(L, Walled(L, g, cand), L.entry)
  }

  /** A candidate on the entry is always rejected: the last cell of a route
      to the entry must be passable. */
  lemma CandidateEntryRejected(L: Layout, g: GridView)
    requires ValidLayout(L) && WellFormed(L, g)
    ensures !PlacementKeepsRoute(L, g, L.entry)
  {
  }

  /** Every route can be cut to one that never returns to the exit. */
  lemma {:induction false} RouteAvoidsExit(L: Layout, g: GridView, p: seq<Cell>) returns (q: seq<Cell>)
    requires IsRoute(L, g, p)
    ensures IsRoute(L, g, q) && q[|q| - 1] == p[|p| - 1]
    ensures forall k | 0 < k < |q| :: q[k] != L.exit
    decreases |p|
  {
    if k :| 0 < k < |p| && p[k] == L.exit {
      var r := p[k..];
      assert forall j | 0 <= j < |r| :: r[j] == p[k + j];
      q := RouteAvoidsExit(L, g, r);
    } else {
      q := p;
    }
  }

  /** A candidate on the exit changes nothing: the exit seeds the search and
      no route needs to come back to it. */
  lemma CandidateExitIgnored(L: Layout, g: GridView)
    requires WellFormed(L, g)
    ensures PlacementKeepsRoute(L, g, L.exit) <==> Reachable(L, g, L.entry)
  {
    var w := Walled(L, g, L.exit);
    if Reachable(L, g, L.entry) {
      var p :| RouteTo(L, g, p, L.entry);
      var q := RouteAvoidsExit(L, g, p);
      assert RouteTo(L, w, q, L.entry);
    }
    if Reachable(L, w, L.entry) {
      var p :| RouteTo(L, w, p, L.entry);
      assert RouteTo(L, g, p, L.entry);
    }
  }

  /** A rejected candidate stays rejected when towers are added elsewhere. */
  lemma RejectionIsMonotone(L: Layout, g1: GridView, g2: GridView, cand: Cell)
    requires WellFormed(L, g1) && WellFormed(L, g2) && MoreTowers(L, g1, g2)
    requires !PlacementKeepsRoute(L, g1, cand)
    ensures !PlacementKeepsRoute(L, g2, cand)
  {
    var w1, w2 := Walled(L, g1, cand), Walled(L, g2, cand);
    assert MoreTowers(L, w1, w2);
    if Reachable(L, w2, L.entry) {
      MoreTowersFewerRoutes(L, w1, w2, L.entry);
    }
  }

  /** The validator agrees with the flow field recomputed after the tower is
      placed: the candidate is accepted exactly when the new field gives the
      entry a finite distance. */
  lemma ValidatorAgreesWithField(L: Layout, g: GridView, cand: Cell, D: DistField)
    requires WellFormed(L, g) && InBounds(L, L.entry)
    requires IsShortest(L, Update(L, g, cand, Tower), D)
    ensures PlacementKeepsRoute(L, g, cand) <==> DistAt(D, L.entry) != Unreachable
  {
    ShortestDecidesReachability(L, Update(L, g, cand, Tower), D, L.entry);
  }

  class PathValidator {
    const grid: GridManager
    const layout: Layout
    /** Scratch marks of the search, cleared on every call. */
    var visited: array2<bool>

    ghost predicate Valid()
      reads this, grid
    {
      grid.Valid() && grid.layout == layout
      && visited.Length0 == layout.cols && visited.Length1 == layout.rows
    }

    ghost function MarkView(): (M: MarkTable)
      reads this, grid, visited
      requires Valid()
      ensures MarkShape(layout, M)
      ensures forall c {:trigger Marked(M, c)} | InBounds(layout, c) :: Marked(M, c) == visited[c.x, c.y]
    {
      var a := visited;
      seq(a.Length0, x requires 0 <= x < a.Length0 reads a =>
        seq(a.Length1, y requires 0 <= y < a.Length1 reads a => a[x, y]))
    }

    /** Awake: a mark table of the grid's dimensions. */
    constructor (grid: GridManager)
      requires grid.Valid()
      ensures this.grid == grid && this.layout == grid.layout
      ensures Valid() && fresh(visited)
    {
      this.grid := grid;
      layout := grid.layout;
      visited := new bool[grid.layout.cols, grid.layout.rows];
    }

    /** IsPlacementValid: whether the entry stays reachable once the
        candidate becomes a wall. Only the scratch marks change. */
    method IsPlacementValid(cand: Cell) returns (ok: bool)
      requires Valid()
      modifies visited
      ensures Valid()
      ensures ok == PlacementKeepsRoute(layout, grid.View(), cand)
    {
      ClearVisited();
      ghost var w := Walled(layout, grid.View(), cand);
      var exit := layout.exit;
      var entry := layout.entry;
      SearchStart(layout, w, MarkView());
      Mark(exit);
      ghost var M := MarkView();
      var queue := [exit];
      ghost var done: set<Cell> := {};
      ghost var seen: set<Cell> := {exit};
      while |queue| > 0
        invariant Valid() && M == MarkView() && w == Walled(layout, grid.View(), cand)
        invariant SearchInv(layout, w, M, done, queue, seen)
        decreases BoardCells(layout.cols, layout.rows) - done
      {
        var current := queue[0];
        if current == entry {
          SearchFindsEntry(layout, w, M, done, queue, seen);
          return true;
        }
        SearchDequeue(layout, w, M, done, queue, seen);
        queue := queue[1..];
        done := done + {current};
        for i := 0 to 4
          invariant Valid() && M == MarkView() && w == Walled(layout, grid.View(), cand)
          invariant ExpandInv(layout, w, M, done, queue, seen, current, i)
        {
          var neighbor := Neighbour(current, i);
          if IsOpen(cand, neighbor) {
            SearchFound(layout, w, M, done, queue, seen, current, i);
            Mark(neighbor);
            M := SetMark(layout, M, neighbor);
            queue := queue + [neighbor];
            seen := seen + {neighbor};
          } else {
            SearchSkipped(layout, w, M, done, queue, seen, current, i);
          }
        }
        SearchExpanded(layout, w, M, done, queue, seen, current);
      }
      SearchExhausted(layout, w, M, done, seen);
      return false;
    }

    /** The search's test on a neighbour: on the board, unmarked, not a
        tower and not the candidate. */
    function IsOpen(cand: Cell, c: Cell): (b: bool)
      reads this, grid, grid.cells, visited
      requires Valid()
      ensures b <==> Passable(layout, Walled(layout, grid.View(), cand), c) && !Marked(MarkView(), c)
    {
      grid.IsInBounds(c) && !visited[c.x, c.y] && grid.GetCellState(c) != Tower && c != cand
    }

    /** One board cell is marked. */
    method Mark(c: Cell)
      requires Valid() && InBounds(layout, c)
      modifies visited
      ensures Valid()
      ensures MarkView() == SetMark(layout, old(MarkView()), c)
      ensures grid.View() == old(grid.View())
    {
      ghost var before := MarkView();
      visited[c.x, c.y] := true;
      ghost var expected := SetMark(layout, before, c);
      assert forall x | 0 <= x < layout.cols :: MarkView()[x] == expected[x];
    }

    /** Array.Clear: every mark is reset. */
    method ClearVisited()
      requires Valid()
      modifies visited
      ensures Valid() && grid.View() == old(grid.View())
      ensures forall c :: !Marked(MarkView(), c)
    {
      for col := 0 to layout.cols
        invariant Valid()
        invariant forall x, y | 0 <= x < col && 0 <= y < layout.rows :: !visited[x, y]
      {
        for row := 0 to layout.rows
          invariant Valid()
          invariant forall x, y | 0 <= x < col && 0 <= y < layout.rows :: !visited[x, y]
          invariant forall y | 0 <= y < row :: !visited[col, y]
        {
          visited[col, row] := false;
        }
      }
    }
  }
}
