/** The walking graph shared by the flow field and the placement validator:
    4-connected board cells, where only `Tower` cells are impassable and the
    exit is always the start of a search. A grid value is the cell table
    indexed `[column][row]`; a distance field is a table of the same shape. */
module Routes {
  import opened Cells

  type GridView = seq<seq<CellState>>
  type DistField = seq<seq<int>>

  predicate WellFormed(L: Layout, g: GridView) {
    |g| == L.cols && forall x | 0 <= x < |g| :: |g[x]| == L.rows
  }

  predicate FieldShape(L: Layout, D: DistField) {
    |D| == L.cols && forall x | 0 <= x < |D| :: |D[x]| == L.rows
  }

  /** A table of the right shape whose entries are non-negative C# ints, the
      sentinel included. */
  predicate IntField(L: Layout, D: DistField) {
    FieldShape(L, D) && forall x, y | 0 <= x < |D| && 0 <= y < |D[x]| :: 0 <= D[x][y] <= Unreachable
  }

  /** The state of a cell, `Blocked` off the board. */
  function StateAt(L: Layout, g: GridView, c: Cell): CellState {
    if InBounds(L, c) && c.x < |g| && c.y < |g[c.x]| then g[c.x][c.y] else Blocked
  }

  /** The distance stored for a cell, the sentinel off the board. */
  function DistAt(D: DistField, c: Cell): int {
    if 0 <= c.x < |D| && 0 <= c.y < |D[c.x]| then D[c.x][c.y] else Unreachable
  }

  predicate Passable(L: Layout, g: GridView, c: Cell) {
    InBounds(L, c) && StateAt(L, g, c) != Tower
  }

  /** The grid with one cell given a new state (no change off the board). */
  function Update(L: Layout, g: GridView, c: Cell, s: CellState): (g': GridView)
    requires WellFormed(L, g)
    ensures WellFormed(L, g')
    ensures forall d :: StateAt(L, g', d) == if d == c && InBounds(L, c) then s else StateAt(L, g, d)
  {
    if InBounds(L, c) then g[c.x := g[c.x][c.y := s]] else g
  }

  /** A walk that starts at the exit and then only visits passable cells,
      each 4-adjacent to the one before. The exit itself is the seed of both
      searches and is never tested for passability. */
  predicate IsRoute(L: Layout, g: GridView, p: seq<Cell>) {
    |p| > 0 && p[0] == L.exit
    && forall i | 0 < i < |p| :: Passable(L, g, p[i]) && Adjacent(p[i - 1], p[i])
  }

  predicate RouteTo(L: Layout, g: GridView, p: seq<Cell>, c: Cell) {
    IsRoute(L, g, p) && p[|p| - 1] == c
  }

  /** c can be reached from the exit (equivalently, the exit from c). */
  ghost predicate Reachable(L: Layout, g: GridView, c: Cell) {
    exists p :: RouteTo(L, g, p, c)
  }

  ghost predicate HasRouteOfLength(L: Layout, g: GridView, c: Cell, k: int) {
    exists p :: RouteTo(L, g, p, c) && |p| == k + 1
  }

  /** D is the hop-count field: a finite entry is the length of some route
      from the exit, every route is at least that long, and a cell with a
      route never carries the sentinel. */
  ghost predicate IsShortest(L: Layout, g: GridView, D: DistField) {
    IntField(L, D)
    && (forall c | InBounds(L, c) && DistAt(D, c) != Unreachable :: HasRouteOfLength(L, g, c, DistAt(D, c)))
    && (forall c, p | InBounds(L, c) && RouteTo(L, g, p, c) :: DistAt(D, c) != Unreachable && DistAt(D, c) <= |p| - 1)
  }

  ghost predicate HasDescent(L: Layout, D: DistField, c: Cell) {
    exists n :: Adjacent(c, n) && InBounds(L, n) && DistAt(D, n) == DistAt(D, c) - 1
  }

  /** Every finite cell other than the exit is passable and one hop above
      some neighbour. */
  ghost predicate Descending(L: Layout, g: GridView, D: DistField) {
    forall c | InBounds(L, c) && DistAt(D, c) != Unreachable && c != L.exit ::
      Passable(L, g, c) && HasDescent(L, D, c)
  }

  /** The passable neighbours of a finite cell are finite and at most one
      hop further. */
  ghost predicate Closed(L: Layout, g: GridView, D: DistField) {
    forall c, i {:trigger Neighbour(c, i)} | InBounds(L, c) && DistAt(D, c) != Unreachable && 0 <= i < 4 && Passable(L, g, Neighbour(c, i)) ::
      DistAt(D, Neighbour(c, i)) != Unreachable && DistAt(D, Neighbour(c, i)) <= DistAt(D, c) + 1
  }

  /** The local facts a breadth-first search establishes: the exit is at 0,
      and the field is descending and closed. */
  ghost predicate LocallyConsistent(L: Layout, g: GridView, D: DistField) {
    IntField(L, D)
    && DistAt(D, L.exit) == 0
    && Descending(L, g, D)
    && Closed(L, g, D)
  }

  lemma ExtendRoute(L: Layout, g: GridView, p: seq<Cell>, c: Cell, n: Cell)
    requires RouteTo(L, g, p, c) && Adjacent(c, n) && Passable(L, g, n)
    ensures RouteTo(L, g, p + [n], n)
  {
  }

  lemma RouteCellsInBounds(L: Layout, g: GridView, p: seq<Cell>, i: nat)
    requires ValidLayout(L) && IsRoute(L, g, p) && i < |p|
    ensures InBounds(L, p[i])
  {
  }

  /** Following descents from a finite cell yields a route of exactly its
      distance. */
  lemma {:induction false} DescentGivesRoute(L: Layout, g: GridView, D: DistField, c: Cell)
    requires ValidLayout(L) && LocallyConsistent(L, g, D)
    requires InBounds(L, c) && DistAt(D, c) != Unreachable
    ensures HasRouteOfLength(L, g, c, DistAt(D, c))
    decreases DistAt(D, c)
  {
    if c == L.exit {
      assert RouteTo(L, g, [c], c);
    } else {
      assert Descending(L, g, D);
      assert HasDescent(L, D, c);
      var n :| Adjacent(c, n) && InBounds(L, n) && DistAt(D, n) == DistAt(D, c) - 1;
      assert DistAt(D, n) >= 0;
      DescentGivesRoute(L, g, D, n);
      var p :| RouteTo(L, g, p, n) && |p| == DistAt(D, n) + 1;
      ExtendRoute(L, g, p, n, c);
      assert RouteTo(L, g, p + [c], c) && |p + [c]| == DistAt(D, c) + 1;
    }
  }

  /** No route is shorter than the distance of the cell it ends at. */
  lemma {:induction false} RouteBoundsDistance(L: Layout, g: GridView, D: DistField, p: seq<Cell>)
    requires ValidLayout(L) && LocallyConsistent(L, g, D) && IsRoute(L, g, p)
    ensures DistAt(D, p[|p| - 1]) != Unreachable && DistAt(D, p[|p| - 1]) <= |p| - 1
    decreases |p|
  {
    if |p| > 1 {
      var q := p[..|p| - 1];
      assert IsRoute(L, g, q);
      RouteBoundsDistance(L, g, D, q);
      var prev, c := p[|p| - 2], p[|p| - 1];
      RouteCellsInBounds(L, g, p, |p| - 2);
      var i := AdjacentIsNeighbour(prev, c);
      assert Passable(L, g, Neighbour(prev, i));
      assert Closed(L, g, D);
    }
  }

  /** A breadth-first-consistent field is the shortest-hop field. */
  lemma LocalIsShortest(L: Layout, g: GridView, D: DistField)
    requires ValidLayout(L) && LocallyConsistent(L, g, D)
    ensures IsShortest(L, g, D)
  {
    forall c | InBounds(L, c) && DistAt(D, c) != Unreachable
      ensures HasRouteOfLength(L, g, c, DistAt(D, c))
    {
      DescentGivesRoute(L, g, D, c);
    }
    forall c, p | InBounds(L, c) && RouteTo(L, g, p, c)
      ensures DistAt(D, c) != Unreachable && DistAt(D, c) <= |p| - 1
    {
      RouteBoundsDistance(L, g, D, p);
    }
  }

  /** On the shortest field, the last step of a shortest route to a finite
      cell other than the exit is a passable descent. */
  lemma ShortestDescentAt(L: Layout, g: GridView, D: DistField, c: Cell)
    requires ValidLayout(L) && IsShortest(L, g, D)
    requires InBounds(L, c) && DistAt(D, c) != Unreachable && c != L.exit
    ensures Passable(L, g, c) && HasDescent(L, D, c)
  {
    assert HasRouteOfLength(L, g, c, DistAt(D, c));
    var p :| RouteTo(L, g, p, c) && |p| == DistAt(D, c) + 1;
    var q := p[..|p| - 1];
    var n := p[|p| - 2];
    assert RouteTo(L, g, q, n);
    RouteCellsInBounds(L, g, p, |p| - 2);
    assert DistAt(D, n) <= DistAt(D, c) - 1;
    var r :| RouteTo(L, g, r, n) && |r| == DistAt(D, n) + 1;
    ExtendRoute(L, g, r, n, c);
    assert Adjacent(c, n);
  }

  lemma ShortestDescending(L: Layout, g: GridView, D: DistField)
    requires ValidLayout(L) && IsShortest(L, g, D)
    ensures Descending(L, g, D)
  {
    forall c | InBounds(L, c) && DistAt(D, c) != Unreachable && c != L.exit
      ensures Passable(L, g, c) && HasDescent(L, D, c)
    {
      ShortestDescentAt(L, g, D, c);
    }
  }

  lemma ShortestClosed(L: Layout, g: GridView, D: DistField)
    requires ValidLayout(L) && IsShortest(L, g, D)
    ensures Closed(L, g, D)
  {
    forall c, i | InBounds(L, c) && DistAt(D, c) != Unreachable && 0 <= i < 4 && Passable(L, g, Neighbour(c, i))
      ensures DistAt(D, Neighbour(c, i)) != Unreachable && DistAt(D, Neighbour(c, i)) <= DistAt(D, c) + 1
    {
      assert HasRouteOfLength(L, g, c, DistAt(D, c));
      var p :| RouteTo(L, g, p, c) && |p| == DistAt(D, c) + 1;
      ExtendRoute(L, g, p, c, Neighbour(c, i));
    }
  }

  /** Conversely, the shortest-hop field has the local breadth-first shape. */
  lemma ShortestIsLocal(L: Layout, g: GridView, D: DistField)
    requires ValidLayout(L) && IsShortest(L, g, D)
    ensures LocallyConsistent(L, g, D)
  {
    assert RouteTo(L, g, [L.exit], L.exit);
    ShortestDescending(L, g, D);
    ShortestClosed(L, g, D);
  }

  /** The field is a function of the grid: two shortest fields agree. */
  lemma ShortestIsUnique(L: Layout, g: GridView, D1: DistField, D2: DistField)
    requires ValidLayout(L) && IsShortest(L, g, D1) && IsShortest(L, g, D2)
    ensures forall c | InBounds(L, c) :: DistAt(D1, c) == DistAt(D2, c)
  {
    forall c | InBounds(L, c)
      ensures DistAt(D1, c) == DistAt(D2, c)
    {
      if DistAt(D1, c) != Unreachable {
        var p :| RouteTo(L, g, p, c) && |p| == DistAt(D1, c) + 1;
      }
      if DistAt(D2, c) != Unreachable {
        var p :| RouteTo(L, g, p, c) && |p| == DistAt(D2, c) + 1;
      }
    }
  }

  /** A finite distance means reachable, the sentinel means unreachable. */
  lemma ShortestDecidesReachability(L: Layout, g: GridView, D: DistField, c: Cell)
    requires IsShortest(L, g, D) && InBounds(L, c)
    ensures DistAt(D, c) != Unreachable <==> Reachable(L, g, c)
  {
  }

  /** In the shortest field the exit is at distance 0 and every other tower
      cell keeps the sentinel. */
  lemma ShortestExitAndTowers(L: Layout, g: GridView, D: DistField, c: Cell)
    requires ValidLayout(L) && IsShortest(L, g, D) && InBounds(L, c)
    ensures DistAt(D, L.exit) == 0
    ensures c != L.exit && StateAt(L, g, c) == Tower ==> DistAt(D, c) == Unreachable
  {
    assert RouteTo(L, g, [L.exit], L.exit);
    if DistAt(D, L.exit) != Unreachable {
      var p :| RouteTo(L, g, p, L.exit) && |p| == DistAt(D, L.exit) + 1;
    }
  }

  /** g2 has a tower wherever g1 has one. */
  ghost predicate MoreTowers(L: Layout, g1: GridView, g2: GridView) {
    forall c | InBounds(L, c) && StateAt(L, g1, c) == Tower :: StateAt(L, g2, c) == Tower
  }

  /** Adding towers never creates routes. */
  lemma MoreTowersFewerRoutes(L: Layout, g1: GridView, g2: GridView, c: Cell)
    requires MoreTowers(L, g1, g2) && Reachable(L, g2, c)
    ensures Reachable(L, g1, c)
  {
    var p :| RouteTo(L, g2, p, c);
    assert RouteTo(L, g1, p, c);
  }

  /** Changing the state of a cell that is not a tower to `Blocked` keeps
      the set of passable cells, hence the shortest field. */
  lemma BlockingKeepsShortest(L: Layout, g: GridView, D: DistField, c: Cell)
    requires WellFormed(L, g) && IsShortest(L, g, D) && StateAt(L, g, c) != Tower
    ensures IsShortest(L, Update(L, g, c, Blocked), D)
  {
    var g' := Update(L, g, c, Blocked);
    assert forall d :: Passable(L, g, d) == Passable(L, g', d);
    forall d | InBounds(L, d) && DistAt(D, d) != Unreachable
      ensures HasRouteOfLength(L, g', d, DistAt(D, d))
    {
      var p :| RouteTo(L, g, p, d) && |p| == DistAt(D, d) + 1;
      SamePassableSameRoutes(L, g, g', p);
    }
    forall d, p | InBounds(L, d) && RouteTo(L, g', p, d)
      ensures DistAt(D, d) != Unreachable && DistAt(D, d) <= |p| - 1
    {
      SamePassableSameRoutes(L, g, g', p);
    }
  }

  /** Two grids with the same passable cells have the same routes. */
  lemma SamePassableSameRoutes(L: Layout, g: GridView, g': GridView, p: seq<Cell>)
    requires forall d :: Passable(L, g, d) == Passable(L, g', d)
    ensures IsRoute(L, g, p) == IsRoute(L, g', p)
  {
  }

  /** A set that holds the exit and is closed under stepping to passable
      neighbours contains the end of every route. */
  lemma {:induction false} ClosedSetHoldsRoutes(L: Layout, g: GridView, S: set<Cell>, p: seq<Cell>)
    requires L.exit in S && IsRoute(L, g, p)
    requires forall c, i | c in S && 0 <= i < 4 && Passable(L, g, Neighbour(c, i)) :: Neighbour(c, i) in S
    ensures p[|p| - 1] in S
    decreases |p|
  {
    if |p| > 1 {
      var q := p[..|p| - 1];
      assert IsRoute(L, g, q);
      ClosedSetHoldsRoutes(L, g, S, q);
      var i := AdjacentIsNeighbour(p[|p| - 2], p[|p| - 1]);
    }
  }

  /** Bookkeeping shared by both breadth-first searches: the discovered
      cells are board cells, split into the expanded ones and a queue of
      distinct unexpanded ones. */
  ghost predicate Frontier(L: Layout, done: set<Cell>, queue: seq<Cell>, seen: set<Cell>) {
    (forall c :: c in seen <==> c in done || c in queue)
    && (forall c | c in seen :: InBounds(L, c))
    && (forall k | 0 <= k < |queue| :: queue[k] !in done)
    && (forall i, j | 0 <= i < j < |queue| :: queue[i] != queue[j])
  }

  /** Queueing a new board cell keeps the split. */
  lemma FrontierPush(L: Layout, done: set<Cell>, queue: seq<Cell>, seen: set<Cell>, n: Cell)
    requires Frontier(L, done, queue, seen) && n !in seen && InBounds(L, n)
    ensures Frontier(L, done, queue + [n], seen + {n})
  {
    var queue' := queue + [n];
    assert forall k | 0 <= k < |queue| :: queue'[k] == queue[k];
    assert forall c :: c in queue' <==> c in queue || c == n;
  }

  /** Expanding the head of the queue keeps the split. */
  lemma FrontierPop(L: Layout, done: set<Cell>, queue: seq<Cell>, seen: set<Cell>)
    requires Frontier(L, done, queue, seen) && |queue| > 0
    ensures queue[0] !in done && queue[0] in seen
    ensures Frontier(L, done + {queue[0]}, queue[1..], seen)
  {
    var h := queue[0];
    var queue' := queue[1..];
    assert forall k | 0 <= k < |queue'| :: queue'[k] == queue[k + 1] && queue'[k] != h;
    assert forall c :: c in queue <==> c == h || c in queue';
  }

  /** Every route spans at least the Manhattan distance from the exit. */
  lemma {:induction false} RouteAtLeastManhattan(L: Layout, g: GridView, p: seq<Cell>)
    requires IsRoute(L, g, p)
    ensures |p| - 1 >= Abs(p[|p| - 1].x - L.exit.x) + Abs(p[|p| - 1].y - L.exit.y)
    decreases |p|
  {
    if |p| > 1 {
      var q := p[..|p| - 1];
      assert IsRoute(L, g, q);
      RouteAtLeastManhattan(L, g, q);
    }
  }
}
