/** The direction rule of the flow field, stated on values: which neighbour a
    cell points at, the world-space heading that results, how a heading is
    turned back into a grid step, and the invariant the computed integration
    and direction fields keep together. */
module Steering {
  import opened Cells
  import opened Routes

  type DirField = seq<seq<Vec>>

  predicate DirShape(L: Layout, V: DirField) {
    |V| == L.cols && forall x | 0 <= x < |V| :: |V[x]| == L.rows
  }

  /** The stored heading of a cell, zero off the table. */
  function DirAt(V: DirField, c: Cell): Vec {
    if 0 <= c.x < |V| && 0 <= c.y < |V[c.x]| then V[c.x][c.y] else Zero
  }

  /** The grid step a heading denotes: world y points up while the row index
      grows downwards, so the row moves against the heading's y. */
  function Step(c: Cell, v: Vec): Cell {
    Cell(c.x + v.x, c.y - v.y)
  }

  /** The normalised world-space vector from the centre of `c` to the centre
      of an adjacent cell `b`: the centres lie one cell size apart along one
      axis, so the unit vector has integer components. */
  function Heading(c: Cell, b: Cell): (v: Vec)
    requires Adjacent(c, b)
    ensures v != Zero && Step(c, v) == b
    ensures Abs(v.x) + Abs(v.y) == 1
  {
    Vec(b.x - c.x, c.y - b.y)
  }

  /** The neighbour scan from index `i` on, holding the current best cell and
      its distance: a neighbour replaces the best only when it is on the
      board and strictly nearer, so ties keep the earlier candidate. */
  function Scan(L: Layout, D: DistField, c: Cell, i: nat, best: Cell, bestDist: int): (r: Cell)
    requires i <= 4 && DistAt(D, best) == bestDist
    ensures r == best || (Adjacent(c, r) && InBounds(L, r) && DistAt(D, r) < bestDist)
    decreases 4 - i
  {
    if i == 4 then best
    else
      var n := Neighbour(c, i);
      if InBounds(L, n) && DistAt(D, n) < bestDist then Scan(L, D, c, i + 1, n, DistAt(D, n))
      else Scan(L, D, c, i + 1, best, bestDist)
  }

  /** The scan ends at a board neighbour no farther than any other board
      neighbour it passed, and it keeps its starting cell exactly when no
      such neighbour is strictly nearer. */
  lemma {:induction false} ScanMinimal(L: Layout, D: DistField, c: Cell, i: nat, best: Cell, bestDist: int)
    requires i <= 4 && DistAt(D, best) == bestDist
    ensures DistAt(D, Scan(L, D, c, i, best, bestDist)) <= bestDist
    ensures forall j | i <= j < 4 && InBounds(L, Neighbour(c, j)) ::
      DistAt(D, Scan(L, D, c, i, best, bestDist)) <= DistAt(D, Neighbour(c, j))
    ensures Scan(L, D, c, i, best, bestDist) == best <==>
      forall j | i <= j < 4 && InBounds(L, Neighbour(c, j)) :: bestDist <= DistAt(D, Neighbour(c, j))
    decreases 4 - i
  {
    if i < 4 {
      var n := Neighbour(c, i);
      if InBounds(L, n) && DistAt(D, n) < bestDist {
        ScanMinimal(L, D, c, i + 1, n, DistAt(D, n));
      } else {
        ScanMinimal(L, D, c, i + 1, best, bestDist);
      }
    }
  }

  /** A scan that moves off its starting cell ends strictly nearer than it. */
  lemma {:induction false} ScanMovesNearer(L: Layout, D: DistField, c: Cell, i: nat, best: Cell, bestDist: int)
    requires i <= 4 && DistAt(D, best) == bestDist
    ensures Scan(L, D, c, i, best, bestDist) != best ==> DistAt(D, Scan(L, D, c, i, best, bestDist)) < bestDist
    decreases 4 - i
  {
    if i < 4 {
      var n := Neighbour(c, i);
      if InBounds(L, n) && DistAt(D, n) < bestDist {
        ScanMovesNearer(L, D, c, i + 1, n, DistAt(D, n));
      } else {
        ScanMovesNearer(L, D, c, i + 1, best, bestDist);
      }
    }
  }

  /** The scan's result `r` is neighbour k, on the board, and strictly
      nearer than every board neighbour scanned before it from index i. */
  ghost predicate EarliestAt(L: Layout, D: DistField, c: Cell, i: nat, k: nat, r: Cell) {
    i <= k < 4 && r == Neighbour(c, k) && InBounds(L, r)
    && forall j | i <= j < k && InBounds(L, Neighbour(c, j)) :: DistAt(D, r) < DistAt(D, Neighbour(c, j))
  }

  /** One step back: a result strictly nearer than neighbour i, when that
      neighbour is on the board, is also earliest from index i. */
  lemma EarliestStep(L: Layout, D: DistField, c: Cell, i: nat, k: nat, r: Cell)
    requires EarliestAt(L, D, c, i + 1, k, r)
    requires InBounds(L, Neighbour(c, i)) ==> DistAt(D, r) < DistAt(D, Neighbour(c, i))
    ensures EarliestAt(L, D, c, i, k, r)
  {
  }

  /** Ties keep the earlier neighbour: when the scan moves off its starting
      cell, it ends at a neighbour strictly nearer than every board
      neighbour that comes before it in the order (+x, -x, +y, -y). */
  lemma {:induction false} ScanKeepsEarliest(L: Layout, D: DistField, c: Cell, i: nat, best: Cell, bestDist: int)
    requires i <= 4 && DistAt(D, best) == bestDist
    ensures Scan(L, D, c, i, best, bestDist) != best ==>
      exists k :: EarliestAt(L, D, c, i, k, Scan(L, D, c, i, best, bestDist))
    decreases 4 - i
  {
    if i < 4 {
      var n := Neighbour(c, i);
      var r := Scan(L, D, c, i, best, bestDist);
      if InBounds(L, n) && DistAt(D, n) < bestDist {
        ScanKeepsEarliest(L, D, c, i + 1, n, DistAt(D, n));
        assert r == Scan(L, D, c, i + 1, n, DistAt(D, n));
        if r == n {
          assert EarliestAt(L, D, c, i, i, r);
        } else {
          ScanMovesNearer(L, D, c, i + 1, n, DistAt(D, n));
          var k :| EarliestAt(L, D, c, i + 1, k, r);
          EarliestStep(L, D, c, i, k, r);
        }
      } else {
        ScanKeepsEarliest(L, D, c, i + 1, best, bestDist);
        assert r == Scan(L, D, c, i + 1, best, bestDist);
        if r != best {
          ScanMovesNearer(L, D, c, i + 1, best, bestDist);
          var k :| EarliestAt(L, D, c, i + 1, k, r);
          EarliestStep(L, D, c, i, k, r);
        }
      }
    }
  }

  /** The neighbour a cell points at, or the cell itself when no neighbour on
      the board is strictly nearer. */
  function BestNeighbour(L: Layout, D: DistField, c: Cell): Cell {
    Scan(L, D, c, 0, c, DistAt(D, c))
  }

  /** The heading stored for a cell: zero off the board, on a tower, on an
      unreachable cell and on a local minimum; otherwise the unit heading
      towards the best neighbour. */
  function Direction(L: Layout, g: GridView, D: DistField, c: Cell): Vec {
    if !InBounds(L, c) || StateAt(L, g, c) == Tower || DistAt(D, c) == Unreachable then Zero
    else
      var b := BestNeighbour(L, D, c);
      if b == c then Zero else Heading(c, b)
  }

  /** What the two computed fields promise together, whatever the grid has
      become since: the exit is at 0, every finite entry is below the number
      of cells, every finite cell other than the exit has a heading, and a
      heading is a step onto the board that lowers the distance by one. */
  ghost predicate Coherent(L: Layout, D: DistField, V: DirField) {
    IntField(L, D) && DirShape(L, V)
    && DistAt(D, L.exit) == 0
    && (forall c | InBounds(L, c) && DistAt(D, c) != Unreachable :: DistAt(D, c) < L.cols * L.rows)
    && (forall c | InBounds(L, c) && DistAt(D, c) != Unreachable && c != L.exit :: DirAt(V, c) != Zero)
    && (forall c | InBounds(L, c) && DirAt(V, c) != Zero ::
          DistAt(D, c) != Unreachable && InBounds(L, Step(c, DirAt(V, c)))
          && Adjacent(c, Step(c, DirAt(V, c)))
          && DistAt(D, Step(c, DirAt(V, c))) == DistAt(D, c) - 1)
  }

  /** On a breadth-first field, the best neighbour of a finite cell other
      than the exit is an adjacent board cell exactly one hop nearer. */
  lemma BestNeighbourDescends(L: Layout, g: GridView, D: DistField, c: Cell)
    requires ValidLayout(L) && LocallyConsistent(L, g, D)
    requires InBounds(L, c) && DistAt(D, c) != Unreachable && c != L.exit
    ensures var b := BestNeighbour(L, D, c);
      b != c && Adjacent(c, b) && InBounds(L, b) && DistAt(D, b) == DistAt(D, c) - 1
  {
    assert Descending(L, g, D);
    assert HasDescent(L, D, c);
    var n :| Adjacent(c, n) && InBounds(L, n) && DistAt(D, n) == DistAt(D, c) - 1;
    var i := AdjacentIsNeighbour(c, n);
    var b := BestNeighbour(L, D, c);
    ScanMinimal(L, D, c, 0, c, DistAt(D, c));
    assert DistAt(D, b) <= DistAt(D, n);
    BestIsNotFarther(L, g, D, c, b);
  }

  /** A finite board neighbour is at most one hop nearer than a passable
      cell next to it. */
  lemma BestIsNotFarther(L: Layout, g: GridView, D: DistField, c: Cell, b: Cell)
    requires LocallyConsistent(L, g, D) && Passable(L, g, c)
    requires Adjacent(c, b) && InBounds(L, b) && DistAt(D, b) < DistAt(D, c) <= Unreachable
    ensures DistAt(D, c) <= DistAt(D, b) + 1
  {
    var k := AdjacentIsNeighbour(b, c);
    assert Closed(L, g, D);
  }

  /** On a breadth-first field, a finite cell other than the exit points one
      hop down the field, onto an adjacent board cell. */
  lemma DirectionDescends(L: Layout, g: GridView, D: DistField, c: Cell)
    requires ValidLayout(L) && LocallyConsistent(L, g, D)
    requires InBounds(L, c) && DistAt(D, c) != Unreachable && c != L.exit
    ensures Direction(L, g, D, c) != Zero
    ensures InBounds(L, Step(c, Direction(L, g, D, c))) && Adjacent(c, Step(c, Direction(L, g, D, c)))
    ensures DistAt(D, Step(c, Direction(L, g, D, c))) == DistAt(D, c) - 1
  {
    assert Descending(L, g, D);
    assert Passable(L, g, c);
    BestNeighbourDescends(L, g, D, c);
  }

  /** The exit, unreachable cells and towers get no heading. */
  lemma DirectionStops(L: Layout, g: GridView, D: DistField, c: Cell)
    requires ValidLayout(L) && LocallyConsistent(L, g, D)
    requires c == L.exit || DistAt(D, c) == Unreachable || StateAt(L, g, c) == Tower
    ensures Direction(L, g, D, c) == Zero
  {
  }

  /** A breadth-first field with bounded entries and the direction rule
      applied to every cell are coherent. */
  lemma FieldsCoherent(L: Layout, g: GridView, D: DistField, V: DirField)
    requires ValidLayout(L) && LocallyConsistent(L, g, D) && DirShape(L, V)
    requires forall c | InBounds(L, c) && DistAt(D, c) != Unreachable :: DistAt(D, c) < L.cols * L.rows
    requires forall c | InBounds(L, c) :: DirAt(V, c) == Direction(L, g, D, c)
    ensures Coherent(L, D, V)
  {
    forall c | InBounds(L, c) && DistAt(D, c) != Unreachable && c != L.exit
      ensures DirAt(V, c) != Zero
    {
      DirectionDescends(L, g, D, c);
    }
    forall c | InBounds(L, c) && DirAt(V, c) != Zero
      ensures DistAt(D, c) != Unreachable && InBounds(L, Step(c, DirAt(V, c)))
      ensures Adjacent(c, Step(c, DirAt(V, c)))
      ensures DistAt(D, Step(c, DirAt(V, c))) == DistAt(D, c) - 1
    {
      if c == L.exit || DistAt(D, c) == Unreachable || StateAt(L, g, c) == Tower {
        DirectionStops(L, g, D, c);
      } else {
        DirectionDescends(L, g, D, c);
      }
    }
  }

  /** A walk that follows the headings from `start`: it starts there, each
      cell is the step of the one before, and it stops at the exit or where
      the heading is zero. */
  predicate Follows(L: Layout, V: DirField, start: Cell, path: seq<Cell>) {
    |path| > 0 && path[0] == start
    && forall k | 0 <= k < |path| - 1 ::
         path[k] != L.exit && DirAt(V, path[k]) != Zero && path[k + 1] == Step(path[k], DirAt(V, path[k]))
  }

  /** A walk that has not stopped at its last cell takes one more step
      along that cell's heading. */
  lemma FollowsExtend(L: Layout, V: DirField, start: Cell, path: seq<Cell>)
    requires Follows(L, V, start, path)
    requires path[|path| - 1] != L.exit && DirAt(V, path[|path| - 1]) != Zero
    ensures Follows(L, V, start, path + [Step(path[|path| - 1], DirAt(V, path[|path| - 1]))])
  {
    var q := path + [Step(path[|path| - 1], DirAt(V, path[|path| - 1]))];
    assert forall k | 0 <= k < |path| :: q[k] == path[k];
  }

  function Reverse(s: seq<Cell>): (r: seq<Cell>)
    ensures |r| == |s| && forall k | 0 <= k < |s| :: r[k] == s[|s| - 1 - k]
  {
    if s == [] then [] else Reverse(s[1..]) + [s[0]]
  }

  /** One heading of a coherent pair of fields, taken apart. */
  lemma CoherentStep(L: Layout, D: DistField, V: DirField, c: Cell)
    requires Coherent(L, D, V) && InBounds(L, c) && DirAt(V, c) != Zero
    ensures DistAt(D, c) != Unreachable && InBounds(L, Step(c, DirAt(V, c)))
    ensures Adjacent(c, Step(c, DirAt(V, c)))
    ensures DistAt(D, Step(c, DirAt(V, c))) == DistAt(D, c) - 1
  {
  }

  /** A walk of two or more cells without its last cell is still a walk. */
  lemma FollowsPrefix(L: Layout, V: DirField, start: Cell, path: seq<Cell>)
    requires Follows(L, V, start, path) && |path| > 1
    ensures Follows(L, V, start, path[..|path| - 1])
  {
    var q := path[..|path| - 1];
    forall k | 0 <= k < |q| - 1
      ensures q[k] != L.exit && DirAt(V, q[k]) != Zero && q[k + 1] == Step(q[k], DirAt(V, q[k]))
    {
      assert q[k] == path[k] && q[k + 1] == path[k + 1];
    }
  }

  /** On coherent fields, following the headings from a finite cell walks
      down the field one hop at a time. */
  lemma {:induction false} FollowDescends(L: Layout, D: DistField, V: DirField, start: Cell, path: seq<Cell>)
    requires Coherent(L, D, V) && Follows(L, V, start, path)
    requires InBounds(L, start) && DistAt(D, start) != Unreachable
    ensures forall k | 0 <= k < |path| :: InBounds(L, path[k]) && DistAt(D, path[k]) == DistAt(D, start) - k
    ensures forall k | 0 <= k < |path| - 1 :: Adjacent(path[k], path[k + 1])
    decreases |path|
  {
    if |path| > 1 {
      var n := |path| - 1;
      var q := path[..n];
      FollowsPrefix(L, V, start, path);
      FollowDescends(L, D, V, start, q);
      var prev := path[n - 1];
      assert prev == q[n - 1];
      CoherentStep(L, D, V, prev);
      assert path[n] == Step(prev, DirAt(V, prev));
      forall k | 0 <= k < |path|
        ensures InBounds(L, path[k]) && DistAt(D, path[k]) == DistAt(D, start) - k
      {
        if k < n {
          assert path[k] == q[k];
        }
      }
      forall k | 0 <= k < n
        ensures Adjacent(path[k], path[k + 1])
      {
        if k < n - 1 {
          assert path[k] == q[k] && path[k + 1] == q[k + 1];
        }
      }
    }
  }

  /** On coherent fields, a walk that has stopped (at the exit or at a zero
      heading) is the start alone when the start is unreachable, and
      otherwise ends at the exit after exactly the start's hop count. */
  lemma WalkStops(L: Layout, D: DistField, V: DirField, start: Cell, path: seq<Cell>)
    requires Coherent(L, D, V) && InBounds(L, start) && Follows(L, V, start, path)
    requires path[|path| - 1] == L.exit || DirAt(V, path[|path| - 1]) == Zero
    ensures |path| <= L.cols * L.rows
    ensures DistAt(D, start) == Unreachable ==> path == [start]
    ensures DistAt(D, start) != Unreachable ==>
      |path| == DistAt(D, start) + 1 && path[|path| - 1] == L.exit
      && (forall k | 0 <= k < |path| :: InBounds(L, path[k]) && DistAt(D, path[k]) == DistAt(D, start) - k)
      && (forall k | 0 <= k < |path| - 1 :: Adjacent(path[k], path[k + 1]))
  {
    if DistAt(D, start) == Unreachable {
      assert DirAt(V, start) == Zero;
    } else {
      FollowDescends(L, D, V, start, path);
      var last := path[|path| - 1];
      assert InBounds(L, last) && DistAt(D, last) == DistAt(D, start) - (|path| - 1);
    }
  }

  /** Read backwards, a walk down a descending field from `start` to the
      exit is a route from the exit to `start`. */
  lemma WalkIsRoute(L: Layout, g: GridView, D: DistField, start: Cell, path: seq<Cell>)
    requires LocallyConsistent(L, g, D) && DistAt(D, start) != Unreachable
    requires |path| > 0 && |path| == DistAt(D, start) + 1 && path[0] == start && path[|path| - 1] == L.exit
    requires forall k | 0 <= k < |path| :: InBounds(L, path[k]) && DistAt(D, path[k]) == DistAt(D, start) - k
    requires forall k | 0 <= k < |path| - 1 :: Adjacent(path[k], path[k + 1])
    ensures RouteTo(L, g, Reverse(path), start)
  {
    var r := Reverse(path);
    forall k | 0 < k < |r|
      ensures Passable(L, g, r[k]) && Adjacent(r[k - 1], r[k])
    {
      var j := |path| - 1 - k;
      assert r[k] == path[j] && r[k - 1] == path[j + 1];
      WalkCellPassable(L, g, D, start, path, j);
      AdjacentSymmetric(path[j], path[j + 1]);
    }
  }

  /** Every cell of such a walk but the last is finite and not the exit, so
      a descending field makes it passable. */
  lemma WalkCellPassable(L: Layout, g: GridView, D: DistField, start: Cell, path: seq<Cell>, j: int)
    requires LocallyConsistent(L, g, D) && DistAt(D, start) != Unreachable
    requires |path| == DistAt(D, start) + 1 && 0 <= j < |path| - 1
    requires forall k | 0 <= k < |path| :: InBounds(L, path[k]) && DistAt(D, path[k]) == DistAt(D, start) - k
    ensures Passable(L, g, path[j])
  {
    assert 0 < DistAt(D, path[j]) <= DistAt(D, start) < Unreachable;
    assert path[j] != L.exit;
    assert Descending(L, g, D);
  }

  /** On the shortest field, that route is a shortest one: no route from the
      exit to `start` is shorter. */
  lemma WalkIsShortestRoute(L: Layout, g: GridView, D: DistField, start: Cell, path: seq<Cell>)
    requires ValidLayout(L) && IsShortest(L, g, D) && InBounds(L, start)
    requires DistAt(D, start) != Unreachable
    requires |path| == DistAt(D, start) + 1 && path[0] == start && path[|path| - 1] == L.exit
    requires forall k | 0 <= k < |path| :: InBounds(L, path[k]) && DistAt(D, path[k]) == DistAt(D, start) - k
    requires forall k | 0 <= k < |path| - 1 :: Adjacent(path[k], path[k + 1])
    ensures RouteTo(L, g, Reverse(path), start)
    ensures forall p | RouteTo(L, g, p, start) :: |path| <= |p|
  {
    ShortestIsLocal(L, g, D);
    WalkIsRoute(L, g, D, start, path);
  }

  /** On coherent fields that hold the shortest hop counts, a stopped walk
      from a reachable start, read backwards, is a shortest route to it. */
  lemma StoppedWalkIsShortest(L: Layout, g: GridView, D: DistField, V: DirField, start: Cell, path: seq<Cell>)
    requires ValidLayout(L) && IsShortest(L, g, D) && Coherent(L, D, V)
    requires InBounds(L, start) && Reachable(L, g, start) && Follows(L, V, start, path)
    requires path[|path| - 1] == L.exit || DirAt(V, path[|path| - 1]) == Zero
    ensures RouteTo(L, g, Reverse(path), start)
    ensures forall p | RouteTo(L, g, p, start) :: |path| <= |p|
  {
    var p0 :| RouteTo(L, g, p0, start);
    assert DistAt(D, start) != Unreachable;
    WalkStops(L, D, V, start, path);
    WalkIsShortestRoute(L, g, D, start, path);
  }
}
