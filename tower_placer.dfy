/** Tower placement and selling: a two-tap select/confirm machine over the
    grid, gated by the placement validator and the purse. */
module Placement {
  import opened Basics
  import opened Cells
  import opened Routes
  import opened GridStore
  import opened Validation
  import opened Economy

  /** The parts of a tower asset placement uses: its price and whether it has
      a prefab to instantiate. */
  datatype TowerData = TowerData(cost: nat, hasPrefab: bool)

  /** What a tap did, standing for the notifications it raised. */
  datatype TapOutcome =
    | Ignored                     // a menu is open or the camera is dragging
    | Cleared                     // selection cleared
    | PlaceAttempt(placed: bool)  // the selected cell was tapped again
    | Selected(cell: Cell)        // a buildable cell was selected
    | TowerTapped(cell: Cell)     // a tower was tapped; selection cleared

  /** The grid and purse notifications a placement or a sale raises, in the
      order they are raised. */
  datatype Notice =
    | GoldChanged(gold: int)       // the purse's new balance
    | CellChanged(change: CellChange)

  /** The decision a tap on `cell` takes for a given selection and grid. */
  function Decide(L: Layout, g: GridView, hasSelection: bool, selected: Cell, cell: Cell): (o: TapOutcome)
    requires WellFormed(L, g)
    ensures o.Ignored? == false
    ensures cell.x == InvalidCell ==> o == Cleared
    ensures o.PlaceAttempt? <==> cell.x != InvalidCell && hasSelection && cell == selected
    ensures o.Selected? ==> o.cell == cell && InBounds(L, cell) && StateAt(L, g, cell) == Empty
    ensures o.TowerTapped? ==> o.cell == cell && InBounds(L, cell) && StateAt(L, g, cell) == Tower
    ensures cell.x != InvalidCell && !(hasSelection && cell == selected) ==>
      (InBounds(L, cell) && StateAt(L, g, cell) == Empty ==> o == Selected(cell))
      && (InBounds(L, cell) && StateAt(L, g, cell) == Tower ==> o == TowerTapped(cell))
      && (!InBounds(L, cell) || StateAt(L, g, cell) == Blocked ==> o == Cleared)
  {
    if cell.x == InvalidCell then Cleared
    else if hasSelection && cell == selected then PlaceAttempt(false)
    else if InBounds(L, cell) && StateAt(L, g, cell) == Empty then Selected(cell)
    else if StateAt(L, g, cell) == Tower then TowerTapped(cell)
    else Cleared
  }

  /** A tap on a buildable cell selects it, and a second tap on the same cell
      asks for placement. */
  lemma SecondTapPlaces(L: Layout, g: GridView, hasSelection: bool, selected: Cell, cell: Cell)
    requires WellFormed(L, g) && InBounds(L, cell) && StateAt(L, g, cell) == Empty
    requires !(hasSelection && cell == selected)
    ensures Decide(L, g, hasSelection, selected, cell) == Selected(cell)
    ensures Decide(L, g, true, cell, cell).PlaceAttempt?
  {
  }

  /** The gold returned on sale: half the price, rounded down. */
  function Refund(cost: nat): (r: nat)
    ensures 2 * r <= cost <= 2 * r + 1
  {
    cost / 2
  }

  /** The validator, the asset and the purse all allow placing on `cell`,
      checked in that order. */
  ghost predicate Accepts(L: Layout, g: GridView, cell: Cell, data: Option<TowerData>, gold: int)
    requires WellFormed(L, g)
  {
    PlacementKeepsRoute(L, g, cell) && data.Some? && data.value.hasPrefab && gold >= data.value.cost
  }

  /** The placed-tower table after a commit: the cell is recorded when the
      instantiated object carries tower data. */
  function Record(placed: map<Cell, TowerData>, cell: Cell, spawned: Option<TowerData>): (m: map<Cell, TowerData>)
    ensures spawned.Some? ==> m == placed[cell := spawned.value]
    ensures spawned.None? ==> m == placed
  {
    if spawned.Some? then placed[cell := spawned.value] else placed
  }

  /** Every recorded tower stands on a tower cell of the board. */
  ghost predicate OnTowers(L: Layout, g: GridView, towers: map<Cell, TowerData>) {
    forall c | c in towers :: InBounds(L, c) && StateAt(L, g, c) == Tower
  }

  /** Committing a tower on a board cell keeps the records on tower cells. */
  lemma CommitKeepsRecords(L: Layout, g: GridView, towers: map<Cell, TowerData>, cell: Cell, spawned: Option<TowerData>)
    requires WellFormed(L, g) && OnTowers(L, g, towers) && InBounds(L, cell)
    ensures OnTowers(L, Update(L, g, cell, Tower), Record(towers, cell, spawned))
  {
  }

  /** Selling a recorded tower keeps the remaining records on tower cells. */
  lemma SaleKeepsRecords(L: Layout, g: GridView, towers: map<Cell, TowerData>, cell: Cell)
    requires WellFormed(L, g) && OnTowers(L, g, towers)
    ensures OnTowers(L, Update(L, g, cell, Empty), towers - {cell})
  {
  }

  /** Freeing a cell never cuts a route. */
  lemma FreeingKeepsRoute(L: Layout, g: GridView, cell: Cell, c: Cell)
    requires WellFormed(L, g) && Reachable(L, g, c)
    ensures Reachable(L, Update(L, g, cell, Empty), c)
  {
    var g' := Update(L, g, cell, Empty);
    assert MoreTowers(L, g', g);
    MoreTowersFewerRoutes(L, g', g, c);
  }

  /** A committed placement keeps a route from the entry to the exit. */
  lemma CommitKeepsRoute(L: Layout, g: GridView, cell: Cell, data: Option<TowerData>, gold: int)
    requires WellFormed(L, g) && Accepts(L, g, cell, data, gold)
    ensures Reachable(L, Update(L, g, cell, Tower), L.entry)
  {
    assert Walled(L, g, cell) == Update(L, g, cell, Tower);
  }

  class TowerPlacer {
    const grid: GridManager
    const validator: PathValidator
    const resources: PlayerResources

    /** The tower the next placement builds; None when no asset is set. */
    var towerToPlace: Option<TowerData>
    var selectedCell: Cell
    var hasSelection: bool
    /** The tower object recorded on each cell, represented by its data. */
    var placedTowers: map<Cell, TowerData>

    /** The selection is a board cell or the sentinel, and every recorded
        tower stands on a tower cell. */
    ghost predicate Valid()
      reads this, grid, grid.cells, validator
    {
      grid.Valid() && validator.grid == grid && validator.Valid()
      && (hasSelection ==> InBounds(grid.layout, selectedCell))
      && (!hasSelection ==> selectedCell == NoCell)
      && OnTowers(grid.layout, grid.View(), placedTowers)
    }

    constructor (grid: GridManager, validator: PathValidator, resources: PlayerResources, towerToPlace: Option<TowerData>)
      requires grid.Valid() && validator.Valid() && validator.grid == grid
      ensures Valid()
      ensures this.grid == grid && this.validator == validator && this.resources == resources
      ensures this.towerToPlace == towerToPlace
      ensures !hasSelection && selectedCell == NoCell && placedTowers == map[]
    {
      this.grid := grid;
      this.validator := validator;
      this.resources := resources;
      this.towerToPlace := towerToPlace;
      selectedCell := NoCell;
      hasSelection := false;
      placedTowers := map[];
    }

    /** What PlaceTower leaves behind, against the state before it. */
    ghost predicate Placed(g0: GridView, gold0: int, towers0: map<Cell, TowerData>, hasSelection0: bool,
                           selected0: Cell, cell: Cell, spawned: Option<TowerData>, placed: bool,
                           notices: seq<Notice>)
      reads this, grid, grid.cells, resources
      requires grid.Valid() && WellFormed(grid.layout, g0)
    {
      (placed <==> Accepts(grid.layout, g0, cell, towerToPlace, gold0))
      && (placed ==>
            grid.View() == Update(grid.layout, g0, cell, Tower)
            && resources.gold == gold0 - towerToPlace.value.cost
            && placedTowers == Record(towers0, cell, spawned)
            && !hasSelection && selectedCell == NoCell
            && Reachable(grid.layout, grid.View(), grid.layout.entry)
            && notices == [GoldChanged(resources.gold), CellChanged(CellChange(cell, Tower))])
      && (!placed ==>
            grid.View() == g0 && resources.gold == gold0 && placedTowers == towers0
            && hasSelection == hasSelection0 && selectedCell == selected0 && notices == [])
    }

    /** OnTap: ignored while a menu is open or the camera drags; otherwise the
        tapped world point is mapped to a cell and the decision is carried out. */
    method OnTap(menuOpen: bool, dragging: bool, world: Point, spawned: Option<TowerData>)
      returns (outcome: TapOutcome, notices: seq<Notice>)
      requires Valid()
      modifies this, grid.cells, validator.visited, resources
      ensures Valid() && towerToPlace == old(towerToPlace) && resources.killCount == old(resources.killCount)
      ensures menuOpen || dragging ==> outcome == Ignored
      ensures !menuOpen && !dragging ==>
        var o := Decide(grid.layout, old(grid.View()), old(hasSelection), old(selectedCell), grid.WorldToCell(world));
        (o.PlaceAttempt? <==> outcome.PlaceAttempt?) && (!o.PlaceAttempt? ==> outcome == o)
      ensures outcome.Ignored? ==>
        grid.View() == old(grid.View()) && resources.gold == old(resources.gold) && placedTowers == old(placedTowers)
        && hasSelection == old(hasSelection) && selectedCell == old(selectedCell)
      ensures outcome.PlaceAttempt? ==>
        Placed(old(grid.View()), old(resources.gold), old(placedTowers), old(hasSelection), old(selectedCell),
               grid.WorldToCell(world), spawned, outcome.placed, notices)
      ensures !outcome.PlaceAttempt? ==> notices == []
      ensures outcome.Selected? ==>
        grid.View() == old(grid.View()) && resources.gold == old(resources.gold) && placedTowers == old(placedTowers)
        && hasSelection && selectedCell == outcome.cell
      ensures outcome.Cleared? || outcome.TowerTapped? ==>
        grid.View() == old(grid.View()) && resources.gold == old(resources.gold) && placedTowers == old(placedTowers)
        && !hasSelection && selectedCell == NoCell
    {
      notices := [];
      if menuOpen || dragging {
        return Ignored, [];
      }
      var cell := grid.WorldToCell(world);
      if cell.x == InvalidCell {
        ClearSelection();
        return Cleared, [];
      }
      if hasSelection && cell == selectedCell {
        var placed;
        placed, notices := PlaceTower(cell, spawned);
        outcome := PlaceAttempt(placed);
      } else if grid.IsBuildable(cell) {
        SelectCell(cell);
        outcome := Selected(cell);
      } else if grid.GetCellState(cell) == Tower {
        ClearSelection();
        outcome := TowerTapped(cell);
      } else {
        ClearSelection();
        outcome := Cleared;
      }
    }

    method SelectCell(cell: Cell)
      requires Valid() && InBounds(grid.layout, cell)
      modifies this
      ensures Valid() && hasSelection && selectedCell == cell
      ensures placedTowers == old(placedTowers) && towerToPlace == old(towerToPlace)
    {
      selectedCell := cell;
      hasSelection := true;
    }

    /** PlaceTower: the validator, then the asset, then the purse; only when
        all three agree is the cell turned into a tower, the tower recorded
        and the selection cleared. Gold is never spent on a placement that
        would cut the route. */
    method PlaceTower(cell: Cell, spawned: Option<TowerData>) returns (placed: bool, notices: seq<Notice>)
      requires Valid() && InBounds(grid.layout, cell)
      modifies this, grid.cells, validator.visited, resources
      ensures Valid() && towerToPlace == old(towerToPlace) && resources.killCount == old(resources.killCount)
      ensures Placed(old(grid.View()), old(resources.gold), old(placedTowers), old(hasSelection), old(selectedCell),
                     cell, spawned, placed, notices)
    {
      var ok := validator.IsPlacementValid(cell);
      if !ok {
        return false, [];
      }
      if towerToPlace.None? || !towerToPlace.value.hasPrefab {
        return false, [];
      }
      ghost var g0 := grid.View();
      var spent, goldChanged := resources.TrySpend(towerToPlace.value.cost);
      if !spent {
        return false, [];
      }
      CommitKeepsRoute(grid.layout, g0, cell, towerToPlace, old(resources.gold));
      var change := Commit(cell, spawned);
      return true, [GoldChanged(goldChanged.value), CellChanged(change)];
    }

    /** The commit step of PlaceTower: the cell becomes a tower, the tower is
        recorded and the selection cleared. */
    method Commit(cell: Cell, spawned: Option<TowerData>) returns (change: CellChange)
      requires Valid() && InBounds(grid.layout, cell)
      modifies this, grid.cells
      ensures Valid() && towerToPlace == old(towerToPlace)
      ensures change == CellChange(cell, Tower)
      ensures grid.View() == Update(grid.layout, old(grid.View()), cell, Tower)
      ensures placedTowers == Record(old(placedTowers), cell, spawned)
      ensures !hasSelection && selectedCell == NoCell
    {
      ghost var g0 := grid.View();
      placedTowers := Record(placedTowers, cell, spawned);
      hasSelection := false;
      selectedCell := NoCell;
      var event := grid.SetCellState(cell, Tower);
      change := event.value;
      CommitKeepsRecords(grid.layout, g0, old(placedTowers), cell, spawned);
    }

    method ClearSelection()
      requires Valid()
      modifies this
      ensures Valid() && !hasSelection && selectedCell == NoCell
      ensures placedTowers == old(placedTowers) && towerToPlace == old(towerToPlace)
    {
      hasSelection := false;
      selectedCell := NoCell;
    }

    method SetTowerData(data: Option<TowerData>)
      requires Valid()
      modifies this
      ensures Valid() && towerToPlace == data
      ensures hasSelection == old(hasSelection) && selectedCell == old(selectedCell)
      ensures placedTowers == old(placedTowers)
    {
      towerToPlace := data;
    }

    /** PlaceCurrentSelection: nothing without a selection, otherwise a
        placement attempt on the selected cell. */
    method PlaceCurrentSelection(spawned: Option<TowerData>) returns (attempted: bool, placed: bool, notices: seq<Notice>)
      requires Valid()
      modifies this, grid.cells, validator.visited, resources
      ensures Valid() && towerToPlace == old(towerToPlace) && resources.killCount == old(resources.killCount)
      ensures attempted == old(hasSelection)
      ensures !attempted ==> !placed && grid.View() == old(grid.View()) && resources.gold == old(resources.gold)
                             && placedTowers == old(placedTowers) && !hasSelection && selectedCell == NoCell
                             && notices == []
      ensures attempted ==> Placed(old(grid.View()), old(resources.gold), old(placedTowers), old(hasSelection),
                                   old(selectedCell), old(selectedCell), spawned, placed, notices)
    {
      if !hasSelection {
        return false, false, [];
      }
      placed, notices := PlaceTower(selectedCell, spawned);
      attempted := true;
    }

    method CancelSelection()
      requires Valid()
      modifies this
      ensures Valid() && !hasSelection && selectedCell == NoCell
      ensures placedTowers == old(placedTowers) && towerToPlace == old(towerToPlace)
    {
      ClearSelection();
    }

    /** GetTowerAt: the recorded tower, None for a cell without one. */
    function GetTowerAt(cell: Cell): (t: Option<TowerData>)
      reads this
      ensures t.Some? <==> cell in placedTowers
      ensures t.Some? ==> t.value == placedTowers[cell]
    {
      if cell in placedTowers then Some(placedTowers[cell]) else None
    }

    /** SellTower: nothing for a cell without a recorded tower; otherwise the
        record is dropped, the cell emptied and half the price refunded.
        Selling never cuts a route. */
    method SellTower(cell: Cell) returns (notices: seq<Notice>)
      requires Valid()
      modifies this, grid.cells, resources
      ensures Valid() && towerToPlace == old(towerToPlace) && resources.killCount == old(resources.killCount)
      ensures hasSelection == old(hasSelection) && selectedCell == old(selectedCell)
      ensures cell !in old(placedTowers) ==>
        grid.View() == old(grid.View()) && resources.gold == old(resources.gold) && placedTowers == old(placedTowers)
        && notices == []
      ensures cell in old(placedTowers) ==>
        placedTowers == old(placedTowers) - {cell}
        && grid.View() == Update(grid.layout, old(grid.View()), cell, Empty)
        && resources.gold == old(resources.gold) + Refund(old(placedTowers)[cell].cost)
        && notices == [CellChanged(CellChange(cell, Empty)), GoldChanged(resources.gold)]
      ensures Reachable(grid.layout, old(grid.View()), grid.layout.entry) ==>
        Reachable(grid.layout, grid.View(), grid.layout.entry)
    {
      if cell !in placedTowers {
        return [];
      }
      var refund := Refund(placedTowers[cell].cost);
      var change := Release(cell);
      var goldChanged := resources.AddGold(refund);
      notices := [CellChanged(change.value), GoldChanged(goldChanged)];
    }

    /** The grid and record step of SellTower: the record is dropped and the
        cell emptied. */
    method Release(cell: Cell) returns (change: Option<CellChange>)
      requires Valid()
      modifies this, grid.cells
      ensures Valid() && towerToPlace == old(towerToPlace)
      ensures change == if InBounds(grid.layout, cell) then Some(CellChange(cell, Empty)) else None
      ensures cell in old(placedTowers) ==> change == Some(CellChange(cell, Empty))
      ensures hasSelection == old(hasSelection) && selectedCell == old(selectedCell)
      ensures placedTowers == old(placedTowers) - {cell}
      ensures grid.View() == Update(grid.layout, old(grid.View()), cell, Empty)
      ensures Reachable(grid.layout, old(grid.View()), grid.layout.entry) ==>
        Reachable(grid.layout, grid.View(), grid.layout.entry)
    {
      if Reachable(grid.layout, grid.View(), grid.layout.entry) {
        FreeingKeepsRoute(grid.layout, grid.View(), cell, grid.layout.entry);
      }
      SaleKeepsRecords(grid.layout, grid.View(), placedTowers, cell);
      placedTowers := placedTowers - {cell};
      change := grid.SetCellState(cell, Empty);
    }
  }
}
