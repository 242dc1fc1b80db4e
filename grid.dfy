/** The drag-and-drop grid: nine cells holding item ids, moving an item to
    a cell, and adding an item from the text box. Cells are the arrays the
    component keeps in its state; `moveItem` builds fresh ones while
    `addItem` pushes into the existing first cell in place. */
module Grid {
  import opened Util

  datatype Item = Item(id: int, text: string)

  const InitialItems: seq<Item> := [Item(1, "Item 1"), Item(2, "Item 2"), Item(3, "Item 3")]
  const Rows: nat := 3
  const Cols: nat := 3

  /** `cell.filter(id => id !== itemId)`. */
  function Without(ids: seq<int>, item: int): (r: seq<int>)
    ensures item !in r
    ensures forall i :: 0 <= i < |r| ==> r[i] in ids
  {
    Filter(ids, (x: int) => x != item)
  }

  /** Filtering removes every copy of the item and keeps every other id as
      often as it was there. */
  lemma {:induction false} WithoutCounts(ids: seq<int>, item: int, y: int)
    ensures multiset(Without(ids, item))[y] == if y == item then 0 else multiset(ids)[y]
    decreases |ids|
  {
    if ids != [] {
      WithoutCounts(ids[1..], item, y);
      assert ids == [ids[0]] + ids[1..];
      assert Without(ids, item) == (if ids[0] != item then [ids[0]] else []) + Without(ids[1..], item);
    }
  }

  lemma {:induction false} WithoutAbsent(ids: seq<int>, item: int)
    requires item !in ids
    ensures Without(ids, item) == ids
    decreases |ids|
  {
    if ids != [] {
      assert ids[0] != item && item !in ids[1..];
      WithoutAbsent(ids[1..], item);
      assert ids == [ids[0]] + ids[1..];
    }
  }

  /** `grid.findIndex(cell => cell.includes(itemId))`: the first cell
      holding the item, or -1. */
  function SourceCell(grid: seq<seq<int>>, item: int): (i: int)
    ensures -1 <= i < |grid|
    ensures i >= 0 ==> item in grid[i] && forall j :: 0 <= j < i ==> item !in grid[j]
    ensures i == -1 <==> forall j :: 0 <= j < |grid| ==> item !in grid[j]
  {
    if grid == [] then -1
    else if item in grid[0] then 0
    else
      var k := SourceCell(grid[1..], item);
      if k == -1 then -1 else k + 1
  }

  /** What `moveItem` makes of the cells' contents: nothing when the first
      cell holding the item is the target; otherwise the item filtered out
      of every cell and pushed onto the target. `None` when the target cell
      does not exist and the push throws. */
  function Moved(grid: seq<seq<int>>, item: int, target: int): (r: Option<seq<seq<int>>>)
    ensures SourceCell(grid, item) == target ==> r == Some(grid)
    ensures r.Some? <==> SourceCell(grid, item) == target || 0 <= target < |grid|
    ensures r.Some? ==> |r.value| == |grid|
  {
    if SourceCell(grid, item) == target then Some(grid)
    else if !(0 <= target < |grid|) then None
    else Some(seq(|grid|, j requires 0 <= j < |grid| =>
                if j == target then Without(grid[j], item) + [item] else Without(grid[j], item)))
  }

  /** After a real move the item is in the grid exactly once, last in the
      target cell, and every other id keeps its count in every cell. */
  lemma MovedOnce(grid: seq<seq<int>>, item: int, target: int)
    requires SourceCell(grid, item) != target && 0 <= target < |grid|
    ensures Moved(grid, item, target).Some?
    ensures var r := Moved(grid, item, target).value;
            r[target][|r[target]| - 1] == item &&
            forall j :: 0 <= j < |grid| ==> multiset(r[j])[item] == if j == target then 1 else 0
    ensures var r := Moved(grid, item, target).value;
            forall j, y :: 0 <= j < |grid| && y != item ==> multiset(r[j])[y] == multiset(grid[j])[y]
  {
    var r := Moved(grid, item, target).value;
    forall j, y | 0 <= j < |grid|
      ensures multiset(r[j])[y] == if y == item then (if j == target then 1 else 0) else multiset(grid[j])[y]
    {
      WithoutCounts(grid[j], item, y);
    }
  }

  /** An item in no cell (source -1) is still pushed onto the target, and
      nothing else changes. */
  lemma MoveAbsent(grid: seq<seq<int>>, item: int, target: int)
    requires SourceCell(grid, item) == -1 && 0 <= target < |grid|
    ensures Moved(grid, item, target) == Some(grid[target := grid[target] + [item]])
  {
    var r := Moved(grid, item, target).value;
    var g := grid[target := grid[target] + [item]];
    forall j | 0 <= j < |grid| ensures r[j] == g[j] {
      assert item !in grid[j];
      WithoutAbsent(grid[j], item);
      if j == target {
        assert r[j] == Without(grid[j], item) + [item];
      } else {
        assert r[j] == Without(grid[j], item) && g[j] == grid[j];
      }
    }
    assert |r| == |g|;
    assert r == g;
  }

  /** Every id in the grid is one of 1..n. */
  predicate KnownIn(grid: seq<seq<int>>, n: int) {
    forall j, k :: 0 <= j < |grid| && 0 <= k < |grid[j]| ==> 1 <= grid[j][k] <= n
  }

  /** Moving a known item keeps every id known. */
  lemma MovedKnown(grid: seq<seq<int>>, item: int, target: int, n: int)
    requires KnownIn(grid, n) && 1 <= item <= n && Moved(grid, item, target).Some?
    ensures KnownIn(Moved(grid, item, target).value, n)
  {
    var r := Moved(grid, item, target).value;
    if SourceCell(grid, item) != target {
      forall j, k | 0 <= j < |r| && 0 <= k < |r[j]| ensures 1 <= r[j][k] <= n {
        var w := Without(grid[j], item);
        if k < |w| {
          assert r[j][k] == w[k];
          assert w[k] in grid[j];
        }
      }
    }
  }

  /** The grid the move builds cell by cell is the one `Moved` describes,
      and it keeps known ids known. */
  lemma MovedIs(grid: seq<seq<int>>, item: int, target: int, after: seq<seq<int>>, n: int)
    requires SourceCell(grid, item) != target && 0 <= target < |grid|
    requires |after| == |grid|
    requires forall k :: 0 <= k < |grid| ==>
      after[k] == (if k == target then Without(grid[k], item) + [item] else Without(grid[k], item))
    ensures Moved(grid, item, target) == Some(after)
    ensures KnownIn(grid, n) && 1 <= item <= n ==> KnownIn(after, n)
  {
    var r := Moved(grid, item, target).value;
    assert forall k :: 0 <= k < |grid| ==> r[k] == after[k];
    assert r == after;
    if KnownIn(grid, n) && 1 <= item <= n {
      MovedKnown(grid, item, target, n);
    }
  }

  /** The ids the items list hands out, `items.length + 1` each time,
      are exactly 1, 2, 3, ... */
  predicate SequentialIds(items: seq<Item>) {
    forall k :: 0 <= k < |items| ==> items[k].id == k + 1
  }

  /** Pushing a known id onto the first cell keeps every id known. */
  lemma PushKnown(grid: seq<seq<int>>, id: int, n: int)
    requires |grid| > 0 && KnownIn(grid, n) && 1 <= id <= n
    ensures KnownIn(grid[0 := grid[0] + [id]], n)
  {
    var g := grid[0 := grid[0] + [id]];
    forall j, k | 0 <= j < |g| && 0 <= k < |g[j]| ensures 1 <= g[j][k] <= n {
      if j == 0 && k == |grid[0]| {
        assert g[j][k] == id;
      } else {
        assert k < |grid[j]| && g[j][k] == grid[j][k];
      }
    }
  }

  lemma InitialIdsSequential()
    ensures SequentialIds(InitialItems)
  {
  }

  /** One cell's array of item ids. */
  class Cell {
    var ids: seq<int>

    constructor ()
      ensures ids == []
    {
      ids := [];
    }
  }

  /** `prevGrid.map(cell => cell.filter((id) => id !== itemId))`: one new
      cell per old one, without the item. */
  method FilterCells(grid: seq<seq<int>>, itemId: int) returns (newGrid: seq<Cell>)
    ensures |newGrid| == |grid|
    ensures forall k :: 0 <= k < |grid| ==> fresh(newGrid[k]) && newGrid[k].ids == Without(grid[k], itemId)
    ensures forall k, l :: 0 <= k < l < |grid| ==> newGrid[k] != newGrid[l]
  {
    newGrid := [];
    for j := 0 to |grid|
      invariant |newGrid| == j
      invariant forall k :: 0 <= k < j ==> fresh(newGrid[k]) && newGrid[k].ids == Without(grid[k], itemId)
      invariant forall k, l :: 0 <= k < l < j ==> newGrid[k] != newGrid[l]
    {
      var c := new Cell();
      c.ids := Without(grid[j], itemId);
      newGrid := newGrid + [c];
    }
  }

  /** The new grid of `moveItem`: the filtered copies, with the item pushed
      onto the target cell's array. */
  method MovedCells(grid: seq<seq<int>>, itemId: int, targetCellId: int) returns (newGrid: seq<Cell>)
    requires 0 <= targetCellId < |grid|
    ensures |newGrid| == |grid|
    ensures forall k :: 0 <= k < |grid| ==> fresh(newGrid[k])
    ensures forall k :: 0 <= k < |grid| ==>
      newGrid[k].ids == (if k == targetCellId then Without(grid[k], itemId) + [itemId] else Without(grid[k], itemId))
    ensures forall k, l :: 0 <= k < l < |grid| ==> newGrid[k] != newGrid[l]
  {
    newGrid := FilterCells(grid, itemId);
    newGrid[targetCellId].ids := newGrid[targetCellId].ids + [itemId];
  }

  class GridState {
    var items: seq<Item>
    var cells: seq<Cell>
    var newItemText: string

    /** The cells are distinct arrays and the item ids are sequential. */
    ghost predicate Valid()
      reads this, cells
    {
      (forall j, k :: 0 <= j < k < |cells| ==> cells[j] != cells[k]) && SequentialIds(items)
    }

    /** Every id in a cell names an item, so the render's `items.find(...)!`
        finds one. */
    ghost predicate IdsKnown()
      reads this, cells
    {
      KnownIn(Contents(), |items|)
    }

    /** The cells' contents as values. */
    function Contents(): (r: seq<seq<int>>)
      reads this`cells, cells
      ensures |r| == |cells| && forall j :: 0 <= j < |cells| ==> r[j] == cells[j].ids
    {
      var cs := cells;
      seq(|cs|, j requires 0 <= j < |cs| reads cs => cs[j].ids)
    }

    /** The first render: the three items and an empty grid. */
    constructor ()
      ensures Valid() && IdsKnown()
      ensures items == InitialItems && cells == [] && newItemText == ""
    {
      items := InitialItems;
      cells := [];
      newItemText := "";
    }

    /** The mount effect: `rows * cols` fresh empty cells. */
    method InitGrid()
      requires Valid()
      modifies this
      ensures Valid() && IdsKnown()
      ensures |cells| == Rows * Cols && forall j :: 0 <= j < |cells| ==> fresh(cells[j]) && cells[j].ids == []
      ensures items == old(items) && newItemText == old(newItemText)
    {
      var initialGrid: seq<Cell> := [];
      for j := 0 to Rows * Cols
        invariant |initialGrid| == j
        invariant forall k :: 0 <= k < j ==> fresh(initialGrid[k]) && initialGrid[k].ids == []
        invariant forall k, l :: 0 <= k < l < j ==> initialGrid[k] != initialGrid[l]
        invariant items == old(items) && newItemText == old(newItemText)
      {
        var c := new Cell();
        initialGrid := initialGrid + [c];
      }
      cells := initialGrid;
    }

    /** `moveItem(itemId, targetCellId)`. `ok` is false when the target
        cell does not exist; nothing changes then. */
    method MoveItem(itemId: int, targetCellId: int) returns (ok: bool)
      requires Valid()
      modifies this
      ensures Valid() && items == old(items) && newItemText == old(newItemText)
      ensures ok == Moved(old(Contents()), itemId, targetCellId).Some?
      ensures ok ==> Contents() == Moved(old(Contents()), itemId, targetCellId).value
      ensures !ok ==> cells == old(cells)
      ensures old(IdsKnown()) && 1 <= itemId <= |items| ==> IdsKnown()
    {
      var grid := Contents();
      var sourceCellId := SourceCell(grid, itemId);
      ok := true;
      if sourceCellId != targetCellId {
        if !(0 <= targetCellId < |cells|) {
          ok := false;
          return;
        }
        var newGrid := MovedCells(grid, itemId, targetCellId);
        cells := newGrid;
        ghost var after := Contents();
        MovedIs(grid, itemId, targetCellId, after, |items|);
      }
    }

    /** `addItem(text)`: the next id goes to the items and is pushed onto the
        first cell's own array; the grid keeps the very same cell objects,
        so the previous grid changes too. `ok` is false when there is no
        cell yet and the push throws; nothing changes then. */
    method AddItem(text: string) returns (ok: bool)
      requires Valid()
      modifies this, cells
      ensures Valid() && cells == old(cells) && newItemText == old(newItemText)
      ensures ok == (|cells| > 0)
      ensures ok ==> items == old(items) + [Item(|old(items)| + 1, text)]
      ensures ok ==> Contents() == old(Contents())[0 := old(Contents())[0] + [|old(items)| + 1]]
      ensures !ok ==> items == old(items)
      ensures old(IdsKnown()) ==> IdsKnown()
    {
      if cells == [] {
        return false;
      }
      var newItem := Item(|items| + 1, text);
      items := items + [newItem];
      PushFirst(newItem.id);
      ok := true;
    }

    /** `newGrid[0].push(id)` on `newGrid = grid`: the first cell's own
        array grows, every other cell is untouched, and an id that is
        known keeps the grid known. */
    method PushFirst(id: int)
      requires |cells| > 0 && forall j :: 0 < j < |cells| ==> cells[j] != cells[0]
      modifies cells[0]
      ensures Contents() == old(Contents())[0 := old(Contents())[0] + [id]]
      ensures forall n :: KnownIn(old(Contents()), n) && 1 <= id <= n ==> KnownIn(Contents(), n)
    {
      ghost var before := Contents();
      var newGrid := cells;
      newGrid[0].ids := newGrid[0].ids + [id];
      ghost var after := Contents();
      assert forall j :: 0 <= j < |after| ==> after[j] == before[0 := before[0] + [id]][j];
      forall n | KnownIn(before, n) && 1 <= id <= n ensures KnownIn(after, n) {
        PushKnown(before, id, n);
      }
    }

    /** The text box's `onChange`. */
    method SetText(text: string)
      modifies this
      ensures newItemText == text && items == old(items) && cells == old(cells)
    {
      newItemText := text;
    }

    /** The form's `onSubmit`: a text that trims to nothing adds nothing;
        otherwise the item is added and the box cleared. */
    method Submit() returns (added: bool)
      requires Valid()
      modifies this, cells
      ensures Valid() && cells == old(cells)
      ensures added <==> Strip(old(newItemText), JsWhitespace) != "" && |cells| > 0
      ensures added ==> items == old(items) + [Item(|old(items)| + 1, old(newItemText))] && newItemText == ""
      ensures added ==> Contents() == old(Contents())[0 := old(Contents())[0] + [|old(items)| + 1]]
      ensures !added ==> items == old(items) && Contents() == old(Contents()) && newItemText == old(newItemText)
    {
      var text := newItemText;
      if Strip(text, JsWhitespace) != "" {
        added := AddAndClear(text);
      } else {
        added := false;
      }
    }

    /** The non-blank branch of `onSubmit`: `addItem(text)`, then the box
        is cleared unless the push threw. */
    method AddAndClear(text: string) returns (added: bool)
      requires Valid()
      modifies this, cells
      ensures Valid() && cells == old(cells)
      ensures added <==> |cells| > 0
      ensures added ==> items == old(items) + [Item(|old(items)| + 1, text)] && newItemText == ""
      ensures added ==> Contents() == old(Contents())[0 := old(Contents())[0] + [|old(items)| + 1]]
      ensures !added ==> items == old(items) && Contents() == old(Contents()) && newItemText == old(newItemText)
    {
      added := AddItem(text);
      if added {
        newItemText := "";
      }
    }
  }
}
