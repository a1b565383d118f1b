/**
 * The straight lines of slots on the board (GameBoardSlotCollection and its
 * subclasses): the seven columns, the six rows and the diagonals.  A line is a
 * value holding the positions of its slots in order; the board holds the slots.
 */
module Lines {
  import opened Outcomes
  import opened Geometry
  import opened Slots

  datatype Line =
    | Column(id: int, slots: seq<Pos>)
    | Row(id: int, slots: seq<Pos>)
    | Diagonal(start: Pos, end: Pos, slots: seq<Pos>)

  /** The line runs from first to last slot in steps of (dc, dr). */
  ghost predicate Straight(line: seq<Pos>, dc: int, dr: int)
  {
    forall k :: 0 <= k < |line| - 1 ==> line[k + 1] == Pos(line[k].col + dc, line[k].row + dr)
  }

  /** The positions of column `id`, bottom to top. */
  function ColumnSlots(id: int): (s: seq<Pos>)
    ensures |s| == NumberOfSlots
  {
    seq(NumberOfSlots, i => Pos(id, i + 1))
  }

  /** The positions of row `id`, from column "A" to column "G". */
  function RowSlots(id: int): (s: seq<Pos>)
    ensures |s| == NumberOfColumns
  {
    seq(NumberOfColumns, i => Pos(i + 1, id))
  }

  /** GameBoardColumn.createSlots: the slots 1 to 6 of the column. */
  method CreateColumnSlots(id: int) returns (slots: seq<Pos>)
    ensures |slots| == NumberOfSlots
    ensures forall i :: 0 <= i < |slots| ==> slots[i] == Pos(id, i + 1)
    ensures 1 <= id <= NumberOfColumns ==> AllOnBoard(slots) && Straight(slots, 0, 1)
  {
    slots := [];
    var i := 0;
    while i < NumberOfSlots
      invariant 0 <= i <= NumberOfSlots && |slots| == i
      invariant forall k :: 0 <= k < i ==> slots[k] == Pos(id, k + 1)
    {
      slots := slots + [Pos(id, i + 1)];
      i := i + 1;
    }
  }

  /**
   * GameBoardRow.createSlots: walks the columns from "A" to the right and takes
   * the slot at position `id` of each.
   */
  method CreateRowSlots(id: int) returns (slots: seq<Pos>)
    requires 1 <= id <= NumberOfSlots
    ensures |slots| == NumberOfColumns
    ensures forall i :: 0 <= i < |slots| ==> slots[i] == Pos(i + 1, id)
    ensures AllOnBoard(slots) && Straight(slots, 1, 0)
  {
    slots := [];
    var current: Option<int> := Some(1);  // the column with key "A"
    while current.Some?
      invariant current.Some? ==> current.value == |slots| + 1 <= NumberOfColumns
      invariant current.None? ==> |slots| == NumberOfColumns
      invariant forall k :: 0 <= k < |slots| ==> slots[k] == Pos(k + 1, id)
      decreases NumberOfColumns - |slots|
    {
      var slot := GetSlot(current.value, id);
      if slot.Some? {
        slots := slots + [slot.value];
      }
      current := RightColumn(current.value);
    }
  }

  /** GameBoardLine.asList: a new list holding the slots of the line in order. */
  method AsList(cells: seq<Slot>, line: seq<Pos>) returns (list: seq<Slot>)
    requires |cells| == NumberOfCells && AllOnBoard(line)
    ensures list == SlotsOf(cells, line)
  {
    list := [];
    var i := 0;
    while i < |line|
      invariant 0 <= i <= |line| && |list| == i
      invariant forall k :: 0 <= k < i ==> list[k] == At(cells, line[k])
    {
      list := list + [At(cells, line[i])];
      i := i + 1;
    }
  }
}
