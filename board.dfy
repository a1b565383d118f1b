/**
 * The game board (GameBoard with its GameBoardColumn objects): 42 slots in
 * seven columns, the columns, rows and diagonals over them, and the two
 * operations that change the slots, inserting a drop and resetting the board.
 */
module Board {
  import opened Outcomes
  import opened Enumerations
  import opened Geometry
  import opened Slots
  import opened Lines
  import opened Diagonals

  /** The columns of the board, "A" to "G". */
  function BoardColumns(): seq<Line>
  {
    seq(NumberOfColumns, i requires 0 <= i < NumberOfColumns => Column(i + 1, ColumnSlots(i + 1)))
  }

  /** The rows of the board, bottom to top. */
  function BoardRows(): seq<Line>
  {
    seq(NumberOfSlots, i requires 0 <= i < NumberOfSlots => Row(i + 1, RowSlots(i + 1)))
  }

  /** The board's column map: column id to column key. */
  function ColumnMap(): map<int, string>
  {
    map id | 1 <= id <= NumberOfColumns :: Key(id)
  }

  /** A snapshot of a new board: every slot empty. */
  function EmptyBoard(): seq<Slot>
  {
    seq(NumberOfCells, i requires 0 <= i < NumberOfCells => EmptySlot(PosAt(i)))
  }

  /** A snapshot with every slot cleared. */
  function Cleared(cells: seq<Slot>): (r: seq<Slot>)
    ensures |r| == |cells|
  {
    seq(|cells|, i requires 0 <= i < |cells| => Clear(cells[i]))
  }

  /** The id of the column whose key is `name`, if any. */
  function KeyId(name: string): (id: Option<int>)
    ensures id.Some? ==> 1 <= id.value <= NumberOfColumns && Key(id.value) == name
    ensures id.None? ==> forall k :: 1 <= k <= NumberOfColumns ==> Key(k) != name
  {
    if |name| == 1 && 'A' <= name[0] <= 'G' then
      var id := name[0] as int - 'A' as int + 1;
      assert Key(id) == [name[0]];
      Some(id)
    else
      None
  }

  /** Every column is found under its key, however that key is written. */
  lemma KeyRoundTrip(id: int)
    requires 1 <= id <= NumberOfColumns
    ensures ToUpper(Key(id)) == Key(id)
    ensures KeyId(Key(id)) == Some(id)
    ensures KeyId(ToUpper([(Key(id)[0] as int - 'A' as int + 'a' as int) as char])) == Some(id)
  {
    var lower := [(Key(id)[0] as int - 'A' as int + 'a' as int) as char];
    assert ToUpper(lower) == Key(id);
    assert ToUpper(Key(id)) == Key(id);
    KeyOrder(id, KeyId(Key(id)).value);
  }

  /** Upper-casing twice is upper-casing once. */
  lemma ToUpperIdempotent(s: string)
    ensures ToUpper(ToUpper(s)) == ToUpper(s)
  {
  }

  /** Some slot of the column is empty. */
  predicate HasRoom(cells: seq<Slot>, id: int)
    requires |cells| == NumberOfCells && 1 <= id <= NumberOfColumns
  {
    exists r :: 1 <= r <= NumberOfSlots && At(cells, Pos(id, r)).isEmpty
  }

  /** The lowest empty position of a column at or above position `r`. */
  function LowestEmptyFrom(cells: seq<Slot>, id: int, r: int): (e: Option<int>)
    requires |cells| == NumberOfCells && 1 <= id <= NumberOfColumns && 1 <= r <= NumberOfSlots + 1
    ensures e.Some? ==> r <= e.value <= NumberOfSlots && At(cells, Pos(id, e.value)).isEmpty
    ensures e.Some? ==> forall k :: r <= k < e.value ==> !At(cells, Pos(id, k)).isEmpty
    ensures e.None? <==> forall k :: r <= k <= NumberOfSlots ==> !At(cells, Pos(id, k)).isEmpty
    decreases NumberOfSlots + 1 - r
  {
    if r > NumberOfSlots then None
    else if At(cells, Pos(id, r)).isEmpty then Some(r)
    else LowestEmptyFrom(cells, id, r + 1)
  }

  /** The lowest empty position of a column. */
  function LowestEmpty(cells: seq<Slot>, id: int): Option<int>
    requires |cells| == NumberOfCells && 1 <= id <= NumberOfColumns
  {
    LowestEmptyFrom(cells, id, 1)
  }

  /** GameBoardColumn.hasEmptySlots. */
  method HasEmptySlots(cells: seq<Slot>, id: int) returns (has: bool)
    requires |cells| == NumberOfCells && 1 <= id <= NumberOfColumns
    ensures has <==> HasRoom(cells, id)
  {
    var i := 1;
    while i <= NumberOfSlots
      invariant 1 <= i <= NumberOfSlots + 1
      invariant forall k :: 1 <= k < i ==> !At(cells, Pos(id, k)).isEmpty
    {
      if At(cells, Pos(id, i)).isEmpty {
        return true;
      }
      i := i + 1;
    }
    return false;
  }

  /** GameBoardColumn.getNextEmptySlot: the lowest empty slot of the column, null when it is full. */
  method NextEmptySlot(cells: seq<Slot>, id: int) returns (slot: Option<Slot>)
    requires |cells| == NumberOfCells && 1 <= id <= NumberOfColumns
    ensures slot.None? <==> !HasRoom(cells, id)
    ensures slot.Some? ==> LowestEmpty(cells, id).Some? && slot.value == At(cells, Pos(id, LowestEmpty(cells, id).value))
  {
    var has := HasEmptySlots(cells, id);
    if has {
      var i := 1;
      while i <= NumberOfSlots
        invariant 1 <= i <= NumberOfSlots + 1
        invariant LowestEmptyFrom(cells, id, i) == LowestEmpty(cells, id)
      {
        if At(cells, Pos(id, i)).isEmpty {
          return Some(At(cells, Pos(id, i)));
        }
        i := i + 1;
      }
    }
    return None;
  }

  /**
   * The slot GameBoard.insertDrop fills: the lowest empty slot of the column
   * named by the upper-cased key, with the drop's colour.  It fails for a key
   * naming no column, for a full column and for the colour UNKNOWN, in that order.
   */
  function DropResult(cells: seq<Slot>, key: string, color: DropColor): (r: Result<Slot>)
    requires |cells| == NumberOfCells
    ensures WellFormed(cells) && r.Ok? ==> OnBoard(r.value.pos)
  {
    match KeyId(ToUpper(key))
    case None => Err(NoSuchColumn)
    case Some(id) =>
      match LowestEmpty(cells, id)
      case None => Err(ColumnFull)
      case Some(r) => SetDrop(At(cells, Pos(id, r)), color)
  }

  /** The outcomes of inserting a drop. */
  lemma InsertDropOutcome(cells: seq<Slot>, key: string, color: DropColor)
    requires WellFormed(cells)
    ensures var r, column := DropResult(cells, key, color), KeyId(ToUpper(key));
      (r == Err(NoSuchColumn) <==> column.None?)
      && (r == Err(ColumnFull) <==> column.Some? && !HasRoom(cells, column.value))
      && (r == Err(NoDropColor) <==> column.Some? && HasRoom(cells, column.value) && color == Unknown)
      && (r.Ok? ==> column.Some? && r.value.pos.col == column.value && 1 <= r.value.pos.row <= NumberOfSlots
                    && At(cells, r.value.pos).isEmpty && !r.value.isEmpty && r.value.color == color
                    && forall k :: 1 <= k < r.value.pos.row ==> !At(cells, Pos(column.value, k)).isEmpty)
  {
  }

  /** Column keys are case-insensitive: "d" names the same column as "D". */
  lemma KeysIgnoreCase(cells: seq<Slot>, key: string, color: DropColor)
    requires |cells| == NumberOfCells
    ensures DropResult(cells, ToUpper(key), color) == DropResult(cells, key, color)
    ensures KeyId(ToUpper("d")) == KeyId("D") == Some(4)
  {
    ToUpperIdempotent(key);
    KeyRoundTrip(4);
  }

  /** The slot at a position after one slot was replaced. */
  lemma AtUpdate(cells: seq<Slot>, x: Slot, q: Pos)
    requires |cells| == NumberOfCells && OnBoard(x.pos) && OnBoard(q)
    ensures At(cells[Index(x.pos) := x], q) == if q == x.pos then x else At(cells, q)
  {
    IndexRoundTrip(q, 0);
    IndexRoundTrip(x.pos, 0);
  }

  /**
   * Filling the lowest empty slot of a column keeps the board well formed and
   * the drops stacked, and adds one drop of the colour.
   */
  lemma InsertKeepsBoardValid(cells: seq<Slot>, key: string, color: DropColor)
    requires WellFormed(cells) && Gravity(cells)
    requires DropResult(cells, key, color).Ok?
    ensures var x := DropResult(cells, key, color).value;
      var after := cells[Index(x.pos) := x];
      WellFormed(after) && Gravity(after)
      && CountFilled(after) == CountFilled(cells) + 1
      && CountEmpty(after) == CountEmpty(cells) - 1
      && CountColor(after, color) == CountColor(cells, color) + 1
      && CountColor(after, Opponent(color)) == CountColor(cells, Opponent(color))
  {
    InsertDropOutcome(cells, key, color);
    var x := DropResult(cells, key, color).value;
    var id, r := x.pos.col, x.pos.row;
    var after := cells[Index(x.pos) := x];
    forall i | 0 <= i < NumberOfCells
      ensures after[i].pos == PosAt(i) && Consistent(after[i])
    {
      IndexRoundTrip(x.pos, i);
    }
    forall c, r1, r2 | 1 <= c <= NumberOfColumns && 1 <= r1 < r2 <= NumberOfSlots && !At(after, Pos(c, r2)).isEmpty
      ensures !At(after, Pos(c, r1)).isEmpty
    {
      AtUpdate(cells, x, Pos(c, r1));
      AtUpdate(cells, x, Pos(c, r2));
      if Pos(c, r1) != x.pos && Pos(c, r2) != x.pos {
        assert !At(cells, Pos(c, r2)).isEmpty;
      }
    }
    CountsUpdate(cells, Index(x.pos), x, color);
    CountsUpdate(cells, Index(x.pos), x, Opponent(color));
    assert cells[Index(x.pos)] == At(cells, x.pos);
  }

  /** A new board is well formed, has no drops and every slot empty. */
  lemma EmptyBoardValid()
    ensures WellFormed(EmptyBoard()) && Gravity(EmptyBoard())
    ensures CountFilled(EmptyBoard()) == 0 && CountEmpty(EmptyBoard()) == NumberOfCells
    ensures CountColor(EmptyBoard(), Red) == 0 && CountColor(EmptyBoard(), Yellow) == 0
  {
    AllEmptyCounts(EmptyBoard(), Red);
    AllEmptyCounts(EmptyBoard(), Yellow);
  }

  /** Resetting leaves the empty board, and a second reset changes nothing. */
  lemma ResetEmptiesBoard(cells: seq<Slot>)
    requires WellFormed(cells)
    ensures Cleared(cells) == EmptyBoard()
    ensures Cleared(Cleared(cells)) == Cleared(cells)
  {
    forall i | 0 <= i < NumberOfCells
      ensures Cleared(cells)[i] == EmptyBoard()[i]
    {
      assert Consistent(cells[i]);
    }
  }

  /** Column `col` holds the position `row` at index row - 1. */
  lemma ColumnHolds(p: Pos)
    requires OnBoard(p)
    ensures |BoardColumns()| == NumberOfColumns && |BoardColumns()[p.col - 1].slots| == NumberOfSlots
    ensures BoardColumns()[p.col - 1].slots[p.row - 1] == p
  {
  }

  /** The lines of the board, as GameBoard.getAll lists them. */
  function AllLines(): seq<Line>
  {
    BoardColumns() + BoardRows() + BoardDiagonals()
  }

  /** A line of four to seven slots of the board in one of the four directions. */
  ghost predicate LineShape(l: Line)
  {
    MinimumLength <= |l.slots| <= NumberOfColumns && AllOnBoard(l.slots) &&
    (Straight(l.slots, 0, 1) || Straight(l.slots, 1, 0) || Straight(l.slots, 1, 1) || Straight(l.slots, 1, -1))
  }

  ghost predicate LinesShaped(lines: seq<Line>)
  {
    forall k :: 0 <= k < |lines| ==> LineShape(lines[k])
  }

  /** Along a line that moves one column to the right per step, the k-th slot is k columns right of the first. */
  lemma {:induction false} StraightColumns(s: seq<Pos>, dr: int, k: int)
    requires Straight(s, 1, dr) && 0 <= k < |s|
    ensures s[k].col == s[0].col + k
  {
    if k > 0 {
      StraightColumns(s, dr, k - 1);
    }
  }

  /** The diagonals of the board are lines of four to seven slots. */
  lemma DiagonalsShaped()
    ensures LinesShaped(BoardDiagonals())
  {
    BoardDiagonalsShape();
    var all := BoardDiagonals();
    forall k | 0 <= k < |all|
      ensures |all[k].slots| <= NumberOfColumns
    {
      var s := all[k].slots;
      var dr := if Straight(s, 1, 1) then 1 else -1;
      StraightColumns(s, dr, |s| - 1);
      assert OnBoard(s[0]) && OnBoard(s[|s| - 1]);
    }
  }

  /** Lines of the right shape, joined, are lines of the right shape. */
  lemma ShapedConcat(a: seq<Line>, b: seq<Line>, c: seq<Line>)
    requires LinesShaped(a) && LinesShaped(b) && LinesShaped(c)
    ensures LinesShaped(a + b + c)
  {
    assert forall k :: 0 <= k < |a + b + c| ==> (a + b + c)[k] in a || (a + b + c)[k] in b || (a + b + c)[k] in c;
  }

  /** Columns and rows are lines of six and seven slots. */
  lemma ColumnsAndRowsShaped()
    ensures LinesShaped(BoardColumns()) && LinesShaped(BoardRows())
  {
  }

  /** The board has 7 columns, 6 rows and 12 diagonals, each a line of four to seven slots. */
  lemma AllLinesShape()
    ensures |AllLines()| == 25 && LinesShaped(AllLines())
    ensures forall k :: 0 <= k < 7 ==> AllLines()[k].Column? && AllLines()[k].id == k + 1
    ensures forall k :: 7 <= k < 13 ==> AllLines()[k].Row? && AllLines()[k].id == k - 6
    ensures forall k :: 13 <= k < 25 ==> AllLines()[k].Diagonal?
  {
    TwelveDiagonals();
    DiagonalsShaped();
    ColumnsAndRowsShaped();
    ShapedConcat(BoardColumns(), BoardRows(), BoardDiagonals());
    var columns, rows := BoardColumns(), BoardRows();
    forall k | 0 <= k < 7
      ensures AllLines()[k].Column? && AllLines()[k].id == k + 1
    {
      assert AllLines()[k] == columns[k];
    }
    forall k | 7 <= k < 13
      ensures AllLines()[k].Row? && AllLines()[k].id == k - 6
    {
      assert AllLines()[k] == rows[k - 7];
    }
    forall k | 13 <= k < 25
      ensures AllLines()[k].Diagonal?
    {
      assert AllLines()[k] == BoardDiagonals()[k - 13];
    }
  }

  /** GameBoard.createColumns: the seven columns and the column map. */
  method CreateColumns() returns (cols: seq<Line>, columnMap: map<int, string>)
    ensures cols == BoardColumns() && columnMap == ColumnMap()
  {
    cols := [];
    columnMap := map[];
    var i := 0;
    while i < NumberOfColumns
      invariant 0 <= i <= NumberOfColumns && cols == BoardColumns()[..i]
      invariant columnMap == map id | 1 <= id <= i :: Key(id)
    {
      var columnId := i + 1;
      var slots := CreateColumnSlots(columnId);
      assert slots == ColumnSlots(columnId);
      cols := cols + [Column(columnId, slots)];
      if columnId !in columnMap {
        columnMap := columnMap[columnId := Key(columnId)];
      }
      i := i + 1;
    }
  }

  /** GameBoard.createRows: the six rows. */
  method CreateRows() returns (rows: seq<Line>)
    ensures rows == BoardRows()
  {
    rows := [];
    var i := 0;
    while i < NumberOfSlots
      invariant 0 <= i <= NumberOfSlots && rows == BoardRows()[..i]
    {
      var rowId := i + 1;
      var slots := CreateRowSlots(rowId);
      assert slots == RowSlots(rowId);
      rows := rows + [Row(rowId, slots)];
      i := i + 1;
    }
  }

  /** The slot array of a new board, every slot empty. */
  method NewSlots() returns (a: array<Slot>)
    ensures fresh(a) && a[..] == EmptyBoard()
    ensures WellFormed(a[..]) && Gravity(a[..])
  {
    a := new Slot[NumberOfCells](i requires 0 <= i < NumberOfCells => EmptySlot(PosAt(i)));
    EmptyBoardValid();
  }

  class GameBoard {
    /** The slots, column by column (see Index). */
    const slots: array<Slot>
    const columns: seq<Line>
    const rows: seq<Line>
    const diagonals: seq<Line>
    const columnMap: map<int, string>

    /**
     * The slots are consistent and stacked; the columns and rows are those of
     * the board and the diagonals are lines of four to seven slots (the
     * constructor states which diagonals).
     */
    ghost predicate Valid()
      reads slots
    {
      WellFormed(slots[..]) && Gravity(slots[..]) &&
      columns == BoardColumns() && rows == BoardRows() && LinesShaped(columns + rows + diagonals) &&
      columnMap == ColumnMap()
    }

    /** A new board: the lines are built once and every slot is empty. */
    constructor ()
      ensures Valid() && fresh(slots) && diagonals == BoardDiagonals()
      ensures slots[..] == EmptyBoard()
    {
      var cols, m := CreateColumns();
      var rs := CreateRows();
      var ds := CreateDiagonals();
      columns := cols;
      rows := rs;
      diagonals := ds;
      columnMap := m;
      var a := NewSlots();
      slots := a;
      DiagonalsShaped();
      ColumnsAndRowsShaped();
      ShapedConcat(cols, rs, ds);
    }

    /** GameBoard.getColumnByKey: the column whose key equals the upper-cased name. */
    method ColumnWithKey(columnName: string) returns (column: Option<int>)
      requires Valid()
      ensures column == KeyId(ToUpper(columnName))
    {
      var upper := ToUpper(columnName);
      var i := 0;
      while i < |columns|
        invariant 0 <= i <= |columns|
        invariant forall k :: 1 <= k <= i ==> Key(k) != upper
      {
        var line := columns[i];
        if line.Column? && Key(line.id) == upper {
          KeyOrder(line.id, KeyId(upper).value);
          return Some(line.id);
        }
        i := i + 1;
      }
      return None;
    }

    /** GameBoard.getColumnById: looks the key up in the column map, then the column by key. */
    method ColumnWithId(id: int) returns (column: Option<int>)
      requires Valid()
      ensures column == ColumnById(id)
    {
      if id in columnMap {
        KeyRoundTrip(id);
        column := ColumnWithKey(columnMap[id]);
      } else {
        column := None;
      }
    }

    /** GameBoard.getAll: the columns, then the rows, then the diagonals. */
    method GetAll() returns (all: seq<Line>)
      requires Valid()
      ensures all == columns + rows + diagonals
      ensures |all| == NumberOfColumns + NumberOfSlots + |diagonals| && LinesShaped(all)
    {
      all := [];
      for i := 0 to |columns|
        invariant all == columns[..i]
      {
        all := all + [columns[i]];
      }
      for i := 0 to |rows|
        invariant all == columns + rows[..i]
      {
        all := all + [rows[i]];
      }
      for i := 0 to |diagonals|
        invariant all == columns + rows + diagonals[..i]
      {
        all := all + [diagonals[i]];
      }
    }

    /**
     * GameBoard.insertDrop: fills the lowest empty slot of the named column and
     * returns it; on failure no slot changes.
     */
    method InsertDrop(columnKey: string, color: DropColor) returns (r: Result<Slot>)
      requires Valid()
      modifies slots
      ensures Valid()
      ensures r == DropResult(old(slots[..]), columnKey, color)
      ensures r.Ok? ==> slots[..] == old(slots[..])[Index(r.value.pos) := r.value]
      ensures r.Err? ==> slots[..] == old(slots[..])
    {
      var column := ColumnWithKey(columnKey);
      if column.None? {
        return Err(NoSuchColumn);
      }
      var slot := NextEmptySlot(slots[..], column.value);
      if slot.Some? && slot.value.isEmpty {
        var dropped := SetDrop(slot.value, color);
        if dropped.Err? {
          return Err(dropped.error);
        }
        InsertKeepsBoardValid(slots[..], columnKey, color);
        slots[Index(slot.value.pos)] := dropped.value;
        return Ok(dropped.value);
      }
      return Err(ColumnFull);
    }

    /** GameBoardColumn.clear for the column at index `c`: clears its six slots, bottom to top. */
    method ClearColumn(c: int)
      requires 0 <= c < NumberOfColumns && columns == BoardColumns() && slots.Length == NumberOfCells
      modifies slots
      ensures forall i :: 0 <= i < NumberOfCells ==>
        slots[i] == if c * NumberOfSlots <= i < (c + 1) * NumberOfSlots then Clear(old(slots[i])) else old(slots[i])
    {
      var line := columns[c];
      var k := 0;
      while k < |line.slots|
        invariant 0 <= k <= |line.slots| == NumberOfSlots
        invariant forall i :: 0 <= i < NumberOfCells ==>
          slots[i] == if c * NumberOfSlots <= i < c * NumberOfSlots + k then Clear(old(slots[i])) else old(slots[i])
      {
        var p := line.slots[k];
        slots[Index(p)] := Clear(slots[Index(p)]);
        k := k + 1;
      }
    }

    /** GameBoard.reset: clears every slot of every column. */
    method Reset()
      requires Valid()
      modifies slots
      ensures Valid()
      ensures slots[..] == Cleared(old(slots[..]))
    {
      var c := 0;
      while c < |columns|
        invariant 0 <= c <= |columns|
        invariant forall i :: 0 <= i < NumberOfCells ==>
          slots[i] == if i < c * NumberOfSlots then Clear(old(slots[i])) else old(slots[i])
      {
        ClearColumn(c);
        c := c + 1;
      }
      ghost var cleared := Cleared(old(slots[..]));
      assert forall i :: 0 <= i < NumberOfCells ==> slots[i] == cleared[i];
      assert slots[..] == cleared;
      ResetEmptiesBoard(old(slots[..]));
      EmptyBoardValid();
    }
  }
}
