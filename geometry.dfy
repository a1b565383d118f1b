/**
 * The fixed geometry of the board: seven columns "A".."G" (ids 1..7), each
 * holding six slots (positions 1..6, 1 at the bottom), the keys that name
 * columns and slots, and the navigation from a slot to its eight neighbours.
 *
 * A slot is identified by its position; the board keeps its slots in one flat
 * array whose index is computed by Index.
 */
module Geometry {
  import opened Outcomes

  const NumberOfColumns := 7
  const NumberOfSlots := 6
  /** Number of slots on the board. */
  const NumberOfCells := 42

  /** A slot position: column id and position within the column. */
  datatype Pos = Pos(col: int, row: int)

  predicate OnBoard(p: Pos)
  {
    1 <= p.col <= NumberOfColumns && 1 <= p.row <= NumberOfSlots
  }

  /** Every position of a line lies on the board. */
  predicate AllOnBoard(line: seq<Pos>)
  {
    forall k :: 0 <= k < |line| ==> OnBoard(line[k])
  }

  /** Index of a slot in the board's flat slot array: column by column, bottom to top. */
  function Index(p: Pos): (i: int)
    requires OnBoard(p)
    ensures 0 <= i < NumberOfCells
  {
    (p.col - 1) * NumberOfSlots + (p.row - 1)
  }

  function PosAt(i: int): (p: Pos)
    requires 0 <= i < NumberOfCells
    ensures OnBoard(p)
  {
    Pos(i / NumberOfSlots + 1, i % NumberOfSlots + 1)
  }

  /** Index and PosAt are inverse bijections between board positions and 0..41. */
  lemma IndexRoundTrip(p: Pos, i: int)
    requires OnBoard(p) && 0 <= i < NumberOfCells
    ensures PosAt(Index(p)) == p
    ensures Index(PosAt(i)) == i
  {
  }

  /** GameBoardColumn.assignKeyById: "A" to "G" for ids 1 to 7, null otherwise. */
  function ColumnKey(id: int): (k: Option<string>)
    ensures k.Some? <==> 1 <= id <= NumberOfColumns
    ensures k.Some? ==> |k.value| == 1 && k.value[0] as int == 'A' as int + id - 1
  {
    if id == 1 then Some("A")
    else if id == 2 then Some("B")
    else if id == 3 then Some("C")
    else if id == 4 then Some("D")
    else if id == 5 then Some("E")
    else if id == 6 then Some("F")
    else if id == 7 then Some("G")
    else None
  }

  /** The key of an existing column. */
  function Key(id: int): string
    requires 1 <= id <= NumberOfColumns
  {
    ColumnKey(id).value
  }

  /** Distinct columns have distinct keys, and keys order like ids. */
  lemma KeyOrder(a: int, b: int)
    requires 1 <= a <= NumberOfColumns && 1 <= b <= NumberOfColumns
    ensures Key(a) == Key(b) <==> a == b
    ensures Key(a)[0] < Key(b)[0] <==> a < b
  {
    assert Key(a)[0] as int == 'A' as int + a - 1;
    assert Key(b)[0] as int == 'A' as int + b - 1;
  }

  /** Integer.toString for a slot position, which is a single digit. */
  function Digit(n: int): string
    requires 0 <= n <= 9
  {
    [('0' as int + n) as char]
  }

  /** GameBoardSlot.getKey: the column key followed by the position, e.g. "C1". */
  function SlotKey(p: Pos): (k: string)
    requires OnBoard(p)
    ensures |k| == 2 && k[0] == Key(p.col)[0] && k[1] as int == '0' as int + p.row
  {
    Key(p.col) + Digit(p.row)
  }

  /** Slot keys identify slots. */
  lemma SlotKeyInjective(p: Pos, q: Pos)
    requires OnBoard(p) && OnBoard(q)
    ensures SlotKey(p) == SlotKey(q) <==> p == q
  {
    KeyOrder(p.col, q.col);
    if SlotKey(p) == SlotKey(q) {
      assert SlotKey(p)[0] == SlotKey(q)[0];
      assert SlotKey(p)[1] == SlotKey(q)[1];
    }
  }

  /** GameBoardSlot.toString, the key of a slot in a diagonal's sorted map. */
  function SlotName(p: Pos): string
    requires OnBoard(p)
  {
    "GameBoardSlot [" + SlotKey(p) + "]"
  }

  /** String.toUpperCase restricted to ASCII letters. */
  function ToUpper(s: string): (u: string)
    ensures |u| == |s|
    ensures forall i :: 0 <= i < |s| ==> u[i] == UpperChar(s[i])
  {
    if s == [] then [] else [UpperChar(s[0])] + ToUpper(s[1..])
  }

  function UpperChar(c: char): char
  {
    if 'a' <= c <= 'z' then (c as int - 'a' as int + 'A' as int) as char else c
  }

  /** The board's column map: it holds the columns with ids 1 to 7. */
  function ColumnById(id: int): (c: Option<int>)
    ensures c.Some? <==> ColumnKey(id).Some?
    ensures c.Some? ==> c.value == id
  {
    if 1 <= id <= NumberOfColumns then Some(id) else None
  }

  /** GameBoardColumn.getSlot: the slot at a 1-based position of a column, null out of range. */
  function GetSlot(col: int, index: int): (p: Option<Pos>)
    ensures p.Some? <==> 1 <= index <= NumberOfSlots
    ensures p.Some? ==> p.value == Pos(col, index)
  {
    if index > 0 && index <= NumberOfSlots then Some(Pos(col, index)) else None
  }

  /** GameBoardColumn.getRight: the next column to the right, null at "G" or for an id below 1. */
  function RightColumn(id: int): (c: Option<int>)
    ensures c == if 1 <= id < NumberOfColumns then Some(id + 1) else None
  {
    if id > 0 then
      if id == NumberOfColumns then None else ColumnById(id + 1)
    else None
  }

  /** GameBoardColumn.getLeft: the next column to the left, null at "A" or for an id below 1. */
  function LeftColumn(id: int): (c: Option<int>)
    ensures c == if 1 < id <= NumberOfColumns + 1 then Some(id - 1) else None
  {
    if id > 0 then
      if id == 1 then None else ColumnById(id - 1)
    else None
  }

  // Navigation from a slot to its neighbours (GameBoardSlot.getTop and the others).
  // Each returns the adjacent position or None at the corresponding edge.

  function Top(p: Pos): (q: Option<Pos>)
    requires OnBoard(p)
    ensures q == if p.row < NumberOfSlots then Some(Pos(p.col, p.row + 1)) else None
  {
    if p.row == NumberOfSlots then None else GetSlot(p.col, p.row + 1)
  }

  function Bottom(p: Pos): (q: Option<Pos>)
    requires OnBoard(p)
    ensures q == if p.row > 1 then Some(Pos(p.col, p.row - 1)) else None
  {
    if p.row == 1 then None else GetSlot(p.col, p.row - 1)
  }

  function Right(p: Pos): (q: Option<Pos>)
    requires OnBoard(p)
    ensures q == if p.col < NumberOfColumns then Some(Pos(p.col + 1, p.row)) else None
  {
    match RightColumn(p.col)
    case None => None
    case Some(c) => GetSlot(c, p.row)
  }

  function Left(p: Pos): (q: Option<Pos>)
    requires OnBoard(p)
    ensures q == if p.col > 1 then Some(Pos(p.col - 1, p.row)) else None
  {
    match LeftColumn(p.col)
    case None => None
    case Some(c) => GetSlot(c, p.row)
  }

  function LowRight(p: Pos): (q: Option<Pos>)
    requires OnBoard(p)
    ensures q == if p.col < NumberOfColumns && p.row > 1 then Some(Pos(p.col + 1, p.row - 1)) else None
  {
    match RightColumn(p.col)
    case None => None
    case Some(c) => if p.row == 1 then None else GetSlot(c, p.row - 1)
  }

  function UpRight(p: Pos): (q: Option<Pos>)
    requires OnBoard(p)
    ensures q == if p.col < NumberOfColumns && p.row < NumberOfSlots then Some(Pos(p.col + 1, p.row + 1)) else None
  {
    match RightColumn(p.col)
    case None => None
    case Some(c) => if p.row == NumberOfSlots then None else GetSlot(c, p.row + 1)
  }

  function LowLeft(p: Pos): (q: Option<Pos>)
    requires OnBoard(p)
    ensures q == if p.col > 1 && p.row > 1 then Some(Pos(p.col - 1, p.row - 1)) else None
  {
    match LeftColumn(p.col)
    case None => None
    case Some(c) => if p.row == 1 then None else GetSlot(c, p.row - 1)
  }

  function UpLeft(p: Pos): (q: Option<Pos>)
    requires OnBoard(p)
    ensures q == if p.col > 1 && p.row < NumberOfSlots then Some(Pos(p.col - 1, p.row + 1)) else None
  {
    match LeftColumn(p.col)
    case None => None
    case Some(c) => if p.row == NumberOfSlots then None else GetSlot(c, p.row + 1)
  }

  /** Opposite navigations undo each other and never leave the board. */
  lemma NeighboursAreMutual(p: Pos)
    requires OnBoard(p)
    ensures Top(p).Some? ==> OnBoard(Top(p).value) && Bottom(Top(p).value) == Some(p)
    ensures Right(p).Some? ==> OnBoard(Right(p).value) && Left(Right(p).value) == Some(p)
    ensures LowRight(p).Some? ==> OnBoard(LowRight(p).value) && UpLeft(LowRight(p).value) == Some(p)
    ensures UpRight(p).Some? ==> OnBoard(UpRight(p).value) && LowLeft(UpRight(p).value) == Some(p)
  {
    StepBack(p, 0, 1);
    StepBack(p, 1, 0);
    StepBack(p, 1, -1);
    StepBack(p, 1, 1);
  }

  /** The neighbour one step of (dc, dr) away, as the navigation functions give it. */
  function Step(p: Pos, dc: int, dr: int): Option<Pos>
    requires OnBoard(p)
  {
    if dc == 0 && dr == 1 then Top(p)
    else if dc == 0 && dr == -1 then Bottom(p)
    else if dc == 1 && dr == 0 then Right(p)
    else if dc == -1 && dr == 0 then Left(p)
    else if dc == 1 && dr == -1 then LowRight(p)
    else if dc == -1 && dr == 1 then UpLeft(p)
    else if dc == 1 && dr == 1 then UpRight(p)
    else if dc == -1 && dr == -1 then LowLeft(p)
    else None
  }

  /** Stepping along a direction and back along its opposite returns to the start. */
  lemma StepBack(p: Pos, dc: int, dr: int)
    requires OnBoard(p) && -1 <= dc <= 1 && -1 <= dr <= 1 && (dc, dr) != (0, 0)
    ensures Step(p, dc, dr).Some? ==> OnBoard(Step(p, dc, dr).value) && Step(Step(p, dc, dr).value, -dc, -dr) == Some(p)
  {
  }
}
