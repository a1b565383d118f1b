/**
 * A slot of the board (GameBoardSlot) as a value: its position, whether it is
 * empty and the colour of its drop.  The board stores one slot per position;
 * the functions at the end read a snapshot of all 42 slots.
 */
module Slots {
  import opened Outcomes
  import opened Enumerations
  import opened Geometry

  datatype Slot = Slot(pos: Pos, isEmpty: bool, color: DropColor)

  /** A new slot is empty and has colour UNKNOWN. */
  function EmptySlot(p: Pos): Slot
  {
    Slot(p, true, Unknown)
  }

  /** The slot invariant: a slot is empty exactly when its colour is UNKNOWN. */
  predicate Consistent(s: Slot)
  {
    s.isEmpty <==> s.color == Unknown
  }

  /**
   * GameBoardSlot.setDrop: puts a drop of a colour into the slot, whether or not
   * it was empty; a drop of colour UNKNOWN is refused.
   */
  function SetDrop(s: Slot, c: DropColor): (r: Result<Slot>)
    ensures r.Ok? <==> c != Unknown
    ensures r.Err? ==> r.error == NoDropColor
    ensures r.Ok? ==> r.value.pos == s.pos && !r.value.isEmpty && r.value.color == c && Consistent(r.value)
  {
    if c != Unknown then Ok(s.(color := c, isEmpty := false)) else Err(NoDropColor)
  }

  /** GameBoardSlot.clear: removes the drop of a non-empty slot; an empty slot is left alone. */
  function Clear(s: Slot): (r: Slot)
    ensures r.pos == s.pos && r.isEmpty
    ensures Consistent(s) ==> r == EmptySlot(s.pos)
    ensures s.isEmpty ==> r == s
  {
    if !s.isEmpty then s.(color := Unknown, isEmpty := true) else s
  }

  /** Clearing twice is clearing once. */
  lemma ClearIdempotent(s: Slot)
    ensures Clear(Clear(s)) == Clear(s)
  {
  }

  /** A snapshot of the board: the slot at every position, each consistent. */
  predicate WellFormed(cells: seq<Slot>)
  {
    |cells| == NumberOfCells &&
    forall i :: 0 <= i < |cells| ==> cells[i].pos == PosAt(i) && Consistent(cells[i])
  }

  /** The slot at a position of a snapshot. */
  function At(cells: seq<Slot>, p: Pos): Slot
    requires |cells| == NumberOfCells && OnBoard(p)
  {
    cells[Index(p)]
  }

  /** Drops lie on top of each other: below a filled slot every slot is filled. */
  ghost predicate Gravity(cells: seq<Slot>)
    requires |cells| == NumberOfCells
  {
    forall c, r, r' :: 1 <= c <= NumberOfColumns && 1 <= r < r' <= NumberOfSlots && !At(cells, Pos(c, r')).isEmpty ==>
      !At(cells, Pos(c, r)).isEmpty
  }

  /** The slots of a line, in the line's order. */
  function SlotsOf(cells: seq<Slot>, line: seq<Pos>): (s: seq<Slot>)
    requires |cells| == NumberOfCells && AllOnBoard(line)
    ensures |s| == |line|
  {
    seq(|line|, k requires 0 <= k < |line| => At(cells, line[k]))
  }

  /** Number of empty slots. */
  function CountEmpty(s: seq<Slot>): nat
  {
    if s == [] then 0 else (if s[0].isEmpty then 1 else 0) + CountEmpty(s[1..])
  }

  /** Number of filled slots. */
  function CountFilled(s: seq<Slot>): nat
  {
    if s == [] then 0 else (if s[0].isEmpty then 0 else 1) + CountFilled(s[1..])
  }

  /** Number of filled slots holding a drop of the given colour. */
  function CountColor(s: seq<Slot>, c: DropColor): nat
  {
    if s == [] then 0 else (if !s[0].isEmpty && s[0].color == c then 1 else 0) + CountColor(s[1..], c)
  }

  /** Every slot is either empty or filled. */
  lemma {:induction false} EmptyPlusFilled(s: seq<Slot>)
    ensures CountEmpty(s) + CountFilled(s) == |s|
  {
    if s != [] {
      EmptyPlusFilled(s[1..]);
    }
  }

  /** In consistent slots every filled slot is RED or YELLOW. */
  lemma {:induction false} FilledAreRedOrYellow(s: seq<Slot>)
    requires forall i :: 0 <= i < |s| ==> Consistent(s[i])
    ensures CountColor(s, Red) + CountColor(s, Yellow) == CountFilled(s)
  {
    if s != [] {
      FilledAreRedOrYellow(s[1..]);
    }
  }

  /** Counting over a prefix extended by one slot. */
  lemma {:induction false} CountsSnoc(s: seq<Slot>, x: Slot, c: DropColor)
    ensures CountEmpty(s + [x]) == CountEmpty(s) + (if x.isEmpty then 1 else 0)
    ensures CountFilled(s + [x]) == CountFilled(s) + (if x.isEmpty then 0 else 1)
    ensures CountColor(s + [x], c) == CountColor(s, c) + (if !x.isEmpty && x.color == c then 1 else 0)
  {
    if s != [] {
      assert (s + [x])[1..] == s[1..] + [x];
      CountsSnoc(s[1..], x, c);
    } else {
      assert [x][1..] == [];
    }
  }

  /** Counting after one slot of a sequence is replaced. */
  lemma {:induction false} CountsUpdate(s: seq<Slot>, i: int, x: Slot, c: DropColor)
    requires 0 <= i < |s|
    ensures CountEmpty(s[i := x]) == CountEmpty(s) - (if s[i].isEmpty then 1 else 0) + (if x.isEmpty then 1 else 0)
    ensures CountFilled(s[i := x]) == CountFilled(s) - (if s[i].isEmpty then 0 else 1) + (if x.isEmpty then 0 else 1)
    ensures CountColor(s[i := x], c) == CountColor(s, c)
      - (if !s[i].isEmpty && s[i].color == c then 1 else 0) + (if !x.isEmpty && x.color == c then 1 else 0)
  {
    if i == 0 {
      assert s[i := x][1..] == s[1..];
    } else {
      assert s[i := x][1..] == s[1..][i - 1 := x];
      CountsUpdate(s[1..], i - 1, x, c);
    }
  }

  /** Slots that are all empty: none is filled and none holds a colour. */
  lemma {:induction false} AllEmptyCounts(s: seq<Slot>, c: DropColor)
    requires forall i :: 0 <= i < |s| ==> s[i].isEmpty
    ensures CountEmpty(s) == |s| && CountFilled(s) == 0 && CountColor(s, c) == 0
  {
    if s != [] {
      AllEmptyCounts(s[1..], c);
    }
  }
}
