/**
 * DropSequence: a run of two to four drops of one colour found on a line, the
 * direction it runs in, the slots just before and after it and whether a drop
 * could be set into those slots now.  Slots are identified by their positions;
 * their contents are read from a snapshot of the board.
 */
module DropSequences {
  import opened Outcomes
  import opened Enumerations
  import opened Geometry
  import opened Slots

  const MinLength := 2
  const MaxLength := 4

  /** No position occurs twice. */
  predicate Distinct(ps: seq<Pos>)
  {
    forall i, j :: 0 <= i < j < |ps| ==> ps[i] != ps[j]
  }

  /** isHorizontalSequence: consecutive slots share their position (row). */
  predicate Horizontal(ps: seq<Pos>)
  {
    forall i :: 0 <= i < |ps| - 1 ==> ps[i].row == ps[i + 1].row
  }

  /** isVerticalSequence: consecutive slots share their column. */
  predicate Vertical(ps: seq<Pos>)
  {
    forall i :: 0 <= i < |ps| - 1 ==> ps[i].col == ps[i + 1].col
  }

  /** isDiagonalSequence: no two consecutive slots share a column or a row. */
  predicate DiagonalSteps(ps: seq<Pos>)
  {
    forall i :: 0 <= i < |ps| - 1 ==> ps[i].col != ps[i + 1].col && ps[i].row != ps[i + 1].row
  }

  /**
   * getDiagonalDirection, from the first two slots: LOW_RIGHT when the row falls
   * and the column key grows, UP_RIGHT when the row does not fall and the key
   * grows, INDETERMINATE otherwise.  Keys compare like column ids (KeyOrder).
   */
  function DiagonalDirection(ps: seq<Pos>): (d: Direction)
    requires |ps| >= 2
    ensures d == DiagonalLowRight <==> ps[0].row > ps[1].row && ps[0].col < ps[1].col
    ensures d == DiagonalUpRight <==> ps[0].row <= ps[1].row && ps[0].col < ps[1].col
    ensures d == Indeterminate <==> ps[0].col >= ps[1].col
  {
    var isDownward := ps[0].row > ps[1].row;
    var isRight := ps[0].col < ps[1].col;
    if isDownward && isRight then DiagonalLowRight
    else if !isDownward && isRight then DiagonalUpRight
    else Indeterminate
  }

  /** evaluateDirection: ROW, then COLUMN, then a diagonal, else INDETERMINATE. */
  function Classify(ps: seq<Pos>): Direction
  {
    if Horizontal(ps) then RowDirection
    else if Vertical(ps) then ColumnDirection
    else if DiagonalSteps(ps) then DiagonalDirection(ps)
    else Indeterminate
  }

  /** A sequence of at most one slot counts as a row. */
  lemma ShortIsRow(ps: seq<Pos>)
    requires |ps| <= 1
    ensures Classify(ps) == RowDirection
  {
  }

  /** getBefore: the neighbour of the first slot against the direction. */
  function BeforeOf(ps: seq<Pos>, d: Direction): (q: Option<Pos>)
    requires AllOnBoard(ps)
    ensures q.Some? ==> OnBoard(q.value)
  {
    if |ps| == 0 then None
    else
      match d
      case ColumnDirection => Bottom(ps[0])
      case RowDirection => Left(ps[0])
      case DiagonalLowRight => UpLeft(ps[0])
      case DiagonalUpRight => LowLeft(ps[0])
      case Indeterminate => None
  }

  /** getAfter: the neighbour of the last slot along the direction. */
  function AfterOf(ps: seq<Pos>, d: Direction): (q: Option<Pos>)
    requires AllOnBoard(ps)
    ensures q.Some? ==> OnBoard(q.value)
  {
    if |ps| == 0 then None
    else
      match d
      case ColumnDirection => Top(ps[|ps| - 1])
      case RowDirection => Right(ps[|ps| - 1])
      case DiagonalLowRight => LowRight(ps[|ps| - 1])
      case DiagonalUpRight => UpRight(ps[|ps| - 1])
      case Indeterminate => None
  }

  /**
   * A drop could be set into the slot now: it is empty and it is in the bottom
   * row or rests on a filled slot.
   */
  predicate AllowsDrop(cells: seq<Slot>, q: Option<Pos>)
    requires |cells| == NumberOfCells
    requires q.Some? ==> OnBoard(q.value)
  {
    q.Some? && At(cells, q.value).isEmpty &&
    (Bottom(q.value).None? || !At(cells, Bottom(q.value).value).isEmpty)
  }

  class DropSequence {
    var slots: seq<Pos>
    var direction: Direction
    var before: Option<Pos>
    var after: Option<Pos>
    var allowsDropBefore: bool
    var allowsDropAfter: bool

    /** At most four distinct slots of the board; before and after lie on the board. */
    ghost predicate Valid()
      reads this
    {
      |slots| <= MaxLength && AllOnBoard(slots) && Distinct(slots) &&
      (before.Some? ==> OnBoard(before.value)) && (after.Some? ==> OnBoard(after.value))
    }

    /** An empty sequence of INDETERMINATE direction. */
    constructor ()
      ensures slots == [] && direction == Indeterminate && before == None && after == None
      ensures !allowsDropBefore && !allowsDropAfter && Valid()
    {
      slots := [];
      direction := Indeterminate;
      before := None;
      after := None;
      allowsDropBefore := false;
      allowsDropAfter := false;
    }

    /** DropSequence.add: appends a slot unless it is present or the sequence holds four. */
    method Add(slot: Pos)
      requires Valid() && OnBoard(slot)
      modifies this
      ensures Valid()
      ensures slots == if slot in old(slots) || |old(slots)| == MaxLength then old(slots) else old(slots) + [slot]
      ensures direction == old(direction) && before == old(before) && after == old(after)
      ensures allowsDropBefore == old(allowsDropBefore) && allowsDropAfter == old(allowsDropAfter)
    {
      if slot !in slots && |slots| != MaxLength {
        slots := slots + [slot];
      }
    }

    /** DropSequence.clear: empties the sequence; the rest is kept. */
    method Clear()
      requires Valid()
      modifies this
      ensures Valid() && slots == []
      ensures direction == old(direction) && before == old(before) && after == old(after)
      ensures allowsDropBefore == old(allowsDropBefore) && allowsDropAfter == old(allowsDropAfter)
    {
      slots := [];
    }

    /** DropSequence.isSubSequenceOf: every slot of this sequence is in the other. */
    predicate IsSubSequenceOf(other: DropSequence)
      reads this, other
    {
      forall i :: 0 <= i < |slots| ==> slots[i] in other.slots
    }

    /** isHorizontalSequence. */
    method IsHorizontalSequence() returns (b: bool)
      ensures b <==> Horizontal(slots)
    {
      var i := 0;
      while i < |slots| - 1
        invariant 0 <= i
        invariant forall k :: 0 <= k < i && k < |slots| - 1 ==> slots[k].row == slots[k + 1].row
      {
        if slots[i].row != slots[i + 1].row {
          return false;
        }
        i := i + 1;
      }
      return true;
    }

    /** isVerticalSequence. */
    method IsVerticalSequence() returns (b: bool)
      ensures b <==> Vertical(slots)
    {
      var i := 0;
      while i < |slots| - 1
        invariant 0 <= i
        invariant forall k :: 0 <= k < i && k < |slots| - 1 ==> slots[k].col == slots[k + 1].col
      {
        if slots[i].col != slots[i + 1].col {
          return false;
        }
        i := i + 1;
      }
      return true;
    }

    /** isDiagonalSequence. */
    method IsDiagonalSequence() returns (b: bool)
      ensures b <==> DiagonalSteps(slots)
    {
      var i := 0;
      while i < |slots| - 1
        invariant 0 <= i
        invariant forall k :: 0 <= k < i && k < |slots| - 1 ==> slots[k].col != slots[k + 1].col && slots[k].row != slots[k + 1].row
      {
        if slots[i].col == slots[i + 1].col || slots[i].row == slots[i + 1].row {
          return false;
        }
        i := i + 1;
      }
      return true;
    }

    /** evaluateDirection. */
    method EvaluateDirection() returns (d: Direction)
      ensures d == Classify(slots)
    {
      var horizontal := IsHorizontalSequence();
      if horizontal {
        return RowDirection;
      }
      var vertical := IsVerticalSequence();
      if vertical {
        return ColumnDirection;
      }
      var diagonal := IsDiagonalSequence();
      if diagonal {
        return DiagonalDirection(slots);
      }
      return Indeterminate;
    }

    /**
     * DropSequence.evaluate: classifies the direction, then (determineBeforeAfter)
     * finds the neighbours before and after and whether a drop fits into each.
     * An INDETERMINATE direction fails after it has been stored.
     */
    method Evaluate(cells: seq<Slot>) returns (r: Outcome)
      requires Valid() && |cells| == NumberOfCells
      modifies this
      ensures Valid() && slots == old(slots) && direction == Classify(slots)
      ensures direction == Indeterminate ==> r == Fail(DirectionUnknown)
      ensures direction == Indeterminate ==> before == old(before) && after == old(after)
      ensures direction == Indeterminate ==>
        allowsDropBefore == old(allowsDropBefore) && allowsDropAfter == old(allowsDropAfter)
      ensures direction != Indeterminate ==> r == Pass && Evaluated(cells)
    {
      direction := EvaluateDirection();
      if direction == Indeterminate {
        return Fail(DirectionUnknown);
      }
      before := BeforeOf(slots, direction);
      after := AfterOf(slots, direction);
      var isBeforeEmpty, isBeforeLowerMost := false, false;
      var isAfterEmpty, isAfterLowerMost := false, false;
      if before.Some? {
        isBeforeEmpty := At(cells, before.value).isEmpty;
        var below := Bottom(before.value);
        isBeforeLowerMost := below.None? || !At(cells, below.value).isEmpty;
      }
      if after.Some? {
        isAfterEmpty := At(cells, after.value).isEmpty;
        var below := Bottom(after.value);
        isAfterLowerMost := below.None? || !At(cells, below.value).isEmpty;
      }
      allowsDropBefore := isBeforeEmpty && isBeforeLowerMost;
      allowsDropAfter := isAfterEmpty && isAfterLowerMost;
      r := Pass;
    }

    /** The fields evaluate sets for the slots on a board snapshot. */
    ghost predicate Evaluated(cells: seq<Slot>)
      requires |cells| == NumberOfCells
      reads this
    {
      AllOnBoard(slots) &&
      direction == Classify(slots) &&
      before == BeforeOf(slots, direction) && after == AfterOf(slots, direction) &&
      allowsDropBefore == AllowsDrop(cells, before) && allowsDropAfter == AllowsDrop(cells, after)
    }

    /** getSlotBefore: the slot before, only while a drop fits into it. */
    function SlotBefore(): (q: Option<Pos>)
      reads this
      ensures q.Some? <==> before.Some? && allowsDropBefore
      ensures q.Some? ==> q == before
    {
      if before.Some? && allowsDropBefore then before else None
    }

    /** getSlotAfter: the slot after, only while a drop fits into it. */
    function SlotAfter(): (q: Option<Pos>)
      reads this
      ensures q.Some? <==> after.Some? && allowsDropAfter
      ensures q.Some? ==> q == after
    {
      if after.Some? && allowsDropAfter then after else None
    }

    /**
     * DropSequence.getTurn: the column key of the slot after or before the
     * sequence, whether or not a drop fits there; with both present the random
     * bit chooses (0: after).  Neither present dereferences null.
     */
    method GetTurn(bit: int) returns (turn: Result<string>)
      requires Valid() && 0 <= bit < 2
      ensures turn.Err? <==> before.None? && after.None?
      ensures turn.Err? ==> turn.error == NullSlot
      ensures after.Some? && (before.None? || bit == 0) ==> turn == Ok(Key(after.value.col))
      ensures before.Some? && (after.None? || bit == 1) ==> turn == Ok(Key(before.value.col))
    {
      if after.Some? && before.Some? {
        turn := if bit == 0 then Ok(Key(after.value.col)) else Ok(Key(before.value.col));
      } else if after.Some? && before.None? {
        turn := Ok(Key(after.value.col));
      } else if before.None? {
        turn := Err(NullSlot);
      } else {
        turn := Ok(Key(before.value.col));
      }
    }
  }

  /** Inclusion of sequences is reflexive and transitive. */
  lemma SubSequencePreorder(a: DropSequence, b: DropSequence, c: DropSequence)
    ensures a.IsSubSequenceOf(a)
    ensures a.IsSubSequenceOf(b) && b.IsSubSequenceOf(c) ==> a.IsSubSequenceOf(c)
  {
    if a.IsSubSequenceOf(b) && b.IsSubSequenceOf(c) {
      forall i | 0 <= i < |a.slots|
        ensures a.slots[i] in c.slots
      {
        var j :| 0 <= j < |b.slots| && b.slots[j] == a.slots[i];
      }
    }
  }
}
