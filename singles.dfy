/**
 * SingleDropSequence: a lone drop and its eight neighbours.  Its turn is a
 * random neighbour a drop could be set into.  The subclass is modelled as a
 * class of its own holding the members it overrides or uses.
 */
module SingleDrops {
  import opened Outcomes
  import opened Enumerations
  import opened Geometry
  import opened Slots
  import opened DropSequences
  import opened Runs
  import opened Board

  class SingleDropSequence {
    const slot: Pos
    /** The inherited list of slots; the constructor adds the one slot. */
    var slots: seq<Pos>
    const neighbours: seq<Option<Pos>>

    ghost predicate Valid()
      reads this
    {
      OnBoard(slot) && slots == [slot] && neighbours == Neighbours(slot)
    }

    /** Holds the slot and searches its eight neighbours. */
    constructor (slot: Pos)
      requires OnBoard(slot)
      ensures this.slot == slot && Valid()
    {
      this.slot := slot;
      slots := [slot];
      neighbours := Neighbours(slot);
    }

    /** The overridden length: always one, which is the length of the inherited list. */
    function Length(): (n: nat)
      reads this
      ensures Valid() ==> n == |slots|
    {
      1
    }

    /** The overridden getDirection. */
    function Direction(): Direction
    {
      Indeterminate
    }

    /** isSubSequenceOf, inherited: the other sequence holds the slot. */
    predicate IsSubSequenceOf(other: DropSequence)
      reads this, other
    {
      forall i :: 0 <= i < |slots| ==> slots[i] in other.slots
    }

    /** getPossibleSlots. */
    method GetPossibleSlots(cells: seq<Slot>) returns (candidates: seq<Pos>)
      requires Valid() && |cells| == NumberOfCells
      ensures candidates == Candidates(cells, neighbours)
    {
      candidates := [];
      for k := 0 to |neighbours|
        invariant candidates == Candidates(cells, neighbours[..k])
      {
        var neighbour := neighbours[k];
        assert neighbours[..k + 1][..k] == neighbours[..k];
        if neighbour.Some? && CanSetDrop(cells, neighbour.value) {
          candidates := candidates + [neighbour.value];
        }
      }
      assert neighbours[..|neighbours|] == neighbours;
    }

    /**
     * SingleDropSequence.getTurn: the column key of a random candidate, or None
     * when no neighbour can take a drop.  The random choice is nondeterministic.
     */
    method GetTurn(cells: seq<Slot>) returns (turn: Option<string>)
      requires Valid() && |cells| == NumberOfCells
      ensures turn.None? <==> Candidates(cells, neighbours) == []
      ensures turn.Some? ==> exists q :: q in Candidates(cells, neighbours) && turn.value == Key(q.col)
    {
      var candidates := GetPossibleSlots(cells);
      if |candidates| > 0 {
        var k :| 0 <= k < |candidates|;
        var candidate := candidates[k];
        turn := Some(Key(candidate.col));
      } else {
        turn := None;
      }
    }
  }

  /** A single is a subsequence of exactly the sequences that hold its slot. */
  lemma SingleSubSequence(s: SingleDropSequence, other: DropSequence)
    requires s.Valid()
    ensures s.IsSubSequenceOf(other) <==> s.slot in other.slots
  {
    assert s.slots[0] == s.slot;
  }

  /** A single's turn names a column that still has an empty slot, above the bottom row. */
  lemma SingleTurnHasRoom(cells: seq<Slot>, s: SingleDropSequence, q: Pos)
    requires s.Valid() && |cells| == NumberOfCells && q in Candidates(cells, s.neighbours)
    ensures OnBoard(q) && q.row >= 2 && HasRoom(cells, q.col)
  {
    var k :| 0 <= k < |Candidates(cells, s.neighbours)| && Candidates(cells, s.neighbours)[k] == q;
    CandidateHasRoom(cells, q);
  }
}
