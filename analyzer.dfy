/**
 * GameAnalyzer: the static helpers the computer players use to read the board.
 * They collect runs of two or three drops as evaluated DropSequence objects,
 * filter them, find lone drops, and pick opening and fallback columns.  Each
 * list they build is proved equal, object by object, to its specification in
 * module Runs.
 */
module Analyzer {
  import opened Outcomes
  import opened Enumerations
  import opened Geometry
  import opened Slots
  import opened Lines
  import opened WinDetection
  import opened Board
  import opened DropSequences
  import opened Runs
  import opened SingleDrops
  import opened Status
  import opened Games

  const OpeningTurnCount := 4

  /** The objects hold exactly the runs `rs`, in order. */
  ghost predicate SlotsAre(ds: seq<DropSequence>, rs: seq<seq<Pos>>)
    reads ds
  {
    |ds| == |rs| && forall k :: 0 <= k < |ds| ==> ds[k].slots == rs[k]
  }

  /** Every object is a well-formed sequence evaluated on the snapshot. */
  ghost predicate AllEvaluated(ds: seq<DropSequence>, cells: seq<Slot>)
    requires |cells| == NumberOfCells
    reads ds
  {
    forall k :: 0 <= k < |ds| ==> ds[k].Valid() && ds[k].Evaluated(cells)
  }

  /** Appending an evaluated sequence to evaluated sequences keeps them evaluated and adds its run. */
  lemma Extend(ds: seq<DropSequence>, rs: seq<seq<Pos>>, cells: seq<Slot>, d: DropSequence)
    requires |cells| == NumberOfCells
    requires SlotsAre(ds, rs) && AllEvaluated(ds, cells)
    requires d.Valid() && d.Evaluated(cells)
    ensures SlotsAre(ds + [d], rs + [d.slots]) && AllEvaluated(ds + [d], cells)
  {
  }

  /** The lines of a board in the order getAll lists them. */
  function LinesOf(board: GameBoard): seq<Line>
  {
    board.columns + board.rows + board.diagonals
  }

  /** isOpeningTurn: fewer than four turns are completed. */
  predicate IsOpeningTurn(game: Game)
    requires game.status.Some?
    reads game
  {
    game.status.value.turnsCompleted < OpeningTurnCount
  }

  /** getRandomCenterColumn: a random column from "B" to "F" (ids 2 up to the number of columns minus one). */
  method GetRandomCenterColumn(board: GameBoard) returns (key: string)
    requires board.Valid()
    ensures exists id :: 2 <= id <= NumberOfColumns - 1 && key == Key(id)
  {
    var columnOffset := 2;
    var n :| 0 <= n < |board.columns| - columnOffset;
    var columnId := columnOffset + n;
    var column := board.ColumnWithId(columnId);
    key := Key(column.value);
  }

  /** createOpeningTurn: a centre column during the first four turns, None later. */
  method CreateOpeningTurn(game: Game) returns (turn: Option<string>)
    requires game.board.Valid() && game.status.Some?
    ensures turn.Some? <==> IsOpeningTurn(game)
    ensures turn.Some? ==> exists id :: 2 <= id <= NumberOfColumns - 1 && turn.value == Key(id)
  {
    var completedTurns := game.status.value.turnsCompleted;
    if completedTurns < OpeningTurnCount {
      var key := GetRandomCenterColumn(game.board);
      return Some(key);
    }
    return None;
  }

  /** Column `c` has an empty slot and no column left of it has one. */
  predicate LeftmostWithRoom(cells: seq<Slot>, c: int)
    requires |cells| == NumberOfCells && 1 <= c <= NumberOfColumns
  {
    HasRoom(cells, c) && forall c' :: 1 <= c' < c ==> !HasRoom(cells, c')
  }

  /** findColumnWithEmptySlots: the key of the leftmost column with an empty slot, None on a full board. */
  method FindColumnWithEmptySlots(board: GameBoard) returns (key: Option<string>)
    requires board.Valid()
    ensures key.None? <==> forall c :: 1 <= c <= NumberOfColumns ==> !HasRoom(board.slots[..], c)
    ensures key.Some? ==> exists c :: 1 <= c <= NumberOfColumns && key.value == Key(c) && LeftmostWithRoom(board.slots[..], c)
  {
    var cells := board.slots[..];
    for i := 0 to |board.columns|
      invariant forall c :: 1 <= c <= i ==> !HasRoom(cells, c)
    {
      var column := board.columns[i];
      assert column.id == i + 1;
      var has := HasEmptySlots(cells, column.id);
      if has {
        assert LeftmostWithRoom(cells, i + 1) && HasRoom(board.slots[..], i + 1);
        return Some(Key(column.id));
      }
    }
    return None;
  }

  /**
   * searchDropSequence: scans the line with a do-while loop for the first start
   * whose window of `length` slots holds drops of the colour, collects those
   * slots in a new sequence and evaluates it.  A length other than two or three
   * gives an empty sequence that is not evaluated.
   */
  method SearchDropSequence(cells: seq<Slot>, coll: Line, color: DropColor, length: int)
    returns (sequence: DropSequence)
    requires |cells| == NumberOfCells && LineShape(coll)
    ensures fresh(sequence) && sequence.Valid()
    ensures sequence.slots == Run(cells, coll.slots, color, length)
    ensures MinLength <= length <= 3 ==> sequence.Evaluated(cells) && sequence.direction != Indeterminate
    ensures !(MinLength <= length <= 3) ==> sequence.direction == Indeterminate && sequence.before.None?
    ensures !(MinLength <= length <= 3) ==> sequence.after.None? && !sequence.allowsDropBefore && !sequence.allowsDropAfter
  {
    var slots := AsList(cells, coll.slots);
    sequence := new DropSequence();
    if length < MinLength || length > 3 {
      return;
    }
    ShapedDistinct(coll);
    ScanLine(sequence, slots, coll.slots, color, length);
    RunShape(cells, coll, color, length);
    var outcome := sequence.Evaluate(cells);
  }

  /** The do-while loop of searchDropSequence: tries each start until one opens or too few slots remain. */
  method ScanLine(sequence: DropSequence, slots: seq<Slot>, line: seq<Pos>, color: DropColor, length: int)
    requires sequence.Valid() && sequence.slots == []
    requires |slots| == |line| && AllOnBoard(line) && Distinct(line)
    requires MinLength <= length <= 3 && length <= |line|
    modifies sequence
    ensures sequence.Valid()
    ensures sequence.slots == match FirstOpen(slots, color, length, 0)
      case None => []
      case Some(i) => Window(line, i, length)
  {
    var test := false;
    var i := 0;
    while true
      invariant 0 <= i <= |slots| - length
      invariant sequence.Valid() && sequence.slots == []
      invariant FirstOpen(slots, color, length, i) == FirstOpen(slots, color, length, 0)
      decreases |slots| - i
    {
      test := TryStart(sequence, slots, line, i, color, length);
      i := i + 1;
      if test || i >= |slots| - (length - 1) {
        break;
      }
    }
  }

  /**
   * One pass of the do-while loop of searchDropSequence, at start `i`: when the
   * slot there has the colour, adds it and the following slots of the window
   * while they agree with it, and clears the sequence again if one does not.
   */
  method TryStart(sequence: DropSequence, slots: seq<Slot>, line: seq<Pos>, i: int, color: DropColor, length: int)
    returns (test: bool)
    requires sequence.Valid() && sequence.slots == []
    requires |slots| == |line| && AllOnBoard(line) && Distinct(line)
    requires 0 <= i && i + length <= |line| && MinLength <= length <= 3
    modifies sequence
    ensures sequence.Valid()
    ensures test <==> Opens(slots, i, color, length)
    ensures test ==> sequence.slots == line[i..i + length]
    ensures !test ==> sequence.slots == []
  {
    test := true;
    var current := slots[i];
    if current.color == color {
      sequence.Add(line[i]);
      var j := i + 1;
      while test && j < i + length && j < |slots|
        invariant i + 1 <= j <= i + length
        invariant sequence.Valid() && |sequence.slots| == j - i
        invariant forall k :: 0 <= k < j - i ==> sequence.slots[k] == line[i + k]
        invariant test <==> forall m :: i < m < j ==> Agree(current, slots[m])
      {
        var next := slots[j];
        FreshInWindow(line, i, j, sequence.slots);
        ghost var previous := sequence.slots;
        sequence.Add(line[j]);
        assert sequence.slots == previous + [line[j]];
        test := test && !current.isEmpty && !next.isEmpty && current.color == next.color;
        j := j + 1;
      }
      if !test {
        sequence.Clear();
      } else {
        assert sequence.slots == line[i..i + length];
      }
    } else {
      test := false;
    }
  }

  /** The slot at `j` of a line of distinct slots is not among the slots from `i` up to `j`. */
  lemma FreshInWindow(line: seq<Pos>, i: int, j: int, window: seq<Pos>)
    requires Distinct(line) && 0 <= i <= j < |line|
    requires |window| == j - i && forall k :: 0 <= k < j - i ==> window[k] == line[i + k]
    ensures line[j] !in window
  {
    forall k | 0 <= k < j - i
      ensures window[k] != line[j]
    {
      assert line[i + k] != line[j];
    }
  }

  /** searchDropSequences: one sequence per line of the board whose run has the length asked for. */
  method SearchDropSequences(board: GameBoard, color: DropColor, length: int) returns (sequences: seq<DropSequence>)
    requires board.Valid()
    ensures SlotsAre(sequences, LineRuns(board.slots[..], LinesOf(board), color, length))
    ensures AllEvaluated(sequences, board.slots[..])
  {
    var all := board.GetAll();
    sequences := SearchLines(board.slots[..], all, color, length);
  }

  /** The loop of searchDropSequences over the lines `lines` of the snapshot `cells`. */
  method SearchLines(cells: seq<Slot>, lines: seq<Line>, color: DropColor, length: int) returns (sequences: seq<DropSequence>)
    requires |cells| == NumberOfCells && LinesShaped(lines)
    ensures SlotsAre(sequences, LineRuns(cells, lines, color, length))
    ensures AllEvaluated(sequences, cells)
  {
    sequences := [];
    for i := 0 to |lines|
      invariant SlotsAre(sequences, LineRuns(cells, lines[..i], color, length))
      invariant AllEvaluated(sequences, cells)
    {
      var sequence := SearchDropSequence(cells, lines[i], color, length);
      LineRunsStep(cells, lines, i, color, length);
      ghost var found := LineRuns(cells, lines[..i], color, length);
      if |sequence.slots| > 0 && |sequence.slots| == length {
        Extend(sequences, found, cells, sequence);
        sequences := sequences + [sequence];
      }
    }
    assert lines[..|lines|] == lines;
  }

  /** getAllSequences: the runs of three, then every run of two that lies in no run of three. */
  method GetAllSequences(board: GameBoard, color: DropColor) returns (sequences: seq<DropSequence>)
    requires board.Valid()
    ensures SlotsAre(sequences, AllRuns(board.slots[..], LinesOf(board), color))
    ensures AllEvaluated(sequences, board.slots[..])
  {
    var seqOfThree := SearchDropSequences(board, color, 3);
    var seqOfTwo := SearchDropSequences(board, color, 2);
    sequences := AddUncovered(seqOfThree, seqOfTwo, board.slots[..],
      LineRuns(board.slots[..], LinesOf(board), color, 3), LineRuns(board.slots[..], LinesOf(board), color, 2));
  }

  /** The loop of getAllSequences: appends to the runs of three each run of two none of them covers. */
  method AddUncovered(seqOfThree: seq<DropSequence>, seqOfTwo: seq<DropSequence>,
                      ghost cells: seq<Slot>, ghost threes: seq<seq<Pos>>, ghost twos: seq<seq<Pos>>)
    returns (sequences: seq<DropSequence>)
    requires |cells| == NumberOfCells
    requires SlotsAre(seqOfThree, threes) && AllEvaluated(seqOfThree, cells)
    requires SlotsAre(seqOfTwo, twos) && AllEvaluated(seqOfTwo, cells)
    ensures SlotsAre(sequences, threes + Uncovered(twos, threes))
    ensures AllEvaluated(sequences, cells)
  {
    sequences := seqOfThree;
    for t := 0 to |seqOfTwo|
      invariant SlotsAre(sequences, threes + Uncovered(twos[..t], threes))
      invariant AllEvaluated(sequences, cells)
    {
      var dsTwo := seqOfTwo[t];
      var isSubSequence := IsCovered(dsTwo, seqOfThree, threes);
      UncoveredStep(twos, threes, t);
      if !isSubSequence {
        Extend(sequences, threes + Uncovered(twos[..t], threes), cells, dsTwo);
        assert threes + Uncovered(twos[..t], threes) + [twos[t]] == threes + (Uncovered(twos[..t], threes) + [twos[t]]);
        sequences := sequences + [dsTwo];
      }
    }
    assert twos[..|seqOfTwo|] == twos;
  }

  /** The inner loop of getAllSequences: some sequence of `ds` holds every slot of `d`. */
  method IsCovered(d: DropSequence, ds: seq<DropSequence>, ghost rs: seq<seq<Pos>>) returns (isSubSequence: bool)
    requires SlotsAre(ds, rs)
    ensures isSubSequence <==> Covered(d.slots, rs)
  {
    isSubSequence := false;
    var seqCounter := 0;
    while !isSubSequence && seqCounter < |ds|
      invariant 0 <= seqCounter <= |ds|
      invariant isSubSequence <==> exists k :: 0 <= k < seqCounter && Within(d.slots, rs[k])
    {
      isSubSequence := d.IsSubSequenceOf(ds[seqCounter]);
      seqCounter := seqCounter + 1;
    }
  }

  /** filterPossibleSequences: the sequences with a slot before or after them that can take a drop. */
  method FilterPossibleSequences(board: GameBoard, color: DropColor) returns (possibleSequences: seq<DropSequence>)
    requires board.Valid()
    ensures SlotsAre(possibleSequences, PossibleRuns(board.slots[..], LinesOf(board), color))
    ensures AllEvaluated(possibleSequences, board.slots[..])
  {
    var all := GetAllSequences(board, color);
    possibleSequences := KeepExtendable(all, board.slots[..], AllRuns(board.slots[..], LinesOf(board), color));
  }

  /** The loop of filterPossibleSequences. */
  method KeepExtendable(all: seq<DropSequence>, ghost cells: seq<Slot>, ghost runs: seq<seq<Pos>>)
    returns (possibleSequences: seq<DropSequence>)
    requires |cells| == NumberOfCells && forall k :: 0 <= k < |runs| ==> AllOnBoard(runs[k])
    requires SlotsAre(all, runs) && AllEvaluated(all, cells)
    ensures SlotsAre(possibleSequences, ExtendableRuns(cells, runs))
    ensures AllEvaluated(possibleSequences, cells)
  {
    possibleSequences := [];
    for k := 0 to |all|
      invariant SlotsAre(possibleSequences, ExtendableRuns(cells, runs[..k]))
      invariant AllEvaluated(possibleSequences, cells)
    {
      var sequence := all[k];
      ExtendableStep(cells, runs, k);
      if sequence.SlotBefore() != None || sequence.SlotAfter() != None {
        Extend(possibleSequences, ExtendableRuns(cells, runs[..k]), cells, sequence);
        possibleSequences := possibleSequences + [sequence];
      }
    }
    assert runs[..|all|] == runs;
  }

  /**
   * getSequencesByDirection: for INDETERMINATE all possible sequences, for any
   * other direction those of that direction (the possible sequences are
   * computed a second time for the filter).
   */
  method GetSequencesByDirection(board: GameBoard, color: DropColor, direction: Direction)
    returns (directionSequences: seq<DropSequence>)
    requires board.Valid()
    ensures SlotsAre(directionSequences, DirectedRuns(board.slots[..], LinesOf(board), color, direction))
    ensures AllEvaluated(directionSequences, board.slots[..])
  {
    var possibleSequences := FilterPossibleSequences(board, color);
    if direction == Indeterminate {
      return possibleSequences;
    }
    var again := FilterPossibleSequences(board, color);
    directionSequences := KeepDirection(again, board.slots[..], PossibleRuns(board.slots[..], LinesOf(board), color), direction);
  }

  /** The loop of getSequencesByDirection. */
  method KeepDirection(all: seq<DropSequence>, ghost cells: seq<Slot>, ghost runs: seq<seq<Pos>>, direction: Direction)
    returns (directionSequences: seq<DropSequence>)
    requires |cells| == NumberOfCells
    requires SlotsAre(all, runs) && AllEvaluated(all, cells)
    ensures SlotsAre(directionSequences, RunsOfDirection(runs, direction))
    ensures AllEvaluated(directionSequences, cells)
  {
    directionSequences := [];
    for k := 0 to |all|
      invariant SlotsAre(directionSequences, RunsOfDirection(runs[..k], direction))
      invariant AllEvaluated(directionSequences, cells)
    {
      var sequence := all[k];
      RunsOfDirectionStep(runs, k, direction);
      if sequence.direction == direction {
        Extend(directionSequences, RunsOfDirection(runs[..k], direction), cells, sequence);
        directionSequences := directionSequences + [sequence];
      }
    }
    assert runs[..|all|] == runs;
  }

  /** Each object is a well-formed single of the colour. */
  ghost predicate Members(cells: seq<Slot>, runs: seq<seq<Pos>>, color: DropColor, singles: seq<SingleDropSequence>)
    requires |cells| == NumberOfCells
    reads singles
  {
    forall k :: 0 <= k < |singles| ==> singles[k].Valid() && IsSingle(cells, runs, color, singles[k].slot)
  }

  /** No slot appears twice. */
  ghost predicate DistinctSlots(singles: seq<SingleDropSequence>)
    reads singles
  {
    forall a, b :: 0 <= a < b < |singles| ==> singles[a].slot != singles[b].slot
  }

  /** The keys of the table are exactly the slot keys of the objects. */
  ghost predicate Indexed(table: map<string, SingleDropSequence>, singles: seq<SingleDropSequence>)
    reads singles
  {
    (forall key :: key in table ==> exists k :: 0 <= k < |singles| && OnBoard(singles[k].slot) && SlotKey(singles[k].slot) == key) &&
    (forall k :: 0 <= k < |singles| ==> OnBoard(singles[k].slot) && SlotKey(singles[k].slot) in table)
  }

  /** The singles found so far: drops of the colour in no run, one per slot, each under its slot key in the table. */
  ghost predicate Collected(cells: seq<Slot>, runs: seq<seq<Pos>>, color: DropColor,
                            table: map<string, SingleDropSequence>, singles: seq<SingleDropSequence>)
    requires |cells| == NumberOfCells
    reads singles
  {
    Members(cells, runs, color, singles) && DistinctSlots(singles) && Indexed(table, singles)
  }

  /**
   * getSingleSequences: one SingleDropSequence per drop of the colour that lies
   * in no sequence of getAllSequences, keyed by the slot key so that no slot
   * appears twice.  The lines are walked in the order of getAll; the result
   * lists the singles in the order they were found.
   */
  method GetSingleSequences(board: GameBoard, color: DropColor) returns (singles: seq<SingleDropSequence>)
    requires board.Valid()
    ensures forall k :: 0 <= k < |singles| ==>
      singles[k].Valid() && IsSingle(board.slots[..], AllRuns(board.slots[..], LinesOf(board), color), color, singles[k].slot)
    ensures forall a, b :: 0 <= a < b < |singles| ==> singles[a].slot != singles[b].slot
    ensures forall p :: OnBoard(p) && IsSingle(board.slots[..], AllRuns(board.slots[..], LinesOf(board), color), color, p) ==>
      exists k :: 0 <= k < |singles| && singles[k].slot == p
  {
    var all := GetAllSequences(board, color);
    var lines := board.GetAll();
    ghost var cells := board.slots[..];
    ghost var runs := AllRuns(cells, lines, color);
    singles := CollectSingles(board.slots[..], lines, color, all, runs);
    forall p | OnBoard(p) && IsSingle(cells, runs, color, p)
      ensures exists k :: 0 <= k < |singles| && singles[k].slot == p
    {
      ColumnHolds(p);
      assert lines[p.col - 1] == board.columns[p.col - 1];
    }
  }

  /** Every single among the first `n` slots of `ps` has its slot key in the table. */
  ghost predicate Recorded(cells: seq<Slot>, runs: seq<seq<Pos>>, color: DropColor,
                           table: map<string, SingleDropSequence>, ps: seq<Pos>, n: int)
    requires |cells| == NumberOfCells
  {
    forall b :: 0 <= b < n && b < |ps| && OnBoard(ps[b]) && IsSingle(cells, runs, color, ps[b]) ==> SlotKey(ps[b]) in table
  }

  /** A table that only grows keeps every slot it recorded. */
  lemma RecordedGrows(cells: seq<Slot>, runs: seq<seq<Pos>>, color: DropColor,
                      table: map<string, SingleDropSequence>, table': map<string, SingleDropSequence>, ps: seq<Pos>, n: int)
    requires |cells| == NumberOfCells
    requires Recorded(cells, runs, color, table, ps, n) && table.Keys <= table'.Keys
    ensures Recorded(cells, runs, color, table', ps, n)
  {
  }

  /** One more slot is recorded once its key, if it is a single, is in a table that only grew. */
  lemma RecordedNext(cells: seq<Slot>, runs: seq<seq<Pos>>, color: DropColor,
                     table: map<string, SingleDropSequence>, table': map<string, SingleDropSequence>, ps: seq<Pos>, n: int)
    requires |cells| == NumberOfCells && 0 <= n < |ps| && OnBoard(ps[n])
    requires Recorded(cells, runs, color, table, ps, n) && table.Keys <= table'.Keys
    requires IsSingle(cells, runs, color, ps[n]) ==> SlotKey(ps[n]) in table'
    ensures Recorded(cells, runs, color, table', ps, n + 1)
  {
  }

  /** A new single under a new key keeps the collection well formed. */
  lemma CollectedAdd(cells: seq<Slot>, runs: seq<seq<Pos>>, color: DropColor,
                     table: map<string, SingleDropSequence>, singles: seq<SingleDropSequence>, single: SingleDropSequence)
    requires |cells| == NumberOfCells && Collected(cells, runs, color, table, singles)
    requires single.Valid() && IsSingle(cells, runs, color, single.slot) && SlotKey(single.slot) !in table
    ensures Collected(cells, runs, color, table[SlotKey(single.slot) := single], singles + [single])
  {
    var singles' := singles + [single];
    assert Members(cells, runs, color, singles') by {
      forall k | 0 <= k < |singles'|
        ensures singles'[k].Valid() && IsSingle(cells, runs, color, singles'[k].slot)
      {
        if k < |singles| {
          assert singles'[k] == singles[k];
        }
      }
    }
    DistinctAdd(table, singles, single);
    IndexedAdd(table, singles, single);
  }

  /** A slot whose key is not in the table is not among the objects yet. */
  lemma DistinctAdd(table: map<string, SingleDropSequence>, singles: seq<SingleDropSequence>, single: SingleDropSequence)
    requires DistinctSlots(singles) && Indexed(table, singles)
    requires OnBoard(single.slot) && SlotKey(single.slot) !in table
    ensures DistinctSlots(singles + [single])
  {
    var singles' := singles + [single];
    forall a, b | 0 <= a < b < |singles'|
      ensures singles'[a].slot != singles'[b].slot
    {
      assert singles'[a] == singles[a];
      if b == |singles| {
        assert SlotKey(singles[a].slot) in table;
      } else {
        assert singles'[b] == singles[b];
      }
    }
  }

  /** Adding the object under its slot key keeps table and objects in step. */
  lemma IndexedAdd(table: map<string, SingleDropSequence>, singles: seq<SingleDropSequence>, single: SingleDropSequence)
    requires Indexed(table, singles) && OnBoard(single.slot)
    ensures Indexed(table[SlotKey(single.slot) := single], singles + [single])
  {
    var key := SlotKey(single.slot);
    var table', singles' := table[key := single], singles + [single];
    forall key' | key' in table'
      ensures exists k :: 0 <= k < |singles'| && OnBoard(singles'[k].slot) && SlotKey(singles'[k].slot) == key'
    {
      if key' == key {
        assert SlotKey(singles'[|singles|].slot) == key';
      } else {
        var k :| 0 <= k < |singles| && OnBoard(singles[k].slot) && SlotKey(singles[k].slot) == key';
        assert singles'[k] == singles[k];
      }
    }
    forall k | 0 <= k < |singles'|
      ensures OnBoard(singles'[k].slot) && SlotKey(singles'[k].slot) in table'
    {
      if k < |singles| {
        assert singles'[k] == singles[k];
      }
    }
  }

  /** The singles on the first `n` lines are recorded. */
  ghost predicate RecordedLines(cells: seq<Slot>, runs: seq<seq<Pos>>, color: DropColor,
                                table: map<string, SingleDropSequence>, lines: seq<Line>, n: int)
    requires |cells| == NumberOfCells && 0 <= n <= |lines|
  {
    forall a :: 0 <= a < n ==> Recorded(cells, runs, color, table, lines[a].slots, |lines[a].slots|)
  }

  /** Recording the singles of one more line with a table that only grew. */
  lemma RecordedLinesStep(cells: seq<Slot>, runs: seq<seq<Pos>>, color: DropColor,
                          table: map<string, SingleDropSequence>, table': map<string, SingleDropSequence>, lines: seq<Line>, n: int)
    requires |cells| == NumberOfCells && 0 <= n < |lines|
    requires RecordedLines(cells, runs, color, table, lines, n) && table.Keys <= table'.Keys
    requires Recorded(cells, runs, color, table', lines[n].slots, |lines[n].slots|)
    ensures RecordedLines(cells, runs, color, table', lines, n + 1)
  {
    forall a | 0 <= a < n
      ensures Recorded(cells, runs, color, table', lines[a].slots, |lines[a].slots|)
    {
      RecordedGrows(cells, runs, color, table, table', lines[a].slots, |lines[a].slots|);
    }
  }

  /** A recorded single is among the objects. */
  lemma RecordedFound(cells: seq<Slot>, runs: seq<seq<Pos>>, color: DropColor,
                      table: map<string, SingleDropSequence>, singles: seq<SingleDropSequence>, ps: seq<Pos>, b: int)
    requires |cells| == NumberOfCells && 0 <= b < |ps| && OnBoard(ps[b])
    requires Indexed(table, singles) && Recorded(cells, runs, color, table, ps, |ps|) && IsSingle(cells, runs, color, ps[b])
    ensures exists k :: 0 <= k < |singles| && singles[k].slot == ps[b]
  {
    var k :| 0 <= k < |singles| && OnBoard(singles[k].slot) && SlotKey(singles[k].slot) == SlotKey(ps[b]);
    SlotKeyInjective(singles[k].slot, ps[b]);
  }

  /** The two loops of getSingleSequences over the lines and their slots. */
  method CollectSingles(cells: seq<Slot>, lines: seq<Line>, color: DropColor, all: seq<DropSequence>, ghost runs: seq<seq<Pos>>)
    returns (singles: seq<SingleDropSequence>)
    requires |cells| == NumberOfCells && LinesShaped(lines)
    requires SlotsAre(all, runs)
    ensures forall k :: 0 <= k < |singles| ==> singles[k].Valid() && IsSingle(cells, runs, color, singles[k].slot)
    ensures forall a, b :: 0 <= a < b < |singles| ==> singles[a].slot != singles[b].slot
    ensures forall a, b :: 0 <= a < |lines| && 0 <= b < |lines[a].slots| && IsSingle(cells, runs, color, lines[a].slots[b]) ==>
      exists k :: 0 <= k < |singles| && singles[k].slot == lines[a].slots[b]
  {
    var table: map<string, SingleDropSequence> := map[];
    singles := [];
    for li := 0 to |lines|
      invariant Collected(cells, runs, color, table, singles)
      invariant RecordedLines(cells, runs, color, table, lines, li)
    {
      ghost var before := table;
      table, singles := CollectFromLine(cells, color, all, runs, lines[li].slots, table, singles);
      RecordedLinesStep(cells, runs, color, before, table, lines, li);
    }
    forall a, b | 0 <= a < |lines| && 0 <= b < |lines[a].slots| && IsSingle(cells, runs, color, lines[a].slots[b])
      ensures exists k :: 0 <= k < |singles| && singles[k].slot == lines[a].slots[b]
    {
      assert Recorded(cells, runs, color, table, lines[a].slots, |lines[a].slots|);
      RecordedFound(cells, runs, color, table, singles, lines[a].slots, b);
    }
  }

  /** The inner loop of getSingleSequences over the slots `ps` of one line. */
  method CollectFromLine(cells: seq<Slot>, color: DropColor, all: seq<DropSequence>, ghost runs: seq<seq<Pos>>,
                         ps: seq<Pos>, table: map<string, SingleDropSequence>, singles: seq<SingleDropSequence>)
    returns (table': map<string, SingleDropSequence>, singles': seq<SingleDropSequence>)
    requires |cells| == NumberOfCells && AllOnBoard(ps) && SlotsAre(all, runs)
    requires Collected(cells, runs, color, table, singles)
    ensures Collected(cells, runs, color, table', singles')
    ensures table.Keys <= table'.Keys
    ensures Recorded(cells, runs, color, table', ps, |ps|)
  {
    table', singles' := table, singles;
    for si := 0 to |ps|
      invariant Collected(cells, runs, color, table', singles')
      invariant table.Keys <= table'.Keys
      invariant Recorded(cells, runs, color, table', ps, si)
    {
      ghost var previous := table';
      table', singles' := ConsiderSlot(cells, color, all, runs, ps[si], table', singles');
      RecordedNext(cells, runs, color, previous, table', ps, si);
    }
  }

  /** One pass of the inner loop of getSingleSequences, at the slot `p`. */
  method ConsiderSlot(cells: seq<Slot>, color: DropColor, all: seq<DropSequence>, ghost runs: seq<seq<Pos>>,
                      p: Pos, table: map<string, SingleDropSequence>, singles: seq<SingleDropSequence>)
    returns (table': map<string, SingleDropSequence>, singles': seq<SingleDropSequence>)
    requires |cells| == NumberOfCells && OnBoard(p) && SlotsAre(all, runs)
    requires Collected(cells, runs, color, table, singles)
    ensures Collected(cells, runs, color, table', singles')
    ensures table.Keys <= table'.Keys
    ensures IsSingle(cells, runs, color, p) ==> SlotKey(p) in table'
  {
    table', singles' := table, singles;
    var slot := cells[Index(p)];
    if !slot.isEmpty && slot.color == color {
      var single := new SingleDropSequence(p);
      var isSingle := true;
      var counter := 0;
      while isSingle && counter < |all|
        invariant 0 <= counter <= |all|
        invariant isSingle <==> forall k :: 0 <= k < counter ==> !Within([p], runs[k])
      {
        var next := all[counter];
        if single.IsSubSequenceOf(next) {
          isSingle := false;
        }
        counter := counter + 1;
      }
      var key := SlotKey(p);
      if isSingle && key !in table {
        CollectedAdd(cells, runs, color, table, singles, single);
        table' := table[key := single];
        singles' := singles + [single];
      }
    }
  }
}
