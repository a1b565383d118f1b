/**
 * EasyCpuPlayer: the computer player of skill level EASY.  Outside the
 * opening it prefers to extend one of its own column sequences, then to block
 * one of the opponent's, then to build on one of its lone drops, and falls
 * back to the leftmost column that still has an empty slot.  Every random
 * choice of the source (new Random().nextInt) is a nondeterministic choice.
 */
module EasyCpu {
  import opened Outcomes
  import opened Enumerations
  import opened Geometry
  import opened Slots
  import opened Board
  import opened DropSequences
  import opened Runs
  import opened SingleDrops
  import opened Games
  import opened Players
  import opened Analyzer

  /** The column runs of `color` that a drop could extend: what gatherOwnSequences and gatherOpponentSequences list. */
  function ColumnRuns(board: GameBoard, color: DropColor): seq<seq<Pos>>
    requires board.Valid()
    reads board, board.slots
  {
    DirectedRuns(board.slots[..], LinesOf(board), color, ColumnDirection)
  }

  /** `key` names the column of one of the runs. */
  ghost predicate KeyOfRun(rs: seq<seq<Pos>>, key: string)
  {
    exists k :: 0 <= k < |rs| && |rs[k]| > 0 && OnBoard(rs[k][0]) && key == Key(rs[k][0].col)
  }

  /** `key` names a column that still has an empty slot. */
  ghost predicate OpenColumn(cells: seq<Slot>, key: string)
    requires |cells| == NumberOfCells
  {
    exists c :: 1 <= c <= NumberOfColumns && key == Key(c) && HasRoom(cells, c)
  }

  /** No column has an empty slot. */
  predicate NoRoom(cells: seq<Slot>)
    requires |cells| == NumberOfCells
  {
    forall c :: 1 <= c <= NumberOfColumns ==> !HasRoom(cells, c)
  }

  /** `key` names the column of a neighbour, able to take a drop, of one of the lone drops of `color`. */
  ghost predicate SingleTurn(cells: seq<Slot>, runs: seq<seq<Pos>>, color: DropColor, key: string)
    requires |cells| == NumberOfCells
  {
    exists p, q :: OnBoard(p) && IsSingle(cells, runs, color, p) && q in Candidates(cells, Neighbours(p)) && key == Key(q.col)
  }

  /** Some lone drop of `color` has a neighbour that can take a drop. */
  ghost predicate SingleCanMove(cells: seq<Slot>, runs: seq<seq<Pos>>, color: DropColor)
    requires |cells| == NumberOfCells
  {
    exists p :: OnBoard(p) && IsSingle(cells, runs, color, p) && Candidates(cells, Neighbours(p)) != []
  }

  /** There are lone drops of `color`, and each of them has a neighbour that can take a drop. */
  ghost predicate EverySingleCanMove(cells: seq<Slot>, runs: seq<seq<Pos>>, color: DropColor)
    requires |cells| == NumberOfCells
  {
    (exists p :: OnBoard(p) && IsSingle(cells, runs, color, p)) &&
    (forall p :: OnBoard(p) && IsSingle(cells, runs, color, p) ==> Candidates(cells, Neighbours(p)) != [])
  }

  /**
   * The turn after the third tier: a candidate column of a lone drop or the
   * leftmost column with room; the leftmost column when no lone drop has a
   * candidate, and a lone drop's candidate column when each lone drop has one.
   */
  ghost predicate SinglesTier(cells: seq<Slot>, runs: seq<seq<Pos>>, color: DropColor, turn: Option<string>)
    requires |cells| == NumberOfCells
  {
    (LeftmostTurn(cells, turn) || (turn.Some? && SingleTurn(cells, runs, color, turn.value))) &&
    (!SingleCanMove(cells, runs, color) ==> LeftmostTurn(cells, turn)) &&
    (EverySingleCanMove(cells, runs, color) ==> turn.Some? && SingleTurn(cells, runs, color, turn.value))
  }

  /** The answer of findColumnWithEmptySlots: the leftmost column with room, none on a full board. */
  ghost predicate LeftmostTurn(cells: seq<Slot>, turn: Option<string>)
    requires |cells| == NumberOfCells
  {
    (turn.None? <==> NoRoom(cells)) &&
    (turn.Some? ==> exists c :: 1 <= c <= NumberOfColumns && turn.value == Key(c) && LeftmostWithRoom(cells, c))
  }

  /** The runs of two or three drops of `color` on the board; a lone drop lies in none of them. */
  function SingleRuns(board: GameBoard, color: DropColor): seq<seq<Pos>>
    requires board.Valid()
    reads board, board.slots
  {
    AllRuns(board.slots[..], LinesOf(board), color)
  }

  /** gatherOwnSequences: the player's column sequences a drop could extend. */
  method GatherOwnSequences(player: Player, game: Game) returns (sequences: seq<DropSequence>)
    requires game.board.Valid()
    ensures SlotsAre(sequences, ColumnRuns(game.board, player.color))
    ensures AllEvaluated(sequences, game.board.slots[..])
  {
    var searchDirection := ColumnDirection;
    sequences := GetSequencesByDirection(game.board, player.color, searchDirection);
  }

  /** gatherOpponentSequences: the same for the other colour (RED for any colour but RED). */
  method GatherOpponentSequences(player: Player, game: Game) returns (sequences: seq<DropSequence>)
    requires game.board.Valid()
    ensures SlotsAre(sequences, ColumnRuns(game.board, Opponent(player.color)))
    ensures AllEvaluated(sequences, game.board.slots[..])
  {
    var opponentColor := if player.color == Red then Yellow else Red;
    var searchDirection := ColumnDirection;
    sequences := GetSequencesByDirection(game.board, opponentColor, searchDirection);
  }

  /**
   * A random sequence of a non-empty list of extendable column sequences and
   * its getTurn: always a key, the column of the sequence, which has room.
   */
  method TurnOfSequence(ds: seq<DropSequence>, ghost cells: seq<Slot>, ghost rs: seq<seq<Pos>>) returns (turn: Option<string>)
    requires |cells| == NumberOfCells && |ds| > 0
    requires SlotsAre(ds, rs) && AllEvaluated(ds, cells)
    requires forall k :: 0 <= k < |rs| ==> AllOnBoard(rs[k]) && |rs[k]| >= 1
    requires forall k :: 0 <= k < |rs| ==> Classify(rs[k]) == ColumnDirection && Extendable(cells, rs[k])
    ensures turn.Some? && KeyOfRun(rs, turn.value) && OpenColumn(cells, turn.value)
  {
    var i :| 0 <= i < |ds|;
    var bit :| 0 <= bit < 2;
    var selection := ds[i];
    ColumnRunHasRoom(cells, rs[i]);
    var t := selection.GetTurn(bit);
    assert t.Ok? && t.value == Key(rs[i][0].col);
    turn := Some(t.value);
  }

  /**
   * A random single and its getTurn: the column of one of the chosen single's
   * candidates, which has room; none only when the chosen single has no candidate.
   */
  method TurnOfSingle(singles: seq<SingleDropSequence>, cells: seq<Slot>) returns (turn: Option<string>)
    requires |cells| == NumberOfCells && |singles| > 0
    requires forall k :: 0 <= k < |singles| ==> singles[k].Valid()
    ensures turn.Some? ==> OpenColumn(cells, turn.value)
    ensures turn.Some? ==>
      exists k, q :: 0 <= k < |singles| && OnBoard(singles[k].slot) &&
        q in Candidates(cells, Neighbours(singles[k].slot)) && turn.value == Key(q.col)
    ensures turn.None? ==> exists k :: 0 <= k < |singles| && OnBoard(singles[k].slot) && Candidates(cells, Neighbours(singles[k].slot)) == []
  {
    var i :| 0 <= i < |singles|;
    var selection := singles[i];
    turn := selection.GetTurn(cells);
    if turn.Some? {
      var q :| q in Candidates(cells, selection.neighbours) && turn.value == Key(q.col);
      SingleTurnHasRoom(cells, selection, q);
    }
  }

  /**
   * determineNextTurn: a centre column in the opening; afterwards the column
   * of a random own extendable column sequence, else of a random opponent
   * one, else the turn of a random single, and the leftmost column with room
   * when that gives nothing.  Outside the opening the answer is a column with
   * room, and there is none exactly when the board is full.
   */
  method DetermineNextTurn(player: Player, game: Game) returns (turn: Option<string>)
    requires game.board.Valid() && game.status.Some?
    ensures IsOpeningTurn(game) ==> turn.Some? && exists id :: 2 <= id <= NumberOfColumns - 1 && turn.value == Key(id)
    ensures !IsOpeningTurn(game) ==> (turn.None? <==> NoRoom(game.board.slots[..]))
    ensures !IsOpeningTurn(game) && turn.Some? ==> OpenColumn(game.board.slots[..], turn.value)
    ensures !IsOpeningTurn(game) && ColumnRuns(game.board, player.color) != [] ==>
      turn.Some? && KeyOfRun(ColumnRuns(game.board, player.color), turn.value)
    ensures !IsOpeningTurn(game) && ColumnRuns(game.board, player.color) == [] && ColumnRuns(game.board, Opponent(player.color)) != [] ==>
      turn.Some? && KeyOfRun(ColumnRuns(game.board, Opponent(player.color)), turn.value)
    ensures !IsOpeningTurn(game) && ColumnRuns(game.board, player.color) == [] && ColumnRuns(game.board, Opponent(player.color)) == [] ==>
      SinglesTier(game.board.slots[..], SingleRuns(game.board, player.color), player.color, turn)
  {
    if IsOpeningTurn(game) {
      turn := CreateOpeningTurn(game);
    } else {
      turn := PlayingTurn(player, game);
    }
  }

  /**
   * What the turn of a random single says about all the lone drops: it is a
   * candidate column of one of them, and it exists when each of them has a candidate.
   */
  lemma SingleTier(cells: seq<Slot>, runs: seq<seq<Pos>>, color: DropColor, singles: seq<SingleDropSequence>, turn: Option<string>)
    requires |cells| == NumberOfCells
    requires forall k :: 0 <= k < |singles| ==> singles[k].Valid() && IsSingle(cells, runs, color, singles[k].slot)
    requires turn.Some? ==>
      exists k, q :: 0 <= k < |singles| && OnBoard(singles[k].slot) &&
        q in Candidates(cells, Neighbours(singles[k].slot)) && turn.value == Key(q.col)
    requires turn.None? ==> exists k :: 0 <= k < |singles| && OnBoard(singles[k].slot) && Candidates(cells, Neighbours(singles[k].slot)) == []
    ensures turn.Some? ==> SingleTurn(cells, runs, color, turn.value) && SingleCanMove(cells, runs, color)
    ensures EverySingleCanMove(cells, runs, color) ==> turn.Some?
  {
    if turn.Some? {
      var k, q :| 0 <= k < |singles| && OnBoard(singles[k].slot) &&
        q in Candidates(cells, Neighbours(singles[k].slot)) && turn.value == Key(q.col);
      assert IsSingle(cells, runs, color, singles[k].slot);
    } else {
      var k :| 0 <= k < |singles| && OnBoard(singles[k].slot) && Candidates(cells, Neighbours(singles[k].slot)) == [];
      assert IsSingle(cells, runs, color, singles[k].slot);
    }
  }

  /**
   * The third tier: the turn of a random single when there are singles, none
   * otherwise.  `singles` are exactly the lone drops of `color` on the board.
   */
  method TurnOfSingles(board: GameBoard, singles: seq<SingleDropSequence>, color: DropColor) returns (turn: Option<string>)
    requires board.Valid()
    requires forall k :: 0 <= k < |singles| ==>
      singles[k].Valid() && IsSingle(board.slots[..], AllRuns(board.slots[..], LinesOf(board), color), color, singles[k].slot)
    requires forall p :: OnBoard(p) && IsSingle(board.slots[..], AllRuns(board.slots[..], LinesOf(board), color), color, p) ==>
      exists k :: 0 <= k < |singles| && singles[k].slot == p
    ensures turn.Some? ==>
      SingleTurn(board.slots[..], SingleRuns(board, color), color, turn.value) && SingleCanMove(board.slots[..], SingleRuns(board, color), color)
    ensures turn.Some? ==> OpenColumn(board.slots[..], turn.value)
    ensures EverySingleCanMove(board.slots[..], SingleRuns(board, color), color) ==> turn.Some?
  {
    var cells := board.slots[..];
    ghost var runs := SingleRuns(board, color);
    turn := None;
    if |singles| > 0 {
      turn := TurnOfSingle(singles, cells);
      SingleTier(cells, runs, color, singles, turn);
    } else {
      assert forall p :: OnBoard(p) ==> !IsSingle(cells, runs, color, p);
    }
  }

  /** A single's turn, or the leftmost column with room when it gives none, meets the third tier. */
  lemma FallBack(cells: seq<Slot>, runs: seq<seq<Pos>>, color: DropColor, selected: Option<string>, turn: Option<string>)
    requires |cells| == NumberOfCells
    requires selected.Some? ==> SingleTurn(cells, runs, color, selected.value) && SingleCanMove(cells, runs, color)
    requires EverySingleCanMove(cells, runs, color) ==> selected.Some?
    requires selected.Some? ==> turn == selected
    requires selected.None? ==> LeftmostTurn(cells, turn)
    ensures SinglesTier(cells, runs, color, turn)
  {
  }

  /** determineNextTurn after the opening. */
  method PlayingTurn(player: Player, game: Game) returns (turn: Option<string>)
    requires game.board.Valid()
    ensures turn.None? <==> NoRoom(game.board.slots[..])
    ensures turn.Some? ==> OpenColumn(game.board.slots[..], turn.value)
    ensures ColumnRuns(game.board, player.color) != [] ==>
      turn.Some? && KeyOfRun(ColumnRuns(game.board, player.color), turn.value)
    ensures ColumnRuns(game.board, player.color) == [] && ColumnRuns(game.board, Opponent(player.color)) != [] ==>
      turn.Some? && KeyOfRun(ColumnRuns(game.board, Opponent(player.color)), turn.value)
    ensures ColumnRuns(game.board, player.color) == [] && ColumnRuns(game.board, Opponent(player.color)) == [] ==>
      SinglesTier(game.board.slots[..], SingleRuns(game.board, player.color), player.color, turn)
  {
    var board := game.board;
    var own := player.color;
    var ownSequences := GatherOwnSequences(player, game);
    var opponentSequences := GatherOpponentSequences(player, game);
    var singles := GetSingleSequences(board, own);
    var cells := board.slots[..];
    ghost var runs := SingleRuns(board, own);
    turn := None;
    if |ownSequences| > 0 {
      turn := TurnOfSequence(ownSequences, cells, ColumnRuns(board, own));
    } else if |opponentSequences| > 0 {
      turn := TurnOfSequence(opponentSequences, cells, ColumnRuns(board, Opponent(own)));
    } else {
      turn := TurnOfSingles(board, singles, own);
    }
    ghost var selected := turn;
    if turn.None? {
      turn := FindColumnWithEmptySlots(board);
    }
    if ColumnRuns(board, own) == [] && ColumnRuns(board, Opponent(own)) == [] {
      FallBack(cells, runs, own, selected, turn);
    }
  }
}
