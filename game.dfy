/**
 * A game: its board, its settings and the status recomputed after every turn,
 * with the small start / stop / restart state machine over isStarted.
 */
module Games {
  import opened Outcomes
  import opened Enumerations
  import opened Geometry
  import opened Slots
  import opened Lines
  import opened WinDetection
  import opened Diagonals
  import opened Board
  import opened Players
  import opened Settings
  import opened Status

  /** The status of an empty board: nothing played, 42 turns left, no winner, the start player to move. */
  lemma EmptyBoardStatus(cells: seq<Slot>, lines: seq<Line>, start: Player, other: Player)
    requires WellFormed(cells) && LinesShaped(lines)
    requires forall i :: 0 <= i < |cells| ==> cells[i].isEmpty
    ensures StatusOf(cells, lines, start, other).Ok?
    ensures var s := StatusOf(cells, lines, start, other).value;
      s.turnsCompleted == 0 && s.turnsRemaining == NumberOfCells
      && s.redDrops == 0 && s.yellowDrops == 0
      && !s.isConnectFour && s.winnerColor == Unknown && s.winnerSlots.None?
      && s.currentPlayer == start && !IsDraw(s)
  {
    AllEmptyCounts(cells, Red);
    AllEmptyCounts(cells, Yellow);
    StatusFacts(cells, lines, start, other);
    forall k | 0 <= k < |lines|
      ensures !Wins(cells, lines[k])
    {
      var s := SlotsOf(cells, lines[k].slots);
      forall i | 0 <= i < |s|
        ensures s[i].isEmpty
      {
        assert OnBoard(lines[k].slots[i]);
      }
      EmptyLineNoConnectFour(s);
    }
  }

  /** A new board, seen from outside: well-formed and every slot empty. */
  method NewBoard() returns (b: GameBoard)
    ensures fresh(b) && fresh(b.slots) && b.Valid() && b.slots[..] == EmptyBoard()
    ensures forall i :: 0 <= i < b.slots.Length ==> b.slots[i].isEmpty
  {
    b := new GameBoard();
    forall i | 0 <= i < b.slots.Length
      ensures b.slots[i].isEmpty
    {
      assert b.slots[..][i] == EmptyBoard()[i];
    }
  }

  class Game {
    var isStarted: bool
    const board: GameBoard
    const settings: GameSettings
    var status: Option<GameStatus>

    /** A well-formed board, two players with the two colours, and a status while the game runs. */
    ghost predicate Valid()
      reads this, board, board.slots, settings, settings.first, settings.second
    {
      board.Valid() && settings.Valid() && settings.first.Valid() && settings.second.Valid() &&
      (isStarted ==> status.Some?) &&
      (isStarted ==> status.value.currentPlayer == settings.first || status.value.currentPlayer == settings.second)
    }

    /** The lines of the board in getAll order. */
    ghost function Lines(): seq<Line>
    {
      board.columns + board.rows + board.diagonals
    }

    /** The status GameStatus.update would compute for the board now. */
    ghost function CurrentStatus(): Result<GameStatus>
      requires board.Valid()
      reads board.slots, settings, settings.first, settings.second, settings.startPlayer
    {
      StatusOf(board.slots[..], Lines(), settings.startPlayer, settings.OtherPlayer())
    }

    /** Each player has 21 drops less the drops of its colour on the board. */
    ghost predicate BudgetKept()
      reads board.slots, settings.first, settings.second
    {
      settings.first.dropCount == NumberOfDrops - CountColor(board.slots[..], settings.first.color) &&
      settings.second.dropCount == NumberOfDrops - CountColor(board.slots[..], settings.second.color)
    }

    /** The Game constructor: a new board, the settings for the two players, not started. */
    constructor (firstPlayer: Player, secondPlayer: Player, colorBit: int, startBit: int)
      requires 0 <= colorBit < 2 && 0 <= startBit < 2
      modifies firstPlayer, secondPlayer
      ensures !isStarted && status.None?
      ensures fresh(board) && fresh(board.slots) && board.slots[..] == EmptyBoard()
      ensures settings.first == firstPlayer && settings.second == secondPlayer
      ensures firstPlayer != secondPlayer && old(firstPlayer.Valid()) && old(secondPlayer.Valid()) ==> Valid()
      ensures old(firstPlayer.dropCount) == NumberOfDrops && old(secondPlayer.dropCount) == NumberOfDrops ==> BudgetKept()
    {
      isStarted := false;
      var b := NewBoard();
      board := b;
      var s := new GameSettings(firstPlayer, secondPlayer, colorBit, startBit);
      settings := s;
      status := None;
      ghost var cells := b.slots[..];
      AllEmptyCounts(cells, firstPlayer.color);
      AllEmptyCounts(cells, secondPlayer.color);
    }

    /**
     * GameEngine.updateGame with GameStatus.update: replaces the status by the
     * one of the board now.  getConnectFourList cannot fail here (StatusFacts).
     */
    method UpdateGame()
      requires board.Valid()
      modifies this
      ensures status.Some? && CurrentStatus() == Ok(status.value)
      ensures status.value.currentPlayer in {settings.startPlayer, settings.OtherPlayer()}
      ensures isStarted == old(isStarted)
    {
      var s := Evaluate(board, settings);
      ghost var cells, lines := board.slots[..], Lines();
      StatusOk(cells, lines, settings.startPlayer, settings.OtherPlayer());
      status := Some(s.value);
    }

    /** Game.start: refused when the game runs; otherwise the status is computed and the game runs. */
    method Start() returns (r: Outcome)
      requires Valid()
      modifies this
      ensures Valid()
      ensures old(isStarted) ==> r == Fail(AlreadyStarted) && isStarted && status == old(status)
      ensures !old(isStarted) ==> r == Pass && isStarted && status.Some? && CurrentStatus() == Ok(status.value)
    {
      if isStarted {
        return Fail(AlreadyStarted);
      }
      UpdateGame();
      StatusOk(board.slots[..], Lines(), settings.startPlayer, settings.OtherPlayer());
      isStarted := true;
      r := Pass;
    }

    /** Game.stop: refused when the game does not run; otherwise the game stops and keeps its status. */
    method Stop() returns (r: Outcome)
      requires Valid()
      modifies this
      ensures Valid() && status == old(status)
      ensures !old(isStarted) ==> r == Fail(NotStarted) && !isStarted
      ensures old(isStarted) ==> r == Pass && !isStarted
    {
      if !isStarted {
        return Fail(NotStarted);
      }
      isStarted := false;
      r := Pass;
    }

    /**
     * Game.restart: refused when the game does not run; otherwise every slot is
     * cleared, the opening player is drawn again and the game starts afresh.
     * The players' drop counts are not restored.
     */
    method Restart(startBit: int) returns (r: Outcome)
      requires Valid() && 0 <= startBit < 2
      modifies this, board.slots, settings
      ensures Valid()
      ensures !old(isStarted) ==> r == Fail(NotStarted) && !isStarted && status == old(status)
      ensures !old(isStarted) ==> board.slots[..] == old(board.slots[..]) && settings.startPlayer == old(settings.startPlayer)
      ensures old(isStarted) ==> r == Pass && isStarted && board.slots[..] == EmptyBoard()
      ensures old(isStarted) ==> settings.startPlayer == PlayerByColor(settings.first, settings.second, ParseColor(startBit))
      ensures old(isStarted) ==> status.Some? && CurrentStatus() == Ok(status.value)
      ensures settings.first.dropCount == old(settings.first.dropCount)
      ensures settings.second.dropCount == old(settings.second.dropCount)
    {
      if !isStarted {
        return Fail(NotStarted);
      }
      status := None;
      isStarted := false;
      ResetEmptiesBoard(board.slots[..]);
      board.Reset();
      settings.ReEvaluateStartPlayer(startBit);
      r := Start();
    }
  }

  /** A restarted game is at its opening: nothing played, no winner, the re-drawn start player to move. */
  lemma RestartedStatus(game: Game)
    requires game.board.Valid() && game.board.slots[..] == EmptyBoard()
    ensures game.CurrentStatus().Ok?
    ensures var s := game.CurrentStatus().value;
      s.turnsCompleted == 0 && s.turnsRemaining == NumberOfCells && !s.isConnectFour
      && s.winnerColor == Unknown && s.currentPlayer == game.settings.startPlayer
  {
    ghost var cells := game.board.slots[..];
    forall i | 0 <= i < |cells|
      ensures cells[i].isEmpty
    {
      assert cells[i] == EmptyBoard()[i];
    }
    EmptyBoardStatus(cells, game.Lines(), game.settings.startPlayer, game.settings.OtherPlayer());
  }
}
