/**
 * GameStatus: what the board says about the game after each turn - whether a
 * line holds four in a row, the turns done and left, the drops of each colour
 * and whose turn it is.
 */
module Status {
  import opened Outcomes
  import opened Enumerations
  import opened Geometry
  import opened Slots
  import opened Lines
  import opened Diagonals
  import opened WinDetection
  import opened Board
  import opened Players
  import opened Settings

  datatype GameStatus = GameStatus(
    isConnectFour: bool,
    connectFour: Option<Line>,
    winnerSlots: Option<seq<Slot>>,
    winnerColor: DropColor,
    turnsRemaining: int,
    turnsCompleted: int,
    yellowDrops: int,
    redDrops: int,
    currentPlayer: Player)

  /** The line of a board snapshot holds four in a row. */
  predicate Wins(cells: seq<Slot>, line: Line)
    requires |cells| == NumberOfCells && LineShape(line)
  {
    ConnectFour(SlotsOf(cells, line.slots))
  }

  /** Four filled slots of one colour, one after another on a line, win the line. */
  lemma FourOnLineWins(cells: seq<Slot>, line: Line, i: int)
    requires |cells| == NumberOfCells && LineShape(line)
    requires 0 <= i && i + 4 <= |line.slots|
    requires forall k :: i <= k < i + 4 ==>
      !At(cells, line.slots[k]).isEmpty && At(cells, line.slots[k]).color == At(cells, line.slots[i]).color
    ensures Wins(cells, line)
  {
    var s := SlotsOf(cells, line.slots);
    assert FourInARow(s, i);
    ConnectFourIsFourInARow(s);
  }

  /** Column "A" wins with red drops in A1 to A4. */
  lemma ColumnAWins(cells: seq<Slot>)
    requires |cells| == NumberOfCells
    requires forall r :: 1 <= r <= 4 ==> At(cells, Pos(1, r)) == Slot(Pos(1, r), false, Red)
    ensures LineShape(Column(1, ColumnSlots(1))) && Wins(cells, Column(1, ColumnSlots(1)))
  {
    var line := Column(1, ColumnSlots(1));
    assert Straight(line.slots, 0, 1);
    FourOnLineWins(cells, line, 0);
  }

  /** Row 2 wins with yellow drops in B2 to E2. */
  lemma RowTwoWins(cells: seq<Slot>)
    requires |cells| == NumberOfCells
    requires forall c :: 2 <= c <= 5 ==> At(cells, Pos(c, 2)) == Slot(Pos(c, 2), false, Yellow)
    ensures LineShape(Row(2, RowSlots(2))) && Wins(cells, Row(2, RowSlots(2)))
  {
    var line := Row(2, RowSlots(2));
    assert Straight(line.slots, 1, 0);
    FourOnLineWins(cells, line, 1);
  }

  /** The diagonal from B6 down to G1 wins with red drops in D4, E3, F2 and G1. */
  lemma DiagonalB6Wins(cells: seq<Slot>)
    requires |cells| == NumberOfCells
    requires At(cells, Pos(4, 4)) == Slot(Pos(4, 4), false, Red) && At(cells, Pos(5, 3)) == Slot(Pos(5, 3), false, Red)
    requires At(cells, Pos(6, 2)) == Slot(Pos(6, 2), false, Red) && At(cells, Pos(7, 1)) == Slot(Pos(7, 1), false, Red)
    ensures LineShape(DiagonalFrom(Pos(2, 6), false)) && Wins(cells, DiagonalFrom(Pos(2, 6), false))
  {
    var line := DiagonalFrom(Pos(2, 6), false);
    WalkShape(Pos(2, 6), false);
    assert line.slots == Walk(Pos(2, 6), false);
    assert |line.slots| == 6;
    assert line.slots[2] == Pos(4, 4) && line.slots[3] == Pos(5, 3);
    assert line.slots[4] == Pos(6, 2) && line.slots[5] == Pos(7, 1);
    FourOnLineWins(cells, line, 2);
  }

  /** The first line, from index `from` on, that holds four in a row. */
  function FirstWin(cells: seq<Slot>, lines: seq<Line>, from: nat): (k: Option<int>)
    requires |cells| == NumberOfCells && LinesShaped(lines)
    ensures k.Some? ==> from <= k.value < |lines| && Wins(cells, lines[k.value])
    ensures k.Some? ==> forall j :: from <= j < k.value ==> !Wins(cells, lines[j])
    ensures k.None? <==> forall j :: from <= j < |lines| ==> !Wins(cells, lines[j])
    decreases |lines| - from
  {
    if from >= |lines| then None
    else if Wins(cells, lines[from]) then Some(from)
    else FirstWin(cells, lines, from + 1)
  }

  /**
   * The status GameStatus computes for a board snapshot, its lines in getAll
   * order and the two players; it fails only when getConnectFourList does.
   */
  function StatusOf(cells: seq<Slot>, lines: seq<Line>, start: Player, other: Player): Result<GameStatus>
    requires |cells| == NumberOfCells && LinesShaped(lines)
  {
    var completed := CountFilled(cells);
    var current := if completed % 2 == 0 then start else other;
    match FirstWin(cells, lines, 0)
    case None =>
      Ok(GameStatus(false, None, None, Unknown, CountEmpty(cells), completed,
                    CountColor(cells, Yellow), CountColor(cells, Red), current))
    case Some(k) =>
      match ConnectFourList(SlotsOf(cells, lines[k].slots), 0)
      case Err(e) => Err(e)
      case Ok(w) =>
        Ok(GameStatus(true, Some(lines[k]), Some(w), Red, CountEmpty(cells), completed,
                      CountColor(cells, Yellow), CountColor(cells, Red), current))
  }

  /** Four filled slots holding drops of one colour. */
  predicate FourOfOneColor(w: seq<Slot>)
  {
    |w| == 4 && forall i :: 0 <= i < 4 ==> !w[i].isEmpty && w[i].color == w[0].color
  }

  /** GameStatus.isDraw: no four in a row and no turn left. */
  predicate IsDraw(s: GameStatus)
  {
    !s.isConnectFour && s.turnsRemaining == 0
  }

  /** GameStatus.countTotalDrops. */
  function TotalDrops(s: GameStatus): int
  {
    s.yellowDrops + s.redDrops
  }

  /** GameStatus.getWinner: null while the winner colour is UNKNOWN, else the player of that colour. */
  function Winner(s: GameStatus, settings: GameSettings): (w: Option<Player>)
    reads settings, settings.first, settings.second
    ensures w.None? <==> s.winnerColor == Unknown
    ensures w.Some? && settings.Valid() ==> w.value.color == s.winnerColor
  {
    if s.winnerColor == Unknown then None
    else Some(PlayerByColor(settings.first, settings.second, s.winnerColor))
  }

  /** On a well-formed board the status is computed without failure, and the player to move is one of the two. */
  lemma StatusOk(cells: seq<Slot>, lines: seq<Line>, start: Player, other: Player)
    requires WellFormed(cells) && LinesShaped(lines)
    ensures StatusOf(cells, lines, start, other).Ok?
    ensures StatusOf(cells, lines, start, other).value.currentPlayer in {start, other}
    ensures var s := StatusOf(cells, lines, start, other).value;
      s.winnerSlots.Some? ==> FourOfOneColor(s.winnerSlots.value)
  {
    var first := FirstWin(cells, lines, 0);
    if first.Some? {
      var k := first.value;
      var s := SlotsOf(cells, lines[k].slots);
      assert forall i :: 0 <= i < |s| ==> Consistent(s[i]) by {
        forall i | 0 <= i < |s|
          ensures Consistent(s[i])
        {
          assert OnBoard(lines[k].slots[i]);
        }
      }
      WinnerSlots(s);
      assert StatusOf(cells, lines, start, other).value.winnerSlots == Some(ConnectFourList(s, 0).value);
    }
  }

  /** The counts and the player to move of a status computed without failure. */
  lemma StatusCounts(cells: seq<Slot>, lines: seq<Line>, start: Player, other: Player)
    requires WellFormed(cells) && LinesShaped(lines)
    ensures StatusOf(cells, lines, start, other).Ok?
    ensures var s := StatusOf(cells, lines, start, other).value;
      s.turnsCompleted == CountFilled(cells) && s.turnsRemaining == CountEmpty(cells)
      && s.redDrops == CountColor(cells, Red) && s.yellowDrops == CountColor(cells, Yellow)
      && s.turnsRemaining + s.turnsCompleted == NumberOfCells && TotalDrops(s) == s.turnsCompleted
      && s.currentPlayer == if s.turnsCompleted % 2 == 0 then start else other
  {
    StatusOk(cells, lines, start, other);
    EmptyPlusFilled(cells);
    FilledAreRedOrYellow(cells);
  }

  /**
   * What a status of a well-formed board says: the counts add up to the 42
   * slots, connect four holds iff some line wins, the winner colour is RED
   * whenever a line wins (hasConnectFour is asked for RED first and ignores the
   * colour), the winning slots are four filled slots of one colour, a draw is a
   * full board without a winning line, and the start player moves after an
   * even number of turns.
   */
  lemma StatusFacts(cells: seq<Slot>, lines: seq<Line>, start: Player, other: Player)
    requires WellFormed(cells) && LinesShaped(lines)
    ensures StatusOf(cells, lines, start, other).Ok?
    ensures var s := StatusOf(cells, lines, start, other).value;
      s.turnsRemaining + s.turnsCompleted == NumberOfCells
      && TotalDrops(s) == s.turnsCompleted
      && (s.isConnectFour <==> exists k :: 0 <= k < |lines| && Wins(cells, lines[k]))
      && (s.winnerColor == if s.isConnectFour then Red else Unknown)
      && (s.winnerSlots.Some? <==> s.isConnectFour)
      && (s.connectFour.Some? <==> s.isConnectFour)
      && (s.isConnectFour ==> s.connectFour.value in lines && Wins(cells, s.connectFour.value))
      && (s.winnerSlots.Some? ==> FourOfOneColor(s.winnerSlots.value))
      && (IsDraw(s) <==> !s.isConnectFour && CountFilled(cells) == NumberOfCells)
      && (s.currentPlayer == if s.turnsCompleted % 2 == 0 then start else other)
  {
    StatusOk(cells, lines, start, other);
    StatusCounts(cells, lines, start, other);
  }

  /** GameStatus.getNumberOfPossibleTurns: the empty slots of all columns. */
  method NumberOfPossibleTurns(board: GameBoard) returns (possibleTurns: int)
    requires board.Valid()
    ensures possibleTurns == CountEmpty(board.slots[..])
  {
    possibleTurns := 0;
    for c := 0 to |board.columns|
      invariant possibleTurns == CountEmpty(board.slots[..c * NumberOfSlots])
    {
      var column := board.columns[c];
      for k := 0 to |column.slots|
        invariant possibleTurns == CountEmpty(board.slots[..c * NumberOfSlots + k])
      {
        var slot := board.slots[Index(column.slots[k])];
        assert board.slots[..c * NumberOfSlots + k + 1] == board.slots[..c * NumberOfSlots + k] + [slot];
        CountsSnoc(board.slots[..c * NumberOfSlots + k], slot, Red);
        if slot.isEmpty {
          possibleTurns := possibleTurns + 1;
        }
      }
    }
    assert board.slots[..] == board.slots[..|board.columns| * NumberOfSlots];
  }

  /** GameStatus.getNumberOfCompletedTurns: the filled slots of all columns. */
  method NumberOfCompletedTurns(board: GameBoard) returns (completedTurns: int)
    requires board.Valid()
    ensures completedTurns == CountFilled(board.slots[..])
  {
    completedTurns := 0;
    for c := 0 to |board.columns|
      invariant completedTurns == CountFilled(board.slots[..c * NumberOfSlots])
    {
      var column := board.columns[c];
      for k := 0 to |column.slots|
        invariant completedTurns == CountFilled(board.slots[..c * NumberOfSlots + k])
      {
        var slot := board.slots[Index(column.slots[k])];
        assert board.slots[..c * NumberOfSlots + k + 1] == board.slots[..c * NumberOfSlots + k] + [slot];
        CountsSnoc(board.slots[..c * NumberOfSlots + k], slot, Red);
        if !slot.isEmpty {
          completedTurns := completedTurns + 1;
        }
      }
    }
    assert board.slots[..] == board.slots[..|board.columns| * NumberOfSlots];
  }

  /** GameStatus.getNumberOfDropsByColor: the filled slots of the colour. */
  method NumberOfDropsByColor(board: GameBoard, color: DropColor) returns (dropCount: int)
    requires board.Valid()
    ensures dropCount == CountColor(board.slots[..], color)
  {
    dropCount := 0;
    for c := 0 to |board.columns|
      invariant dropCount == CountColor(board.slots[..c * NumberOfSlots], color)
    {
      var column := board.columns[c];
      for k := 0 to |column.slots|
        invariant dropCount == CountColor(board.slots[..c * NumberOfSlots + k], color)
      {
        var slot := board.slots[Index(column.slots[k])];
        assert board.slots[..c * NumberOfSlots + k + 1] == board.slots[..c * NumberOfSlots + k] + [slot];
        CountsSnoc(board.slots[..c * NumberOfSlots + k], slot, color);
        if !slot.isEmpty && slot.color == color {
          dropCount := dropCount + 1;
        }
      }
    }
    assert board.slots[..] == board.slots[..|board.columns| * NumberOfSlots];
  }

  /**
   * GameStatus.checkIsConnectFour: the first line of getAll that holds four in a
   * row, asking for RED before YELLOW.
   */
  method CheckIsConnectFour(board: GameBoard) returns (found: bool, connectFour: Option<Line>, winnerColor: DropColor)
    requires board.Valid()
    ensures var lines := board.columns + board.rows + board.diagonals;
      var k := FirstWin(board.slots[..], lines, 0);
      found == k.Some? && connectFour == (if found then Some(lines[k.value]) else None)
      && winnerColor == if found then Red else Unknown
  {
    var all := board.GetAll();
    var i := 0;
    while i < |all|
      invariant 0 <= i <= |all|
      invariant FirstWin(board.slots[..], all, i) == FirstWin(board.slots[..], all, 0)
    {
      var slots := AsList(board.slots[..], all[i].slots);
      var red := HasConnectFour(slots, Red);
      if red {
        return true, Some(all[i]), Red;
      } else {
        var yellow := HasConnectFour(slots, Yellow);
        if yellow {
          // hasConnectFour does not look at the colour: it has just answered the same question with false
          assert false;
        }
      }
      i := i + 1;
    }
    return false, None, Unknown;
  }

  /**
   * GameStatus.evaluate (the constructor, through updateAll): the status of the
   * game's board, with the start player to move after an even number of turns.
   */
  method Evaluate(board: GameBoard, settings: GameSettings) returns (r: Result<GameStatus>)
    requires board.Valid()
    ensures r == StatusOf(board.slots[..], board.columns + board.rows + board.diagonals,
                          settings.startPlayer, settings.OtherPlayer())
  {
    var isConnectFour, connectFour, winnerColor := CheckIsConnectFour(board);
    var turnsRemaining := NumberOfPossibleTurns(board);
    var turnsCompleted := NumberOfCompletedTurns(board);
    var yellowDrops := NumberOfDropsByColor(board, Yellow);
    var redDrops := NumberOfDropsByColor(board, Red);
    // evaluateCurrentPlayer
    var currentPlayer := if turnsCompleted % 2 == 0 then settings.startPlayer else settings.OtherPlayer();
    var winnerSlots: Option<seq<Slot>> := None;
    ghost var lines := board.columns + board.rows + board.diagonals;
    if isConnectFour {
      ghost var k := FirstWin(board.slots[..], lines, 0).value;
      assert connectFour.value == lines[k];
      var slots := AsList(board.slots[..], connectFour.value.slots);
      var list := GetConnectFourList(slots);
      if list.Err? {
        return Err(list.error);
      }
      winnerSlots := Some(list.value);
    }
    r := Ok(GameStatus(isConnectFour, connectFour, winnerSlots, winnerColor, turnsRemaining, turnsCompleted,
                       yellowDrops, redDrops, currentPlayer));
  }
}
