/**
 * GameEngine.setDrop: one turn of the player to move - the drop goes into the
 * named column, the player's drop budget shrinks and the status is recomputed.
 */
module Engine {
  import opened Outcomes
  import opened Enumerations
  import opened Geometry
  import opened Slots
  import opened Lines
  import opened Board
  import opened Players
  import opened Settings
  import opened Status
  import opened Games

  /**
   * After a drop is accepted, one more turn is completed, one fewer remains,
   * the mover's colour has one more drop and the other player is to move.
   */
  lemma TurnAdvances(cells: seq<Slot>, lines: seq<Line>, key: string, color: DropColor, start: Player, other: Player)
    requires WellFormed(cells) && Gravity(cells) && LinesShaped(lines)
    requires DropResult(cells, key, color).Ok?
    ensures var x := DropResult(cells, key, color).value;
      var after := cells[Index(x.pos) := x];
      StatusOf(cells, lines, start, other).Ok? && StatusOf(after, lines, start, other).Ok?
      && var s0 := StatusOf(cells, lines, start, other).value;
      var s1 := StatusOf(after, lines, start, other).value;
      s1.turnsCompleted == s0.turnsCompleted + 1 && s1.turnsRemaining == s0.turnsRemaining - 1
      && TotalDrops(s1) == TotalDrops(s0) + 1
      && s1.currentPlayer == (if s0.currentPlayer == start then other else start)
  {
    InsertKeepsBoardValid(cells, key, color);
    var x := DropResult(cells, key, color).value;
    NextStatus(cells, cells[Index(x.pos) := x], lines, start, other);
  }

  /** A board with one more drop: its status counts one more turn and hands the move over. */
  lemma NextStatus(cells: seq<Slot>, after: seq<Slot>, lines: seq<Line>, start: Player, other: Player)
    requires WellFormed(cells) && WellFormed(after) && LinesShaped(lines)
    requires CountFilled(after) == CountFilled(cells) + 1
    ensures StatusOf(cells, lines, start, other).Ok? && StatusOf(after, lines, start, other).Ok?
    ensures var s0 := StatusOf(cells, lines, start, other).value;
      var s1 := StatusOf(after, lines, start, other).value;
      s1.turnsCompleted == s0.turnsCompleted + 1 && s1.turnsRemaining == s0.turnsRemaining - 1
      && TotalDrops(s1) == TotalDrops(s0) + 1
      && s1.currentPlayer == (if s0.currentPlayer == start then other else start)
  {
    StatusCounts(cells, lines, start, other);
    StatusCounts(after, lines, start, other);
    ParityFlips(CountFilled(cells));
  }

  /** One more turn hands the move to the other player. */
  lemma ParityFlips(n: int)
    ensures (n + 1) % 2 == 0 <==> n % 2 != 0
  {
  }

  /**
   * GameEngine.setDrop.  A game that does not run refuses the turn; a drop the
   * board rejects is reported as the turn's failure and changes nothing; a
   * player without drops left gets the failure after the drop is on the board
   * (the board is changed and the status is not recomputed); otherwise the
   * mover's budget falls by one and the status is recomputed.
   */
  method SetDrop(game: Game, column: string) returns (r: Outcome)
    requires game.Valid()
    modifies game, game.board.slots, game.settings.first, game.settings.second
    ensures game.Valid()
    ensures !old(game.isStarted) ==> r == Fail(NotStarted) && game.board.slots[..] == old(game.board.slots[..])
    ensures !old(game.isStarted) ==> game.status == old(game.status)
    ensures !old(game.isStarted) ==> game.settings.first.dropCount == old(game.settings.first.dropCount)
    ensures !old(game.isStarted) ==> game.settings.second.dropCount == old(game.settings.second.dropCount)
    ensures game.isStarted == old(game.isStarted)
    ensures old(game.isStarted) && old(game.status.value.currentPlayer) == game.settings.first ==>
      Turn(old(game.board.slots[..]), column, game.settings.first, old(game.settings.first.dropCount),
           game.board.slots[..], game.settings.first.dropCount, r)
      && game.settings.second.dropCount == old(game.settings.second.dropCount)
    ensures old(game.isStarted) && old(game.status.value.currentPlayer) == game.settings.second ==>
      Turn(old(game.board.slots[..]), column, game.settings.second, old(game.settings.second.dropCount),
           game.board.slots[..], game.settings.second.dropCount, r)
      && game.settings.first.dropCount == old(game.settings.first.dropCount)
    ensures r.Pass? ==> game.status.Some? && game.CurrentStatus() == Ok(game.status.value)
    ensures r.Fail? ==> game.status == old(game.status)
    ensures old(game.BudgetKept()) && r.Pass? ==> game.BudgetKept()
  {
    if !game.isStarted {
      return Fail(NotStarted);
    }
    var current := game.status.value.currentPlayer;
    r := PlayTurn(game, column, current);
  }

  /** setDrop for a running game and the player to move. */
  method PlayTurn(game: Game, column: string, current: Player) returns (r: Outcome)
    requires game.Valid() && game.isStarted && current == game.status.value.currentPlayer
    modifies game, game.board.slots, game.settings.first, game.settings.second
    ensures game.Valid() && game.isStarted
    ensures Turn(old(game.board.slots[..]), column, current, old(current.dropCount),
                 game.board.slots[..], current.dropCount, r)
    ensures game.settings.first != current ==> game.settings.first.dropCount == old(game.settings.first.dropCount)
    ensures game.settings.second != current ==> game.settings.second.dropCount == old(game.settings.second.dropCount)
    ensures r.Pass? ==> game.status.Some? && game.CurrentStatus() == Ok(game.status.value)
    ensures r.Fail? ==> game.status == old(game.status)
    ensures old(game.BudgetKept()) && r.Pass? ==> game.BudgetKept()
  {
    ghost var before := game.board.slots[..];
    var slot := game.board.InsertDrop(column, current.color);
    if slot.Err? {
      return Fail(TurnRejected(slot.error));
    }
    InsertKeepsBoardValid(before, column, current.color);
    r := ChargeTurn(game, current);
    if game.settings.first == current {
      assert game.settings.second.color == Opponent(current.color);
    } else {
      assert game.settings.first.color == Opponent(current.color) by {
        assert current.color == Opponent(game.settings.first.color);
      }
    }
  }

  /**
   * The rest of setDrop once the drop is on the board: the mover's budget falls
   * by one and the status is recomputed, or, with no drops left, the turn fails
   * and the status stays.
   */
  method ChargeTurn(game: Game, current: Player) returns (r: Outcome)
    requires game.Valid() && game.isStarted
    requires current == game.settings.first || current == game.settings.second
    modifies game, current
    ensures game.Valid()
    ensures game.isStarted == old(game.isStarted) && current.color == old(current.color)
    ensures old(current.dropCount) > 0 ==> r == Pass && current.dropCount == old(current.dropCount) - 1
    ensures old(current.dropCount) > 0 ==> game.status.Some? && game.CurrentStatus() == Ok(game.status.value)
    ensures old(current.dropCount) <= 0 ==>
      r == Fail(TurnRejected(NoDropsLeft)) && current.dropCount == old(current.dropCount) && game.status == old(game.status)
  {
    var decremented := current.DecrementDropCount();
    if decremented.Fail? {
      return Fail(TurnRejected(decremented.error));
    }
    game.UpdateGame();
    r := Pass;
  }

  /**
   * One turn of `player` as setDrop plays it, from the board and drop count
   * before to those after, with its outcome.
   */
  ghost predicate Turn(before: seq<Slot>, column: string, player: Player, budget: int,
                       after: seq<Slot>, budgetAfter: int, r: Outcome)
    requires WellFormed(before)
    reads player
  {
    var d := DropResult(before, column, player.color);
    (d.Err? ==> r == Fail(TurnRejected(d.error)) && after == before && budgetAfter == budget)
    && (d.Ok? ==>
          after == before[Index(d.value.pos) := d.value]
          && (budget > 0 ==> r == Pass && budgetAfter == budget - 1)
          && (budget <= 0 ==> r == Fail(TurnRejected(NoDropsLeft)) && budgetAfter == budget))
  }
}
