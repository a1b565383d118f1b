/**
 * GameSettings: the two players of a game, their colours and the player who
 * opens.  java.util.Random's nextInt(2) is a parameter `bit` in 0..1.
 */
module Settings {
  import opened Outcomes
  import opened Enumerations
  import opened Players

  /** GameSettings.getPlayerByColor: the first player if it has the colour, else the second. */
  function PlayerByColor(first: Player, second: Player, c: DropColor): (p: Player)
    reads first, second
    ensures p == first || p == second
    ensures first.color == c ==> p == first
    ensures first.color != c ==> p == second
    ensures first.color != second.color && c in {first.color, second.color} ==> p.color == c
    ensures c !in {first.color, second.color} ==> p == second
  {
    if first.color == c then first else second
  }

  /** GameSettings.assignDropColor: a random colour for the first player, the other one for the second. */
  method AssignDropColor(first: Player, second: Player, bit: int)
    requires 0 <= bit < 2
    modifies first, second
    ensures first != second ==> first.color == ParseColor(bit) && second.color == Opponent(first.color)
    ensures first == second ==> first.color == Opponent(ParseColor(bit))
    ensures first.dropCount == old(first.dropCount) && second.dropCount == old(second.dropCount)
  {
    first.SetDropColor(ParseColor(bit));
    if first.color == Red {
      second.SetDropColor(Yellow);
    } else {
      second.SetDropColor(Red);
    }
  }

  class GameSettings {
    const first: Player
    const second: Player
    var startPlayer: Player

    /** Two players with the two colours, one of them opening. */
    predicate Valid()
      reads this, first, second
    {
      first != second && first.color != Unknown && second.color == Opponent(first.color) &&
      (startPlayer == first || startPlayer == second)
    }

    /** The GameSettings constructor: assigns the colours, then draws the player who opens. */
    constructor (firstPlayer: Player, secondPlayer: Player, colorBit: int, startBit: int)
      requires 0 <= colorBit < 2 && 0 <= startBit < 2
      modifies firstPlayer, secondPlayer
      ensures first == firstPlayer && second == secondPlayer
      ensures firstPlayer != secondPlayer ==> Valid() && first.color == ParseColor(colorBit)
      ensures startPlayer == PlayerByColor(first, second, ParseColor(startBit))
      ensures first.dropCount == old(firstPlayer.dropCount) && second.dropCount == old(secondPlayer.dropCount)
    {
      first := firstPlayer;
      second := secondPlayer;
      AssignDropColor(firstPlayer, secondPlayer, colorBit);
      // evaluateStartPlayer: randomColor never gives UNKNOWN, so the start player is never null
      startPlayer := PlayerByColor(firstPlayer, secondPlayer, ParseColor(startBit));
    }

    /** GameSettings.getOtherPlayer: the player who does not open. */
    function OtherPlayer(): (p: Player)
      reads this, first, second, startPlayer
      ensures Valid() ==> p != startPlayer && (p == first || p == second)
    {
      if first.Equals(startPlayer) then second else first
    }

    /** GameSettings.reEvaluateStartPlayer: draws the opening player again; the colours stay. */
    method ReEvaluateStartPlayer(startBit: int)
      requires 0 <= startBit < 2
      modifies this
      ensures startPlayer == PlayerByColor(first, second, ParseColor(startBit))
      ensures old(Valid()) ==> Valid()
    {
      startPlayer := PlayerByColor(first, second, ParseColor(startBit));
    }
  }
}
