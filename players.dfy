/**
 * The participants of a game (Player and its subclasses) and PlayerFactory,
 * which picks the kind of player to build.
 */
module Players {
  import opened Outcomes
  import opened Enumerations

  /** The drops each player has for a game. */
  const NumberOfDrops := 21

  /** The concrete player classes PlayerFactory instantiates. */
  datatype PlayerClass = HumanPlayer | EasyCpuPlayer | AdvancedCpuPlayer | HardCpuPlayer

  class Player {
    const kind: PlayerType
    const name: string
    const level: SkillLevel
    /** UNKNOWN until the game's settings assign a colour. */
    var color: DropColor
    var dropCount: int

    /** The remaining drops stay within the budget. */
    predicate Valid()
      reads this
    {
      0 <= dropCount <= NumberOfDrops
    }

    /** A new player has the full budget of drops and no colour yet. */
    constructor (kind: PlayerType, name: string, level: SkillLevel)
      ensures this.kind == kind && this.name == name && this.level == level
      ensures color == Unknown && dropCount == NumberOfDrops && Valid()
    {
      this.kind := kind;
      this.name := name;
      this.level := level;
      color := Unknown;
      dropCount := NumberOfDrops;
    }

    /** Player.resetDropCount: back to the full budget. */
    method ResetDropCount()
      modifies this
      ensures dropCount == NumberOfDrops && color == old(color) && Valid()
    {
      dropCount := NumberOfDrops;
    }

    /** Player.setDropColor. */
    method SetDropColor(c: DropColor)
      modifies this
      ensures color == c && dropCount == old(dropCount)
    {
      color := c;
    }

    predicate IsHumanPlayer()
      reads this
    {
      kind == Human
    }

    /** Player.decrementDropCount: one drop fewer; with none left it fails and nothing changes. */
    method DecrementDropCount() returns (r: Outcome)
      modifies this
      ensures old(dropCount) > 0 ==> r == Pass && dropCount == old(dropCount) - 1
      ensures old(dropCount) <= 0 ==> r == Fail(NoDropsLeft) && dropCount == old(dropCount)
      ensures color == old(color)
      ensures old(Valid()) ==> Valid()
    {
      if dropCount > 0 {
        dropCount := dropCount - 1;
        r := Pass;
      } else {
        r := Fail(NoDropsLeft);
      }
    }

    /** Player.equals: the same object, or the same colour, level and name; kind and drops do not matter. */
    predicate Equals(other: Player)
      reads this, other
      ensures Equals(other) <==> color == other.color && level == other.level && name == other.name
    {
      this == other || (color == other.color && level == other.level && name == other.name)
    }
  }

  /** Player equality is an equivalence. */
  lemma EqualsIsEquivalence(p: Player, q: Player, r: Player)
    ensures p.Equals(p)
    ensures p.Equals(q) ==> q.Equals(p)
    ensures p.Equals(q) && q.Equals(r) ==> p.Equals(r)
  {
  }

  /**
   * PlayerFactory.createPlayer's choice: a human player for HUMAN, the CPU player
   * of the level for CPU_PLAYER, nothing for a CPU player of level UNKNOWN.
   */
  function FactoryClass(kind: PlayerType, level: SkillLevel): (c: Option<PlayerClass>)
    ensures c.None? <==> kind == CpuPlayer && level == UnknownLevel
    ensures c == Some(HumanPlayer) <==> kind == Human
    ensures kind == CpuPlayer && c.Some? ==> LevelId(level) == ClassLevelId(c.value)
  {
    match kind
    case Human => Some(HumanPlayer)
    case CpuPlayer =>
      match level
      case Easy => Some(EasyCpuPlayer)
      case Advanced => Some(AdvancedCpuPlayer)
      case Hard => Some(HardCpuPlayer)
      case UnknownLevel => None
  }

  /** The skill level id a CPU player class plays at (a human plays EASY). */
  function ClassLevelId(c: PlayerClass): int
  {
    match c
    case HumanPlayer => 0
    case EasyCpuPlayer => 0
    case AdvancedCpuPlayer => 1
    case HardCpuPlayer => 2
  }

  /** The level a created player carries: EASY for a human, the requested one otherwise. */
  function CreatedLevel(kind: PlayerType, level: SkillLevel): SkillLevel
  {
    if kind == Human then Easy else level
  }

  /** PlayerFactory.createPlayer. */
  method CreatePlayer(kind: PlayerType, name: string, level: SkillLevel) returns (p: Option<Player>)
    ensures p.Some? <==> FactoryClass(kind, level).Some?
    ensures p.Some? ==> fresh(p.value) && p.value.kind == kind && p.value.name == name
    ensures p.Some? ==> p.value.level == CreatedLevel(kind, level)
    ensures p.Some? ==> p.value.color == Unknown && p.value.dropCount == NumberOfDrops
  {
    if kind == Human {
      var h := new Player(Human, name, Easy);
      return Some(h);
    } else if level == Easy || level == Advanced || level == Hard {
      var c := new Player(CpuPlayer, name, level);
      return Some(c);
    }
    return None;
  }

  /** A created player's own kind and level lead the factory to the same class again. */
  lemma FactoryStable(kind: PlayerType, level: SkillLevel)
    requires FactoryClass(kind, level).Some?
    ensures FactoryClass(kind, CreatedLevel(kind, level)) == FactoryClass(kind, level)
  {
  }
}
