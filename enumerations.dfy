/** The enumerations of the game model and their integer ids. */
module Enumerations {

  datatype DropColor = Red | Yellow | Unknown

  /** The id each colour carries: RED 0, YELLOW 1, UNKNOWN -1. */
  function ColorId(c: DropColor): int
  {
    match c
    case Red => 0
    case Yellow => 1
    case Unknown => -1
  }

  /** DropColor.parse: the colour with the given id, UNKNOWN for any other id. */
  function ParseColor(id: int): (c: DropColor)
    ensures c == Unknown <==> id != 0 && id != 1
    ensures c != Unknown ==> ColorId(c) == id
  {
    if id == 0 then Red else if id == 1 then Yellow else Unknown
  }

  /** Parsing the id of a colour gives that colour back. */
  lemma ParseColorId(c: DropColor)
    ensures ParseColor(ColorId(c)) == c
  {
    match c
    case Red =>
    case Yellow =>
    case Unknown =>
  }

  /** The colour of the other player: RED and YELLOW swap. */
  function Opponent(c: DropColor): (o: DropColor)
    ensures c == Red ==> o == Yellow
    ensures c != Red ==> o == Red
  {
    if c == Red then Yellow else Red
  }

  datatype SkillLevel = Easy | Advanced | Hard | UnknownLevel

  function LevelId(l: SkillLevel): int
  {
    match l
    case Easy => 0
    case Advanced => 1
    case Hard => 2
    case UnknownLevel => -1
  }

  /** SkillLevel.parse: the level with the given id, UNKNOWN for any other id. */
  function ParseLevel(id: int): (l: SkillLevel)
    ensures l == UnknownLevel <==> id < 0 || id > 2
    ensures l != UnknownLevel ==> LevelId(l) == id
  {
    if id == 0 then Easy else if id == 1 then Advanced else if id == 2 then Hard else UnknownLevel
  }

  lemma ParseLevelId(l: SkillLevel)
    ensures ParseLevel(LevelId(l)) == l
  {
    match l
    case Easy =>
    case Advanced =>
    case Hard =>
    case UnknownLevel =>
  }

  datatype PlayerType = Human | CpuPlayer

  /** The direction a run of drops extends in. */
  datatype Direction = ColumnDirection | RowDirection | DiagonalUpRight | DiagonalLowRight | Indeterminate
}
