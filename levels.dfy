/** Character tiers and the point budget each one allows at creation time. */
module Levels {

  /** The ten tiers of `CharacterLevel`. */
  datatype CharacterLevel =
    | Level1 | Level2 | Level3 | Level4 | Level5
    | Level6 | Level7 | Level8 | Level9 | Level10

  /** The tier number n of LEVEL_n. */
  function Tier(level: CharacterLevel): (n: int)
    ensures 1 <= n <= 10
  {
    match level
    case Level1 => 1
    case Level2 => 2
    case Level3 => 3
    case Level4 => 4
    case Level5 => 5
    case Level6 => 6
    case Level7 => 7
    case Level8 => 8
    case Level9 => 9
    case Level10 => 10
  }

  /** The `points` of a level, as listed in the enum. */
  function Points(level: CharacterLevel): (p: int)
    ensures p == 10 * Tier(level)
    ensures 10 <= p <= 100
  {
    match level
    case Level1 => 10
    case Level2 => 20
    case Level3 => 30
    case Level4 => 40
    case Level5 => 50
    case Level6 => 60
    case Level7 => 70
    case Level8 => 80
    case Level9 => 90
    case Level10 => 100
  }

  /** The creation-time check shared by both archetypes: health, attack power and
      the archetype's resource (stamina or mana) must fit in the level's points. */
  predicate WithinBudget(level: CharacterLevel, health: int, attackPower: int, resource: int): (r: bool)
    ensures r ==> health + attackPower + resource <= 100
    ensures health + attackPower + resource <= 10 ==> r
  {
    health + attackPower + resource <= Points(level)
  }
}
