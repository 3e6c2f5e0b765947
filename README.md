# Fantasy combat engine, modelled and verified in Dafny

This project models the combat engine of `FantasyGame.kt`: character levels
and their point budgets, the two archetypes (Warrior and Sorcerer) with their
stamina- and mana-gated rules for attacking, defending and healing, and
`Match.fight`, the round loop that ends in a winner or in no result.

The model has four modules:

- `Levels` (`levels.dfy`) holds `CharacterLevel`, its points (10 per tier) and the
  creation-time budget check.
- `Rules` (`rules.dfy`) gives each character operation as a function on a value
  snapshot `Fighter`: kind, attack power, health, stamina and mana. Those operations
  are base `takeDamage`, `defend`, the dispatched `takeDamage`, `heal`, both
  `attack` overrides, `beforeRounds` and the base `attack`. The module also proves
  the resource facts about them.
- `Bouts` (`bouts.dfy`) gives `fight` as a function on both snapshots: the
  pre-round hooks, one round, and the whole fight. It also proves what each verdict
  says about the participants and that a fight keeps the participants' ranges.
- `Game` (`game.dfy`) gives the objects. `Character` is one class with a kind tag
  that replaces the Kotlin class hierarchy. Its `health`, `stamina` and `mana` fields
  change in place. `Match` is a class whose `Fight` method runs the rounds with a
  `while` loop and early `return`s. Every method's `ensures` ties the new state of
  the objects to the functions of `Rules` and `Bouts`. The loop invariant of
  `Match.Fight` says that the rest of the fight from the current round and state
  ends exactly as the whole fight from the start.

The model follows the code as written:
- The `attack` overrides of both archetypes never check the attacker's health.
  Only the base `Character.attack` has that guard, and no concrete class reaches it.
- A Sorcerer attacking with 1 mana and health below 100 pays one point for the
  embedded `heal` and one for the attack, so it ends at mana -1. The proved floor is
  -1, not 0: mana can go negative, although a non-negative mana is what the
  archetype's resource rules suggest.
- Only `heal` caps health at 100. `takeDamage` only floors it at 0.
- `afterRound` is empty in both archetypes. `Character.AfterRound` has no
  `modifies` clause, so it can change nothing, and `Match.Fight` calls it where the
  source does.
- With the Kotlin default stats, 100 + 20 + 100 for a Warrior and 100 + 25 + 100 for
  a Sorcerer, no level's budget is large enough, so construction with the defaults
  always fails.
- In the demonstration match (level-2 Warrior "Leon" against level-2 Sorcerer
  "Merlin", 5 rounds) the Sorcerer wins in the fourth round, ending with health 37
  and mana -1.

## Model

| member | source | states |
|---|---|---|
| `Levels.Points` | src/main/kotlin/com/nyeinchan/kotlin/game/FantasyGame.kt:6-18 | LEVEL_n has 10·n points, so every budget lies between 10 and 100 |
| `Levels.WithinBudget` | src/main/kotlin/com/nyeinchan/kotlin/game/FantasyGame.kt:107-111 | the `init` check of either archetype: health, attack power and the resource fit the level's points; no stats summing above 100 ever pass, and stats summing to at most 10 pass at every level |
| `Rules.FlooredDifference` | src/main/kotlin/com/nyeinchan/kotlin/game/FantasyGame.kt:64-68 | the clamped health is the least value that is at least 0 and at least health − amount; with non-negative inputs it never exceeds the old health |
| `Rules.Mitigation` | src/main/kotlin/com/nyeinchan/kotlin/game/FantasyGame.kt:123-132 | without stamina the full power passes and stamina is unchanged; with stamina, one point is spent and `max(0, power − defensePower)` passes, which is 0 exactly when the power does not exceed the defense; non-negative stamina stays non-negative |
| `Rules.Capped` | src/main/kotlin/com/nyeinchan/kotlin/game/FantasyGame.kt:182-182 | `min(100, x)`: never above 100 nor above x, and equal to one of them |
| `Rules.Received` | src/main/kotlin/com/nyeinchan/kotlin/game/FantasyGame.kt:134-136 | a Warrior with stamina loses one stamina point and takes the mitigated damage before the clamp; otherwise the full amount is clamped and stamina is unchanged; health ends in [0, old health]; mitigation never makes damage worse than the unmitigated clamp |
| `Rules.Healed` | src/main/kotlin/com/nyeinchan/kotlin/game/FantasyGame.kt:174-186 | without mana or at health ≥ 100 nothing changes; otherwise one mana point is spent and health becomes `min(100, health + healingPower)`, characterised as the capped value; health never exceeds 100 if it did not before |
| `Rules.CanAttack` | src/main/kotlin/com/nyeinchan/kotlin/game/FantasyGame.kt:113-172 | an attack override goes ahead exactly when a Warrior has stamina above 0 or a Sorcerer mana above 0; health plays no part |
| `Rules.CanAttackIgnoresHealth` | src/main/kotlin/com/nyeinchan/kotlin/game/FantasyGame.kt:113-172 | whether an attack override goes ahead is the same at every health of the attacker |
| `Rules.Spent` | src/main/kotlin/com/nyeinchan/kotlin/game/FantasyGame.kt:113-172 | the attacker's own update in an attack that goes ahead: a Warrior pays one stamina point and keeps its health; a Sorcerer heals itself and pays two mana points when its health was below 100 and one otherwise; archetype and attack power never change, and health never drops when healing power is not negative |
| `Rules.AfterAttack` | src/main/kotlin/com/nyeinchan/kotlin/game/FantasyGame.kt:113-172 | an attacker without its resource changes neither itself nor the target; otherwise the target takes the full attack power; a Warrior pays exactly one stamina point; a Sorcerer heals itself first and pays two mana points when its health was below 100 and one otherwise |
| `Rules.AfterSelfAttack` | src/main/kotlin/com/nyeinchan/kotlin/game/FantasyGame.kt:113-172 | attacking oneself applies the attacker's own update and then its own damage intake, in that order |
| `Rules.Regenerated` | src/main/kotlin/com/nyeinchan/kotlin/game/FantasyGame.kt:138-191 | beforeRounds gives a Warrior one stamina point and a Sorcerer one mana point and changes nothing else |
| `Rules.BaseAttack` | src/main/kotlin/com/nyeinchan/kotlin/game/FantasyGame.kt:77-85 | the base attack of a character at health ≤ 0 leaves the target unchanged; otherwise the target takes the attack power |
| `Rules.OverridesSkipHealthGuard` | src/main/kotlin/com/nyeinchan/kotlin/game/FantasyGame.kt:77-172 | for every attacker with its resource, the overrides deal the same damage as the base attack when the attacker is alive, and still deal it when the attacker is at health ≤ 0, where the base attack leaves the target unchanged |
| `Rules.ReceivedKeepsSound` | src/main/kotlin/com/nyeinchan/kotlin/game/FantasyGame.kt:64-136 | non-negative damage keeps health in [0, 100] and the resource floors |
| `Rules.AttackKeepsSound` | src/main/kotlin/com/nyeinchan/kotlin/game/FantasyGame.kt:113-186 | an attack keeps both characters sound: health in [0, 100], Warrior stamina ≥ 0, Sorcerer mana ≥ -1 |
| `Rules.RegeneratedKeepsSound` | src/main/kotlin/com/nyeinchan/kotlin/game/FantasyGame.kt:138-191 | regeneration keeps a character sound |
| `Rules.ManaReachesMinusOne` | src/main/kotlin/com/nyeinchan/kotlin/game/FantasyGame.kt:162-186 | a Sorcerer with mana 1 and health below 100 ends its attack at mana -1, so the floor of -1 is reached |
| `Rules.StaminaStaysNonNegative` | src/main/kotlin/com/nyeinchan/kotlin/game/FantasyGame.kt:113-136 | a Warrior's stamina that starts at 0 or more stays there through its attack and through defending |
| `Rules.ManaDebtOutlastsRegeneration` | src/main/kotlin/com/nyeinchan/kotlin/game/FantasyGame.kt:162-191 | a Sorcerer at mana -1 still cannot attack after one regeneration, and can after two |
| `Rules.DefeatedWarriorStillStrikes` | src/main/kotlin/com/nyeinchan/kotlin/game/FantasyGame.kt:77-121 | a Warrior at health 0 with stamina still damages its target, where the base attack would not |
| `Bouts.Round` | src/main/kotlin/com/nyeinchan/kotlin/game/FantasyGame.kt:205-231 | a round decided for the challenger leaves the opponent at health ≤ 0; one decided for the opponent leaves the challenger at health ≤ 0; a round that goes on leaves the challenger alive, and the opponent too when its healing power is not negative |
| `Bouts.Prepared` | src/main/kotlin/com/nyeinchan/kotlin/game/FantasyGame.kt:205-209 | before the first round nothing changes; before every later round both participants run beforeRounds (+1 stamina for a Warrior, +1 mana for a Sorcerer); health, archetypes and attack powers stay |
| `Bouts.FightFrom` | src/main/kotlin/com/nyeinchan/kotlin/game/FantasyGame.kt:203-236 | the rest of a fight from a given round keeps both participants' archetype and attack power, and names a winner only if a round was left to play |
| `Bouts.Fight` | src/main/kotlin/com/nyeinchan/kotlin/game/FantasyGame.kt:203-236 | a whole fight keeps both participants' archetype and attack power, and names a winner only when rounds > 0 |
| `Bouts.FightVerdict` | src/main/kotlin/com/nyeinchan/kotlin/game/FantasyGame.kt:203-236 | over a whole fight, a returned challenger has beaten the opponent to health ≤ 0 and a returned opponent the challenger; null after at least one round means the challenger is alive, and the opponent too when its healing cannot hurt it; a winning opponent is alive under the same condition |
| `Bouts.NoRoundsNoContest` | src/main/kotlin/com/nyeinchan/kotlin/game/FantasyGame.kt:205-235 | with rounds ≤ 0 the fight returns null and changes neither participant |
| `Bouts.ChallengerStrikesFirst` | src/main/kotlin/com/nyeinchan/kotlin/game/FantasyGame.kt:214-219 | when the challenger's attack brings the opponent to health ≤ 0 the fight ends with the challenger winning, and the opponent never attacks in that round: both are exactly as that attack left them |
| `Bouts.FightKeepsSound` | src/main/kotlin/com/nyeinchan/kotlin/game/FantasyGame.kt:203-236 | a fight between sound participants leaves both sound, whatever the verdict |
| `Bouts.RoundGoesOn` | src/main/kotlin/com/nyeinchan/kotlin/game/FantasyGame.kt:205-231 | a round in which both attacks leave their target alive hands the state after the two attacks to the next round |
| `Bouts.RoundLostByChallenger` | src/main/kotlin/com/nyeinchan/kotlin/game/FantasyGame.kt:221-227 | a round in which the opponent's attack brings the challenger to health ≤ 0 ends the fight with the opponent as winner, both as that attack left them |
| `Bouts.DemoRound1` | src/main/kotlin/com/nyeinchan/kotlin/game/FantasyGame.kt:240-256 | in the first round of the demonstration the Warrior blocks the whole fireball and both survive |
| `Bouts.DemoRound2` | src/main/kotlin/com/nyeinchan/kotlin/game/FantasyGame.kt:240-256 | in the second round the Sorcerer's attack costs two mana points and leaves it at mana -1 |
| `Bouts.DemoRound3` | src/main/kotlin/com/nyeinchan/kotlin/game/FantasyGame.kt:240-256 | in the third round the Sorcerer, back only to mana 0, cannot attack |
| `Bouts.DemoRound4` | src/main/kotlin/com/nyeinchan/kotlin/game/FantasyGame.kt:240-256 | in the fourth round the Sorcerer's fireball defeats the Warrior |
| `Bouts.DemoMatch` | src/main/kotlin/com/nyeinchan/kotlin/game/FantasyGame.kt:239-260 | with any budget of at least 4 rounds (the demonstration uses 5) the demonstration match ends with the opponent (the Sorcerer) winning at health 37 and mana -1, and the Warrior at health 0 and stamina 0 |
| `Game.Character.NewWarrior` | src/main/kotlin/com/nyeinchan/kotlin/game/FantasyGame.kt:98-111 | a Warrior is built only within the level's budget, with the given stats |
| `Game.Character.NewSorcerer` | src/main/kotlin/com/nyeinchan/kotlin/game/FantasyGame.kt:147-160 | a Sorcerer is built only within the level's budget, with the given stats |
| `Game.Character.TryWarrior` | src/main/kotlin/com/nyeinchan/kotlin/game/FantasyGame.kt:98-111 | Warrior creation, default stats included, is rejected exactly when health + attackPower + stamina exceeds the level's points, and otherwise yields a fresh Warrior with those stats |
| `Game.Character.TrySorcerer` | src/main/kotlin/com/nyeinchan/kotlin/game/FantasyGame.kt:147-160 | Sorcerer creation, default stats included, is rejected exactly when health + attackPower + mana exceeds the level's points, and otherwise yields a fresh Sorcerer with those stats |
| `Game.Character.SufferDamage` | src/main/kotlin/com/nyeinchan/kotlin/game/FantasyGame.kt:64-75 | the base takeDamage sets health to the clamped difference; with non-negative inputs `0 <= health' <= health` |
| `Game.Character.Defend` | src/main/kotlin/com/nyeinchan/kotlin/game/FantasyGame.kt:123-132 | returns the power that passes and updates stamina as `Rules.Mitigation` says |
| `Game.Character.TakeDamage` | src/main/kotlin/com/nyeinchan/kotlin/game/FantasyGame.kt:134-136 | the character's new state is `Rules.Received` of its old state: defend first for a Warrior, then the base clamp |
| `Game.Character.Heal` | src/main/kotlin/com/nyeinchan/kotlin/game/FantasyGame.kt:174-186 | the character's new state is `Rules.Healed` of its old state |
| `Game.Character.Attack` | src/main/kotlin/com/nyeinchan/kotlin/game/FantasyGame.kt:113-172 | on another target, both objects end as `Rules.AfterAttack` says; on itself, the object ends as `Rules.AfterSelfAttack` says |
| `Game.Character.BeforeRounds` | src/main/kotlin/com/nyeinchan/kotlin/game/FantasyGame.kt:138-191 | the character's new state is `Rules.Regenerated` of its old state |
| `Game.Character.AfterRound` | src/main/kotlin/com/nyeinchan/kotlin/game/FantasyGame.kt:143-144 | afterRound, empty in both archetypes (also 193-194), leaves the character unchanged |
| `Game.Match.constructor` | src/main/kotlin/com/nyeinchan/kotlin/game/FantasyGame.kt:197-201 | a match holds its round count and its two participants |
| `Game.Match.Fight` | src/main/kotlin/com/nyeinchan/kotlin/game/FantasyGame.kt:203-236 | the loop with its hooks and early returns leaves both participants as `Bouts.Fight` says, and returns the challenger, the opponent or null exactly for that fight's verdict |
| `Game.DefaultStatsExceedEveryLevel` | src/main/kotlin/com/nyeinchan/kotlin/game/FantasyGame.kt:98-160 | the default stats of either archetype exceed the budget of every level |
| `Game.DemoFight` | src/main/kotlin/com/nyeinchan/kotlin/game/FantasyGame.kt:239-260 | the demonstration builds both characters within budget and its fight returns Merlin |

## Left out

- Console narration (`println` in every operation, in `fight` and in `main`) is not modelled. It has no effect on state. No event log is kept.
- The `main` entry point is modelled only as `Game.DemoFight`, which builds the same match and proves who wins. Printing the winner's name is left out.
- The base `Character.beforeRounds` and `afterRound` bodies are `TODO()` and would throw. Both archetypes override them, so only the overrides are modelled.
- `src/main/kotlin/com/nyeinchan/kotlin/lesson06/Exercise01.kt` is not part of this model. It is unrelated to the combat engine, and its only decision picks a winner at random.
- The interfaces (`Damageable`, `Combatant`, `Defender`, `Healer`, `Recoverable`) are not modelled as types, because traits are not used here. Their operations are the methods of `Character`, and the archetype tag selects the override. A `Damageable` target that is not a Warrior or a Sorcerer is not modelled.
- Game.Match.Fight: requires the challenger and the opponent to be different objects. The source does not check this. A match of a character against itself is not modelled. `Character.Attack` does model attacking oneself.
- Kotlin `Int` is 32-bit and wraps on overflow. The model uses unbounded integers, so it does not capture wrap-around at extreme health, power, stamina or mana values.
- `attackPower` is declared `var` in `Character` but nothing assigns it, so it is a constant here. `name` and `level` are kept but no rule reads them after construction.
- Bouts.Round: the opponent's health is only stated positive at the end of a round when its healing power is not negative. The source accepts a negative healing power, and with one a Sorcerer's heal can bring its own health to 0 or below. The challenger's survival of a round that goes on needs no condition.
- Bouts.FightVerdict: the opponent's survival, when it wins or when the rounds run out, is stated only when its healing power is not negative, for the reason given for `Bouts.Round`. The challenger's survival when the rounds run out is stated for every fight.
