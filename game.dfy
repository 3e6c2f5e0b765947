/** The characters and the match as objects whose fields change in place, proved
    to follow the rules of module Rules and the fight of module Bouts. */
module Game {
  import opened Levels
  import opened Rules
  import opened Bouts

  /** Outcome of a checked construction: the new character, or the rejection
      carrying the level's allowed points. */
  datatype Construction = Built(character: Character) | ExceedsLevelPoints(allowed: int)

  /** A Warrior or a Sorcerer. The archetype fixes which resource field is used:
      `stamina` for a Warrior, `mana` for a Sorcerer; the other stays 0. */
  class Character {
    const name: string
    const level: CharacterLevel
    const kind: Archetype
    const attackPower: int
    var health: int
    var stamina: int
    var mana: int

    /** The combat state of this character as a value. */
    function Snapshot(): Fighter
      reads this
    {
      Fighter(kind, attackPower, health, stamina, mana)
    }

    /** The Warrior constructor; its `init` block demands the budget. */
    constructor NewWarrior(level: CharacterLevel, name: string, health: int, attackPower: int,
                           stamina: int, defensePower: int)
      requires WithinBudget(level, health, attackPower, stamina)
      ensures this.name == name && this.level == level
      ensures Snapshot() == Fighter(Warrior(defensePower), attackPower, health, stamina, 0)
    {
      this.name := name;
      this.level := level;
      this.kind := Warrior(defensePower);
      this.attackPower := attackPower;
      this.health := health;
      this.stamina := stamina;
      this.mana := 0;
    }

    /** The Sorcerer constructor; its `init` block demands the budget. */
    constructor NewSorcerer(level: CharacterLevel, name: string, health: int, attackPower: int,
                            mana: int, healingPower: int)
      requires WithinBudget(level, health, attackPower, mana)
      ensures this.name == name && this.level == level
      ensures Snapshot() == Fighter(Sorcerer(healingPower), attackPower, health, 0, mana)
    {
      this.name := name;
      this.level := level;
      this.kind := Sorcerer(healingPower);
      this.attackPower := attackPower;
      this.health := health;
      this.stamina := 0;
      this.mana := mana;
    }

    /** Creating a Warrior with the source's default stats; rejected exactly when
        health, attack power and stamina exceed the level's points. */
    static method TryWarrior(level: CharacterLevel, name: string, health: int := 100,
                             attackPower: int := 20, stamina: int := 100, defensePower: int := 10)
      returns (r: Construction)
      ensures r.Built? <==> health + attackPower + stamina <= Points(level)
      ensures r.ExceedsLevelPoints? ==> r.allowed == Points(level)
      ensures r.Built? ==> fresh(r.character)
      ensures r.Built? ==> r.character.name == name && r.character.level == level
      ensures r.Built? ==> r.character.Snapshot() == Fighter(Warrior(defensePower), attackPower, health, stamina, 0)
    {
      if WithinBudget(level, health, attackPower, stamina) {
        var c := new Character.NewWarrior(level, name, health, attackPower, stamina, defensePower);
        r := Built(c);
      } else {
        r := ExceedsLevelPoints(Points(level));
      }
    }

    /** Creating a Sorcerer with the source's default stats; rejected exactly when
        health, attack power and mana exceed the level's points. */
    static method TrySorcerer(level: CharacterLevel, name: string, health: int := 100,
                              attackPower: int := 25, mana: int := 100, healingPower: int := 15)
      returns (r: Construction)
      ensures r.Built? <==> health + attackPower + mana <= Points(level)
      ensures r.ExceedsLevelPoints? ==> r.allowed == Points(level)
      ensures r.Built? ==> fresh(r.character)
      ensures r.Built? ==> r.character.name == name && r.character.level == level
      ensures r.Built? ==> r.character.Snapshot() == Fighter(Sorcerer(healingPower), attackPower, health, 0, mana)
    {
      if WithinBudget(level, health, attackPower, mana) {
        var c := new Character.NewSorcerer(level, name, health, attackPower, mana, healingPower);
        r := Built(c);
      } else {
        r := ExceedsLevelPoints(Points(level));
      }
    }

    /** The base takeDamage: health drops by the amount, floored at 0. */
    method SufferDamage(amount: int)
      modifies this`health
      ensures health == FlooredDifference(old(health), amount)
      ensures 0 <= amount && 0 <= old(health) ==> 0 <= health <= old(health)
    {
      health := FlooredDifference(health, amount);
    }

    /** Warrior.defend: returns the power that gets through. */
    method Defend(incoming: int) returns (passed: int)
      requires kind.Warrior?
      modifies this`stamina
      ensures Defense(passed, stamina) == Mitigation(old(stamina), kind.defensePower, incoming)
    {
      if stamina <= 0 {
        return incoming;
      }
      passed := FlooredDifference(incoming, kind.defensePower);
      stamina := stamina - 1;
    }

    /** takeDamage as dispatched: a Warrior defends first, then both use the base clamp. */
    method TakeDamage(amount: int)
      modifies this
      ensures Snapshot() == Received(old(Snapshot()), amount)
    {
      if kind.Warrior? {
        var passed := Defend(amount);
        SufferDamage(passed);
      } else {
        SufferDamage(amount);
      }
    }

    /** Sorcerer.heal. */
    method Heal()
      requires kind.Sorcerer?
      modifies this
      ensures Snapshot() == Healed(old(Snapshot()))
    {
      if mana <= 0 {
      } else if health >= MaxHealth {
      } else {
        mana := mana - 1;
        health := Capped(health + kind.healingPower);
      }
    }

    /** attack(target) as each archetype overrides it. The target may be this very
        character, in which case the two updates land on the same object. */
    method Attack(target: Character)
      modifies this, target
      ensures target != this ==>
        Exchange(Snapshot(), target.Snapshot()) == AfterAttack(old(Snapshot()), old(target.Snapshot()))
      ensures target == this ==> Snapshot() == AfterSelfAttack(old(Snapshot()))
    {
      match kind
      case Warrior(_) =>
        if stamina <= 0 {
        } else {
          stamina := stamina - 1;
          target.TakeDamage(attackPower);
        }
      case Sorcerer(_) =>
        if mana <= 0 {
        } else {
          Heal();
          mana := mana - 1;
          target.TakeDamage(attackPower);
        }
    }

    /** beforeRounds: one point of the archetype's resource comes back. */
    method BeforeRounds()
      modifies this
      ensures Snapshot() == Regenerated(old(Snapshot()))
    {
      match kind
      case Warrior(_) => stamina := stamina + 1;
      case Sorcerer(_) => mana := mana + 1;
    }

    /** afterRound: both archetypes leave it empty, so it changes nothing. */
    method AfterRound()
      ensures Snapshot() == old(Snapshot())
    {
    }
  }

  /** A match of a fixed number of rounds between two characters. */
  class Match {
    const rounds: int
    const challenger: Character
    const opponent: Character

    constructor (rounds: int, challenger: Character, opponent: Character)
      ensures this.rounds == rounds && this.challenger == challenger && this.opponent == opponent
    {
      this.rounds := rounds;
      this.challenger := challenger;
      this.opponent := opponent;
    }

    /** The participants' combat state as a value. */
    function Participants(): Bout
      reads this, challenger, opponent
    {
      Bout(challenger.Snapshot(), opponent.Snapshot())
    }

    /** fight(): plays the rounds on the two characters in place and returns the
        winner, or null when the rounds run out. The verdict and the participants'
        final state are those of the fight function of module Bouts. */
    method Fight() returns (winner: Character?)
      requires challenger != opponent
      modifies challenger, opponent
      ensures var e := Bouts.Fight(rounds, old(Participants()));
        Participants() == e.last &&
        (winner == challenger <==> e.verdict == ChallengerWins) &&
        (winner == opponent <==> e.verdict == OpponentWins) &&
        (winner == null <==> e.verdict == NoContest)
    {
      ghost var start := Participants();
      var roundIndex := 0;
      while roundIndex < rounds
        invariant 0 <= roundIndex
        invariant FightFrom(roundIndex, rounds, Participants()) == Bouts.Fight(rounds, start)
        decreases rounds - roundIndex
      {
        ghost var before := Participants();
        if roundIndex > 0 {
          challenger.BeforeRounds();
          opponent.BeforeRounds();
        }
        assert Participants() == Prepared(roundIndex, before);

        challenger.Attack(opponent);
        if opponent.health <= 0 {
          challenger.AfterRound();
          opponent.AfterRound();
          return challenger;
        }

        opponent.Attack(challenger);
        if challenger.health <= 0 {
          challenger.AfterRound();
          opponent.AfterRound();
          return opponent;
        }

        challenger.AfterRound();
        opponent.AfterRound();
        roundIndex := roundIndex + 1;
      }
      return null;
    }
  }

  /** With the default stats no level can hold either archetype: 100 + 20 + 100
      and 100 + 25 + 100 both exceed the largest budget of 100 points. */
  lemma DefaultStatsExceedEveryLevel(level: CharacterLevel)
    ensures !WithinBudget(level, 100, 20, 100) && !WithinBudget(level, 100, 25, 100)
  {
  }

  /** The repository's demonstration: Leon the Warrior challenges Merlin the
      Sorcerer, both at level 2, over 5 rounds; Merlin wins. */
  method DemoFight() returns (winner: Character?)
    ensures winner != null && winner.name == "Merlin"
  {
    var leon := Character.TryWarrior(Level2, "Leon", health := 5, attackPower := 3, stamina := 2);
    var merlin := Character.TrySorcerer(Level2, "Merlin", health := 4, attackPower := 4, mana := 2);
    assert leon.Built? && merlin.Built?;
    var m := new Match(5, leon.character, merlin.character);
    DemoMatch(5);
    winner := m.Fight();
  }
}
