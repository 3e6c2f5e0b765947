/** Match.fight as a function on snapshots of the two participants: the rounds,
    the regeneration hooks, the early endings and the verdict. */
module Bouts {
  import opened Rules

  /** Both participants of a match, challenger first. */
  datatype Bout = Bout(challenger: Fighter, opponent: Fighter)

  /** Who fight() returns: the challenger, the opponent, or null. */
  datatype Verdict = ChallengerWins | OpponentWins | NoContest

  /** The verdict and the participants as fight() leaves them. */
  datatype Ending = Ending(verdict: Verdict, last: Bout)

  /** What one round leads to: an ending, or the state the next round starts from. */
  datatype Step = Decided(ending: Ending) | Continue(next: Bout)

  /** Both participants keep their archetype and attack power from `b` to `c`:
      a fight changes only health, stamina and mana. */
  predicate SameCast(b: Bout, c: Bout)
  {
    c.challenger.kind == b.challenger.kind && c.challenger.attackPower == b.challenger.attackPower &&
    c.opponent.kind == b.opponent.kind && c.opponent.attackPower == b.opponent.attackPower
  }

  /** The hooks before round `index`: none before the first round, beforeRounds of
      the challenger and then of the opponent before every later one. */
  function Prepared(index: int, b: Bout): (p: Bout)
    ensures SameCast(b, p)
    ensures p.challenger.health == b.challenger.health && p.opponent.health == b.opponent.health
    ensures index <= 0 ==> p == b
    ensures index > 0 ==> p.challenger == Regenerated(b.challenger) && p.opponent == Regenerated(b.opponent)
  {
    if index > 0 then Bout(Regenerated(b.challenger), Regenerated(b.opponent)) else b
  }

  /** One round: the challenger attacks and wins at once if the opponent's health
      is then at most 0; otherwise the opponent attacks back and wins if the
      challenger's health is then at most 0; otherwise the match goes on. */
  function Round(index: int, b: Bout): (s: Step)
    ensures s.Decided? ==> s.ending.verdict != NoContest && SameCast(b, s.ending.last)
    ensures s.Continue? ==> SameCast(b, s.next)
    ensures s.Decided? && s.ending.verdict == ChallengerWins ==> s.ending.last.opponent.health <= 0
    ensures s.Decided? && s.ending.verdict == OpponentWins ==> s.ending.last.challenger.health <= 0
    ensures s.Continue? ==> 0 < s.next.challenger.health
    ensures HealingHelps(b.opponent) && s.Decided? && s.ending.verdict == OpponentWins ==>
      0 < s.ending.last.opponent.health
    ensures HealingHelps(b.opponent) && s.Continue? ==> 0 < s.next.opponent.health
  {
    var p := Prepared(index, b);
    var first := AfterAttack(p.challenger, p.opponent);
    if first.target.health <= 0 then
      Decided(Ending(ChallengerWins, Bout(first.attacker, first.target)))
    else
      var second := AfterAttack(first.target, first.attacker);
      if second.target.health <= 0 then
        Decided(Ending(OpponentWins, Bout(second.target, second.attacker)))
      else
        Continue(Bout(second.target, second.attacker))
  }

  /** The rest of a fight of `rounds` rounds, starting at round `index`. */
  function FightFrom(index: int, rounds: int, b: Bout): (e: Ending)
    ensures SameCast(b, e.last)
    ensures e.verdict != NoContest ==> index < rounds
    decreases rounds - index
  {
    if index >= rounds then Ending(NoContest, b)
    else
      match Round(index, b)
      case Decided(e) => e
      case Continue(next) => FightFrom(index + 1, rounds, next)
  }

  /** A whole fight of `rounds` rounds. */
  function Fight(rounds: int, b: Bout): (e: Ending)
    ensures SameCast(b, e.last)
    ensures e.verdict != NoContest ==> 0 < rounds
  {
    FightFrom(0, rounds, b)
  }

  /** What each verdict says about the participants' health at the end: a winner's
      foe is at most 0, and a match that played at least one round without a winner
      leaves the challenger alive; when the opponent's healing cannot hurt it, an
      opponent that wins is alive, and so is one that ends a match without a winner. */
  lemma {:induction false} FightVerdict(index: int, rounds: int, b: Bout)
    ensures var e := FightFrom(index, rounds, b);
      (e.verdict == ChallengerWins ==> e.last.opponent.health <= 0) &&
      (e.verdict == OpponentWins ==> e.last.challenger.health <= 0) &&
      (HealingHelps(b.opponent) && e.verdict == OpponentWins ==> 0 < e.last.opponent.health) &&
      (e.verdict == NoContest && index < rounds ==> 0 < e.last.challenger.health) &&
      (HealingHelps(b.opponent) && e.verdict == NoContest && index < rounds ==>
        0 < e.last.opponent.health)
    decreases rounds - index
  {
    if index < rounds {
      match Round(index, b)
      case Decided(_) =>
      case Continue(next) => FightVerdict(index + 1, rounds, next);
    }
  }

  /** With no rounds to play, fight() returns null and touches neither participant. */
  lemma NoRoundsNoContest(rounds: int, b: Bout)
    requires rounds <= 0
    ensures Fight(rounds, b) == Ending(NoContest, b)
  {
  }

  /** Challenger-first ordering: when the challenger's attack in a round brings the
      opponent to at most 0 health, the fight ends there with the challenger as
      winner, and the opponent stays exactly as that attack left it. */
  lemma ChallengerStrikesFirst(index: int, rounds: int, b: Bout)
    requires index < rounds
    requires var p := Prepared(index, b);
      AfterAttack(p.challenger, p.opponent).target.health <= 0
    ensures var p := Prepared(index, b);
      var x := AfterAttack(p.challenger, p.opponent);
      FightFrom(index, rounds, b) == Ending(ChallengerWins, Bout(x.attacker, x.target))
  {
  }

  /** A fight between sound participants leaves both sound, whatever the verdict:
      health stays within [0, MaxHealth], a Warrior's stamina at 0 or more and a
      Sorcerer's mana at -1 or more. */
  lemma {:induction false} FightKeepsSound(index: int, rounds: int, b: Bout)
    requires Sound(b.challenger) && Sound(b.opponent)
    ensures Sound(FightFrom(index, rounds, b).last.challenger)
    ensures Sound(FightFrom(index, rounds, b).last.opponent)
    decreases rounds - index
  {
    if index < rounds {
      var p := Prepared(index, b);
      if index > 0 {
        RegeneratedKeepsSound(b.challenger);
        RegeneratedKeepsSound(b.opponent);
      }
      var first := AfterAttack(p.challenger, p.opponent);
      AttackKeepsSound(p.challenger, p.opponent);
      AttackKeepsSound(first.target, first.attacker);
      match Round(index, b)
      case Decided(_) =>
      case Continue(next) => FightKeepsSound(index + 1, rounds, next);
    }
  }

  /** A round whose two attacks both leave their target alive hands the state
      after them to the next round. */
  lemma RoundGoesOn(index: int, b: Bout, first: Exchange, second: Exchange)
    requires first == AfterAttack(Prepared(index, b).challenger, Prepared(index, b).opponent)
    requires first.target.health > 0
    requires second == AfterAttack(first.target, first.attacker)
    requires second.target.health > 0
    ensures Round(index, b) == Continue(Bout(second.target, second.attacker))
  {
  }

  /** A round whose second attack leaves the challenger at health 0 or below ends
      the fight for the opponent. */
  lemma RoundLostByChallenger(index: int, b: Bout, first: Exchange, second: Exchange)
    requires first == AfterAttack(Prepared(index, b).challenger, Prepared(index, b).opponent)
    requires first.target.health > 0
    requires second == AfterAttack(first.target, first.attacker)
    requires second.target.health <= 0
    ensures Round(index, b) == Decided(Ending(OpponentWins, Bout(second.target, second.attacker)))
  {
  }

  /** A fight whose fourth round is decided, the first three having gone on,
      ends as that round does whenever at least four rounds are allowed. */
  lemma DecidedInFourthRound(rounds: int, b0: Bout, b1: Bout, b2: Bout, b3: Bout, e: Ending)
    requires 4 <= rounds
    requires Round(0, b0) == Continue(b1) && Round(1, b1) == Continue(b2)
    requires Round(2, b2) == Continue(b3) && Round(3, b3) == Decided(e)
    ensures Fight(rounds, b0) == e
  {
    calc {
      Fight(rounds, b0);
      FightFrom(1, rounds, b1);
      FightFrom(2, rounds, b2);
      FightFrom(3, rounds, b3);
      e;
    }
  }

  /** The two characters of the demonstration match, as (health, stamina) for the
      Warrior and (health, mana) for the Sorcerer. */
  function Leon(health: int, stamina: int): Fighter
  {
    Fighter(Warrior(10), 3, health, stamina, 0)
  }

  function Merlin(health: int, mana: int): Fighter
  {
    Fighter(Sorcerer(15), 4, health, 0, mana)
  }

  /** Round 1 of the demonstration: the Warrior strikes the Sorcerer from 4 down to 1;
      the Sorcerer heals to 16, pays for the fireball, and the Warrior blocks all of it. */
  lemma DemoRound1()
    ensures Round(0, Bout(Leon(5, 2), Merlin(4, 2))) == Continue(Bout(Leon(5, 0), Merlin(16, 0)))
  {
    assert AfterAttack(Leon(5, 2), Merlin(4, 2)) == Exchange(Leon(5, 1), Merlin(1, 2));
    assert AfterAttack(Merlin(1, 2), Leon(5, 1)) == Exchange(Merlin(16, 0), Leon(5, 0));
    RoundGoesOn(0, Bout(Leon(5, 2), Merlin(4, 2)), Exchange(Leon(5, 1), Merlin(1, 2)),
                Exchange(Merlin(16, 0), Leon(5, 0)));
  }

  /** Round 2: after regeneration the Warrior spends its last stamina point; the
      Sorcerer heals from 13 to 28 and ends in mana debt, and its fireball is not blocked. */
  lemma DemoRound2()
    ensures Round(1, Bout(Leon(5, 0), Merlin(16, 0))) == Continue(Bout(Leon(1, 0), Merlin(28, -1)))
  {
    assert Prepared(1, Bout(Leon(5, 0), Merlin(16, 0))) == Bout(Leon(5, 1), Merlin(16, 1));
    assert AfterAttack(Leon(5, 1), Merlin(16, 1)) == Exchange(Leon(5, 0), Merlin(13, 1));
    assert AfterAttack(Merlin(13, 1), Leon(5, 0)) == Exchange(Merlin(28, -1), Leon(1, 0));
    RoundGoesOn(1, Bout(Leon(5, 0), Merlin(16, 0)), Exchange(Leon(5, 0), Merlin(13, 1)),
                Exchange(Merlin(28, -1), Leon(1, 0)));
  }

  /** Round 3: regeneration brings the Sorcerer only to mana 0, so it cannot attack. */
  lemma DemoRound3()
    ensures Round(2, Bout(Leon(1, 0), Merlin(28, -1))) == Continue(Bout(Leon(1, 0), Merlin(25, 0)))
  {
    assert Prepared(2, Bout(Leon(1, 0), Merlin(28, -1))) == Bout(Leon(1, 1), Merlin(28, 0));
    assert AfterAttack(Leon(1, 1), Merlin(28, 0)) == Exchange(Leon(1, 0), Merlin(25, 0));
    assert AfterAttack(Merlin(25, 0), Leon(1, 0)) == Exchange(Merlin(25, 0), Leon(1, 0));
    RoundGoesOn(2, Bout(Leon(1, 0), Merlin(28, -1)), Exchange(Leon(1, 0), Merlin(25, 0)),
                Exchange(Merlin(25, 0), Leon(1, 0)));
  }

  /** Round 4: the Sorcerer heals from 22 to 37 and its fireball finishes the Warrior. */
  lemma DemoRound4()
    ensures Round(3, Bout(Leon(1, 0), Merlin(25, 0)))
      == Decided(Ending(OpponentWins, Bout(Leon(0, 0), Merlin(37, -1))))
  {
    assert Prepared(3, Bout(Leon(1, 0), Merlin(25, 0))) == Bout(Leon(1, 1), Merlin(25, 1));
    assert AfterAttack(Leon(1, 1), Merlin(25, 1)) == Exchange(Leon(1, 0), Merlin(22, 1));
    assert AfterAttack(Merlin(22, 1), Leon(1, 0)) == Exchange(Merlin(37, -1), Leon(0, 0));
    RoundLostByChallenger(3, Bout(Leon(1, 0), Merlin(25, 0)), Exchange(Leon(1, 0), Merlin(22, 1)),
                          Exchange(Merlin(37, -1), Leon(0, 0)));
  }

  /** The demonstration match of the repository: a level-2 Warrior (health 5,
      attack 3, stamina 2, defense 10) challenges a level-2 Sorcerer (health 4,
      attack 4, mana 2, healing 15). Given at least 4 rounds (the demonstration
      uses 5), the Sorcerer wins in the fourth round, having spent its mana down to -1. */
  lemma DemoMatch(rounds: int)
    requires 4 <= rounds
    ensures Fight(rounds, Bout(Fighter(Warrior(10), 3, 5, 2, 0), Fighter(Sorcerer(15), 4, 4, 0, 2)))
      == Ending(OpponentWins, Bout(Fighter(Warrior(10), 3, 0, 0, 0), Fighter(Sorcerer(15), 4, 37, 0, -1)))
  {
    DemoRound1();
    DemoRound2();
    DemoRound3();
    DemoRound4();
    DecidedInFourthRound(rounds, Bout(Leon(5, 2), Merlin(4, 2)), Bout(Leon(5, 0), Merlin(16, 0)),
      Bout(Leon(1, 0), Merlin(28, -1)), Bout(Leon(1, 0), Merlin(25, 0)),
      Ending(OpponentWins, Bout(Leon(0, 0), Merlin(37, -1))));
  }
}
