/** The combat rules of the two archetypes as functions on a value snapshot of a
    character: what takeDamage, defend, heal, attack and beforeRounds do to its
    health, stamina and mana. The classes in module Game are proved to follow them. */
module Rules {

  /** The health cap. Only heal enforces it; takeDamage never consults it. */
  const MaxHealth := 100

  /** A concrete archetype with its immutable archetype-specific power. */
  datatype Archetype = Warrior(defensePower: int) | Sorcerer(healingPower: int)

  /** Snapshot of one character's combat state. A Warrior reads and writes only
      `stamina`, a Sorcerer only `mana`; the other field is carried along unchanged. */
  datatype Fighter = Fighter(kind: Archetype, attackPower: int, health: int, stamina: int, mana: int)

  /** `max(0, x - y)`: the base takeDamage applies it to health and damage,
      Warrior.defend to incoming power and defense power. */
  function FlooredDifference(x: int, y: int): (r: int)
    ensures r >= 0 && r >= x - y
    ensures r == 0 || r == x - y
    ensures 0 <= x && 0 <= y ==> r <= x
  {
    if x - y > 0 then x - y else 0
  }

  /** What Warrior.defend returns, together with the stamina it leaves. */
  datatype Defense = Defense(passed: int, stamina: int)

  /** Warrior.defend: without stamina the full power passes and stamina stays;
      otherwise one stamina point buys a reduction by the defense power. */
  function Mitigation(stamina: int, defensePower: int, incoming: int): (d: Defense)
    ensures stamina <= 0 ==> d == Defense(incoming, stamina)
    ensures stamina > 0 ==> d.stamina == stamina - 1 && d.passed == FlooredDifference(incoming, defensePower)
    ensures stamina > 0 ==> (d.passed == 0 <==> incoming <= defensePower)
    ensures 0 <= incoming && 0 <= defensePower ==> 0 <= d.passed <= incoming
    ensures 0 <= stamina ==> 0 <= d.stamina
  {
    if stamina <= 0 then Defense(incoming, stamina)
    else Defense(FlooredDifference(incoming, defensePower), stamina - 1)
  }

  /** takeDamage dispatched on the receiver's archetype: a Warrior's override runs
      defend and hands what passes to the base clamp; a Sorcerer uses the base
      clamp on the full amount. Health is floored at 0 and never capped here. */
  function Received(f: Fighter, amount: int): (g: Fighter)
    ensures g.kind == f.kind && g.attackPower == f.attackPower && g.mana == f.mana
    ensures f.kind.Warrior? && f.stamina > 0 ==>
      g.stamina == f.stamina - 1 &&
      g.health == FlooredDifference(f.health, FlooredDifference(amount, f.kind.defensePower))
    ensures !(f.kind.Warrior? && f.stamina > 0) ==>
      g.stamina == f.stamina && g.health == FlooredDifference(f.health, amount)
    ensures 0 <= amount && 0 <= f.health ==> 0 <= g.health <= f.health
    ensures 0 <= amount && (f.kind.Warrior? ==> 0 <= f.kind.defensePower) ==>
      g.health >= FlooredDifference(f.health, amount)
  {
    match f.kind
    case Warrior(defensePower) =>
      var d := Mitigation(f.stamina, defensePower, amount);
      f.(health := FlooredDifference(f.health, d.passed), stamina := d.stamina)
    case Sorcerer(_) =>
      f.(health := FlooredDifference(f.health, amount))
  }

  /** `min(MaxHealth, x)`: the cap heal puts on raised health. */
  function Capped(x: int): (r: int)
    ensures r <= MaxHealth && r <= x
    ensures r == MaxHealth || r == x
  {
    if x < MaxHealth then x else MaxHealth
  }

  /** Sorcerer.heal: a no-op without mana or at full health; otherwise one mana
      point raises health by the healing power, up to the cap. */
  function Healed(f: Fighter): (g: Fighter)
    requires f.kind.Sorcerer?
    ensures g.kind == f.kind && g.attackPower == f.attackPower && g.stamina == f.stamina
    ensures f.mana <= 0 || f.health >= MaxHealth ==> g == f
    ensures 0 < f.mana && f.health < MaxHealth ==>
      g.mana == f.mana - 1 &&
      g.health <= MaxHealth && g.health <= f.health + f.kind.healingPower &&
      (g.health == MaxHealth || g.health == f.health + f.kind.healingPower)
    ensures 0 <= f.kind.healingPower ==> f.health <= g.health
    ensures f.health <= MaxHealth ==> g.health <= MaxHealth
  {
    if f.mana <= 0 || f.health >= MaxHealth then f
    else
      f.(mana := f.mana - 1, health := Capped(f.health + f.kind.healingPower))
  }

  /** A Sorcerer's heal never lowers health unless its healing power is negative,
      which the source does not rule out. */
  predicate HealingHelps(f: Fighter)
  {
    f.kind.Sorcerer? ==> 0 <= f.kind.healingPower
  }

  /** Whether an archetype's attack override goes ahead: a Warrior needs stamina
      and a Sorcerer mana. Neither override looks at the attacker's health. */
  predicate CanAttack(f: Fighter): (r: bool)
    ensures f.kind.Warrior? ==> (r <==> 0 < f.stamina)
    ensures f.kind.Sorcerer? ==> (r <==> 0 < f.mana)
  {
    match f.kind
    case Warrior(_) => f.stamina > 0
    case Sorcerer(_) => f.mana > 0
  }

  /** The attacker's own state after an attack that goes ahead, before any damage
      is dealt: a Warrior pays one stamina; a Sorcerer heals itself, then pays one mana. */
  function Spent(f: Fighter): (g: Fighter)
    requires CanAttack(f)
    ensures g.kind == f.kind && g.attackPower == f.attackPower
    ensures f.kind.Warrior? ==> g.health == f.health && g.stamina == f.stamina - 1 && g.mana == f.mana
    ensures f.kind.Sorcerer? ==>
      g.stamina == f.stamina && g.health == Healed(f).health &&
      g.mana == f.mana - (if f.health < MaxHealth then 2 else 1)
    ensures HealingHelps(f) ==> f.health <= g.health
  {
    match f.kind
    case Warrior(_) => f.(stamina := f.stamina - 1)
    case Sorcerer(_) => var h := Healed(f); h.(mana := h.mana - 1)
  }

  /** The attacker and the target after one attack. */
  datatype Exchange = Exchange(attacker: Fighter, target: Fighter)

  /** attack(target) of either archetype on a different character. */
  function AfterAttack(a: Fighter, t: Fighter): (e: Exchange)
    ensures !CanAttack(a) ==> e == Exchange(a, t)
    ensures CanAttack(a) ==> e.target == Received(t, a.attackPower)
    ensures CanAttack(a) && a.kind.Warrior? ==> e.attacker == a.(stamina := a.stamina - 1)
    ensures CanAttack(a) && a.kind.Sorcerer? ==>
      e.attacker.kind == a.kind && e.attacker.attackPower == a.attackPower &&
      e.attacker.stamina == a.stamina &&
      e.attacker.health == Healed(a).health &&
      e.attacker.mana == a.mana - (if a.health < MaxHealth then 2 else 1)
  {
    if CanAttack(a) then Exchange(Spent(a), Received(t, a.attackPower)) else Exchange(a, t)
  }

  /** attack(target) where the target is the attacker itself: the attacker's own
      update is followed by its own damage intake, in that order. */
  function AfterSelfAttack(a: Fighter): (g: Fighter)
    ensures !CanAttack(a) ==> g == a
    ensures CanAttack(a) ==> g == Received(AfterAttack(a, a).attacker, a.attackPower)
  {
    if CanAttack(a) then Received(Spent(a), a.attackPower) else a
  }

  /** beforeRounds: a Warrior regains one stamina point, a Sorcerer one mana point. */
  function Regenerated(f: Fighter): (g: Fighter)
    ensures g.kind == f.kind && g.attackPower == f.attackPower && g.health == f.health
    ensures f.kind.Warrior? ==> g.stamina == f.stamina + 1 && g.mana == f.mana
    ensures f.kind.Sorcerer? ==> g.mana == f.mana + 1 && g.stamina == f.stamina
  {
    match f.kind
    case Warrior(_) => f.(stamina := f.stamina + 1)
    case Sorcerer(_) => f.(mana := f.mana + 1)
  }

  /** Character.attack as the abstract base class writes it: a defeated character
      does not strike. Both archetypes override it, so no fight ever runs it. */
  function BaseAttack(a: Fighter, t: Fighter): (r: Fighter)
    ensures a.health <= 0 ==> r == t
    ensures a.health > 0 ==> r == Received(t, a.attackPower)
  {
    if a.health > 0 then Received(t, a.attackPower) else t
  }

  /** For every attacker with its resource, the overrides agree with the base
      attack on a living attacker and skip its health guard on a defeated one. */
  lemma OverridesSkipHealthGuard(a: Fighter, t: Fighter)
    requires CanAttack(a)
    ensures a.health > 0 ==> AfterAttack(a, t).target == BaseAttack(a, t)
    ensures a.health <= 0 ==>
      BaseAttack(a, t) == t && AfterAttack(a, t).target == Received(t, a.attackPower)
  {
  }

  /** Whether an attack goes ahead never depends on the attacker's health. */
  lemma CanAttackIgnoresHealth(f: Fighter, h: int)
    ensures CanAttack(f) == CanAttack(f.(health := h))
  {
  }

  /** The ranges the rules keep: health within [0, MaxHealth], non-negative powers
      that drive damage and healing, a Warrior's stamina at least 0 and a
      Sorcerer's mana at least -1 (an attack can cost two mana points). */
  predicate Sound(f: Fighter)
  {
    0 <= f.health <= MaxHealth && 0 <= f.attackPower &&
    match f.kind
    case Warrior(_) => 0 <= f.stamina
    case Sorcerer(healingPower) => 0 <= healingPower && -1 <= f.mana
  }

  /** Taking non-negative damage keeps a character sound. */
  lemma ReceivedKeepsSound(f: Fighter, amount: int)
    requires Sound(f) && 0 <= amount
    ensures Sound(Received(f, amount))
  {
  }

  /** An attack between sound characters leaves both sound. */
  lemma AttackKeepsSound(a: Fighter, t: Fighter)
    requires Sound(a) && Sound(t)
    ensures Sound(AfterAttack(a, t).attacker) && Sound(AfterAttack(a, t).target)
  {
    if CanAttack(a) {
      ReceivedKeepsSound(t, a.attackPower);
    }
  }

  /** Regeneration keeps a character sound. */
  lemma RegeneratedKeepsSound(f: Fighter)
    requires Sound(f)
    ensures Sound(Regenerated(f))
  {
  }

  /** The mana floor of -1 is reached: a Sorcerer with one mana point and health
      below the cap pays one point for the embedded heal and one for the attack. */
  lemma ManaReachesMinusOne()
    ensures var s := Fighter(Sorcerer(15), 4, 1, 0, 1);
      Sound(s) && AfterAttack(s, Fighter(Warrior(10), 3, 5, 1, 0)).attacker.mana == -1
  {
  }

  /** A Warrior's stamina starting at 0 or more never goes negative through its
      own attacks or through defending. */
  lemma StaminaStaysNonNegative(w: Fighter, other: Fighter, amount: int)
    requires w.kind.Warrior? && 0 <= w.stamina
    ensures 0 <= AfterAttack(w, other).attacker.stamina
    ensures 0 <= Received(w, amount).stamina
  {
  }

  /** A Sorcerer in mana debt is still unable to attack after one regeneration. */
  lemma ManaDebtOutlastsRegeneration(s: Fighter)
    requires s.kind.Sorcerer? && s.mana == -1
    ensures !CanAttack(Regenerated(s)) && CanAttack(Regenerated(Regenerated(s)))
  {
  }

  /** The overrides skip the base health guard: a Warrior at 0 health with stamina
      left still damages its target, where the base attack would not. */
  lemma DefeatedWarriorStillStrikes()
    ensures var w := Fighter(Warrior(10), 5, 0, 1, 0);
      var t := Fighter(Sorcerer(15), 4, 10, 0, 2);
      BaseAttack(w, t).health == 10 && AfterAttack(w, t).target.health == 5
  {
  }
}
