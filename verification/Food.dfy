/** A player's food, saturation, exhaustion and health (Player::_foodTick and Player::_eat), with floats as reals. */
module Food {

  const MAX_FOOD := 20
  const MIN_FOOD := 0
  const REGENERATION := 18

  datatype Status = Status(food: int, saturation: real, exhaustion: real, timer: int, health: real)

  ghost predicate Ok(s: Status) {
    && MIN_FOOD <= s.food <= MAX_FOOD
    && -1.0 < s.saturation <= s.food as real
    && s.exhaustion >= 0.0
    && 0 <= s.timer <= 80
  }

  /** The three outcomes of one tick besides the timer; at most one of them happens. */
  datatype Outcome = Quiet | Starved | Healed(amount: real) | Drained

  /** What a tick amounts to. */
  function Judge(s: Status, maxHealth: real): Outcome {
    if s.food == MIN_FOOD && s.health > 10.0 && s.timer >= 80 then Starved
    else if s.food >= REGENERATION && s.health < maxHealth && s.saturation > 0.0 && s.food == MAX_FOOD
        && s.timer >= 10 then
      Healed(if s.saturation / 6.0 >= 1.0 then 1.0 else s.saturation / 6.0)
    else if s.food >= REGENERATION && s.health < maxHealth && s.timer >= 80 then Healed(1.0)
    else if s.exhaustion >= 4.0 then Drained
    else Quiet
  }

  /** Food and saturation after a drain: saturation goes first. */
  function Spent(s: Status): Status {
    if s.saturation > 0.0 then s.(saturation := s.saturation - 1.0, exhaustion := s.exhaustion - 4.0)
    else s.(food := if s.food > 0 then s.food - 1 else s.food, exhaustion := s.exhaustion - 4.0)
  }

  function AfterOutcome(s: Status, o: Outcome): Status {
    match o
    case Starved => s.(health := s.health - 1.0, timer := 0)
    case Healed(amount) => s.(health := s.health + amount, exhaustion := s.exhaustion + 6.0, timer := 0)
    case Drained => Spent(s)
    case Quiet => s
  }

  /** One tick: the outcome, then the timer, which restarts below the regeneration level and runs while it waits
      to heal or to starve. */
  function Tick(s: Status, maxHealth: real): Status {
    var t := AfterOutcome(s, Judge(s, maxHealth));
    var u := if 0 < t.food < REGENERATION && t.timer > 0 then t.(timer := 0) else t;
    var waits := (u.food >= REGENERATION && u.health < maxHealth) || (u.food == MIN_FOOD && u.health > 10.0);
    if Judge(s, maxHealth).Quiet? && waits then u.(timer := u.timer + 1) else u
  }

  function Eaten(s: Status, foodValue: int, saturation: real): Status {
    if s.food >= MAX_FOOD then s
    else
      var food := if s.food + foodValue > MAX_FOOD then MAX_FOOD else s.food + foodValue;
      s.(food := food,
         saturation := if s.saturation + saturation > food as real then food as real else s.saturation + saturation)
  }

  lemma TickKeepsOk(s: Status, maxHealth: real)
    requires Ok(s)
    ensures Ok(Tick(s, maxHealth))
  {}

  /** A tick heals or hurts by at most 1, and a tick that heals takes neither food nor saturation. */
  lemma TickIsGentle(s: Status, maxHealth: real)
    requires Ok(s)
    ensures s.health - 1.0 <= Tick(s, maxHealth).health <= s.health + 1.0
    ensures Tick(s, maxHealth).health > s.health ==>
              Tick(s, maxHealth).food == s.food && Tick(s, maxHealth).saturation == s.saturation && s.health < maxHealth
    ensures Tick(s, maxHealth).health < s.health ==> s.food == MIN_FOOD && s.health > 10.0
    ensures Tick(s, maxHealth).food < s.food ==>
              s.saturation <= 0.0 && Tick(s, maxHealth).food == s.food - 1 && Tick(s, maxHealth).health == s.health
  {}

  lemma EatKeepsOk(s: Status, foodValue: int, saturation: real)
    requires Ok(s) && foodValue >= 0 && saturation >= 0.0
    ensures Ok(Eaten(s, foodValue, saturation))
  {}

  // ----- Ticks and meals in numbers -----

  function Ticks(s: Status, maxHealth: real, n: nat): Status {
    if n == 0 then s else Tick(Ticks(s, maxHealth, n - 1), maxHealth)
  }

  /** A hurt player that is not tired and has food 18 or more, but not both food 20 and saturation, heals 1 with every
      81st tick. */
  lemma {:induction false} HealsSlowly(s: Status, maxHealth: real, n: nat)
    requires 18 <= s.food && (s.food < 20 || s.saturation <= 0.0) && s.exhaustion < 4.0 && s.timer == 0
    requires s.health < maxHealth && n <= 81
    ensures Ticks(s, maxHealth, n) == if n <= 80 then s.(timer := n)
                                      else s.(health := s.health + 1.0, exhaustion := s.exhaustion + 6.0, timer := 0)
  {
    if n > 0 { HealsSlowly(s, maxHealth, n - 1); }
  }

  /** With food 20 and saturation it is every 11th tick, by a sixth of the saturation and at most by 1. */
  lemma {:induction false} HealsFast(s: Status, maxHealth: real, n: nat)
    requires s.food == 20 && s.saturation > 0.0 && s.exhaustion < 4.0 && s.timer == 0 && s.health < maxHealth && n <= 11
    ensures Ticks(s, maxHealth, n) ==
            if n <= 10 then s.(timer := n)
            else
              var gain := if s.saturation >= 6.0 then 1.0 else s.saturation / 6.0;
              s.(health := s.health + gain, exhaustion := s.exhaustion + 6.0, timer := 0)
  {
    if n > 0 { HealsFast(s, maxHealth, n - 1); }
  }

  /** Without food a player that is not tired loses 1 with every 81st tick, as long as it has more than 10. */
  lemma {:induction false} StarvesSlowly(s: Status, maxHealth: real, n: nat)
    requires s.food == 0 && s.exhaustion < 4.0 && s.timer == 0 && s.health > 10.0 && n <= 81
    ensures Ticks(s, maxHealth, n) == if n <= 80 then s.(timer := n) else s.(health := s.health - 1.0, timer := 0)
  {
    if n > 0 { StarvesSlowly(s, maxHealth, n - 1); }
  }

  /** Exhaustion of 4 or more costs 1 of saturation, or 1 of food when there is none, in each tick that does not heal or
      hurt. */
  lemma DrainsInNumbers(s: Status, maxHealth: real)
    requires Ok(s) && s.exhaustion >= 4.0 && s.timer < 10
    ensures var t := Tick(s, maxHealth);
            && t.exhaustion == s.exhaustion - 4.0 && t.health == s.health
            && (s.saturation > 0.0 ==> t.saturation == s.saturation - 1.0 && t.food == s.food)
            && (s.saturation <= 0.0 ==> t.saturation == s.saturation && t.food == if s.food > 0 then s.food - 1 else 0)
  {}

  /** From 1 to 17 food, a player that is not tired neither heals nor starves, and the timer rests. */
  lemma RestsInNumbers(s: Status, maxHealth: real)
    requires Ok(s) && 1 <= s.food <= 17 && s.exhaustion < 4.0
    ensures Tick(s, maxHealth) == s.(timer := 0)
  {}

  /** A meal adds its food up to 20, and its saturation up to the food; a full player is left as it is. */
  lemma EatInNumbers(s: Status, foodValue: nat, saturation: real)
    requires Ok(s) && saturation >= 0.0
    ensures var t := Eaten(s, foodValue, saturation);
            && (s.food == 20 ==> t == s)
            && (s.food + foodValue <= 20 && s.food < 20 ==> t.food == s.food + foodValue)
            && (s.food + foodValue > 20 ==> t.food == 20)
            && (s.food < 20 && s.saturation + saturation <= t.food as real ==>
                 t.saturation == s.saturation + saturation)
            && (s.food < 20 && s.saturation + saturation > t.food as real ==> t.saturation == t.food as real)
            && t.food >= s.food && t.saturation >= s.saturation
            && (t.health, t.exhaustion, t.timer) == (s.health, s.exhaustion, s.timer)
  {}

  datatype Action =
    | TickOnce(maxHealth: real)
    | Eat(foodValue: nat, saturation: real)
    | Exert(exhaustion: real)      // running, jumping, digging and fighting
    | Hurt(health: real)           // health set from elsewhere

  predicate Legal(a: Action) {
    match a
    case Eat(_, saturation) => saturation >= 0.0
    case Exert(exhaustion) => exhaustion >= 0.0
    case _ => true
  }

  function Act(s: Status, a: Action): Status {
    match a
    case TickOnce(maxHealth) => Tick(s, maxHealth)
    case Eat(foodValue, saturation) => Eaten(s, foodValue, saturation)
    case Exert(exhaustion) => s.(exhaustion := s.exhaustion + exhaustion)
    case Hurt(health) => s.(health := health)
  }

  function Run(s: Status, actions: seq<Action>): Status {
    if actions == [] then s else Act(Run(s, actions[..|actions| - 1]), actions[|actions| - 1])
  }

  /** The bounds hold after every run of ticks and meals, whatever else tires or hurts the player. */
  lemma {:induction false} RunKeepsOk(s: Status, actions: seq<Action>)
    requires Ok(s) && forall k :: 0 <= k < |actions| ==> Legal(actions[k])
    ensures Ok(Run(s, actions))
    decreases |actions|
  {
    hide Tick, Eaten;
    if actions != [] {
      var front, a := actions[..|actions| - 1], actions[|actions| - 1];
      RunKeepsOk(s, front);
      assert Legal(a);
      match a
      case TickOnce(maxHealth) => TickKeepsOk(Run(s, front), maxHealth);
      case Eat(foodValue, saturation) => EatKeepsOk(Run(s, front), foodValue, saturation);
      case _ =>
    }
  }

  class Player {
    var health: real
    var maxHealth: real
    var foodLevel: int
    var foodSaturationLevel: real
    var foodExhaustionLevel: real
    var foodTickTimer: int

    ghost function Value(): Status
      reads this
    {
      Status(foodLevel, foodSaturationLevel, foodExhaustionLevel, foodTickTimer, health)
    }

    /** A new player, with the levels the source starts from. */
    constructor (health: real, maxHealth: real)
      ensures Ok(Value()) && this.maxHealth == maxHealth && this.health == health
    {
      this.health, this.maxHealth := health, maxHealth;
      foodLevel, foodSaturationLevel, foodExhaustionLevel, foodTickTimer := MAX_FOOD - 4, 5.0, 0.0, 0;
    }

    /** `mortal`: survival or adventure mode. */
    method FoodTick(mortal: bool)
      modifies this
      ensures maxHealth == old(maxHealth)
      ensures Value() == if mortal then Tick(old(Value()), maxHealth) else old(Value())
    {
      if !mortal { return; }
      var needUpdate := false;
      if foodLevel == MIN_FOOD && health > 10.0 && foodTickTimer >= 80 {
        health := health - 1.0;
        foodTickTimer := 0;
        needUpdate := true;
      }
      if foodLevel >= REGENERATION && health < maxHealth {
        if foodSaturationLevel > 0.0 && foodLevel == MAX_FOOD && foodTickTimer >= 10 {
          health := health + (if (1.0 / 6.0) * foodSaturationLevel >= 1.0 then 1.0
              else (1.0 / 6.0) * foodSaturationLevel);
          foodExhaustionLevel := foodExhaustionLevel + 6.0;
          foodTickTimer := 0;
          needUpdate := true;
        }
        if foodTickTimer >= 80 {
          health := health + 1.0;
          foodExhaustionLevel := foodExhaustionLevel + 6.0;
          foodTickTimer := 0;
          needUpdate := true;
        }
      }
      if foodExhaustionLevel >= 4.0 && !needUpdate {
        foodExhaustionLevel := foodExhaustionLevel - 4.0;
        if foodSaturationLevel > 0.0 {
          foodSaturationLevel := foodSaturationLevel - 1.0;
        } else {
          foodLevel := foodLevel - (if foodLevel > 0 then 1 else 0);
        }
        needUpdate := true;
      }
      if foodLevel < REGENERATION && foodLevel > 0 && foodTickTimer > 0 {
        foodTickTimer := 0;
      }
      if !needUpdate && ((foodLevel >= REGENERATION && health < maxHealth)
          || (foodLevel == MIN_FOOD && health > 10.0)) {
        foodTickTimer := foodTickTimer + 1;
      }
    }

    /** Eating a food item; a player who is full does not eat. */
    method Eat(foodValue: int, saturation: real) returns (eaten: bool)
      modifies this
      ensures maxHealth == old(maxHealth) && (eaten <==> old(foodLevel) < MAX_FOOD)
      ensures Value() == Eaten(old(Value()), foodValue, saturation)
    {
      if foodLevel >= MAX_FOOD { return false; }
      foodLevel := foodLevel + foodValue;
      foodSaturationLevel := foodSaturationLevel + saturation;
      if foodLevel > MAX_FOOD { foodLevel := MAX_FOOD; }
      if foodSaturationLevel > foodLevel as real { foodSaturationLevel := foodLevel as real; }
      eaten := true;
    }
  }
}
