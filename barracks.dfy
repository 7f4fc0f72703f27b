/**
 * Fighter templates and the stat-roll upgrade done by `create_fighter`.
 * The random rolls are an input: one value in 1..5 per upgrade.
 */
module Barracks {

  /** The number of upgrade rolls one `create_fighter` call performs. */
  const UpgradesPool: nat := 10

  /** A template's stats as a value: what a battle reads from it. */
  datatype Template = Template(name: string, strength: int, agility: int, speed: int, maxHp: int)

  /** A fresh template: every stat at its base value. */
  function BaseTemplate(name: string): Template {
    Template(name, 1, 1, 1, 40)
  }

  /** The effect of one roll of the die; values other than 1..5 change nothing. */
  function ApplyRoll(t: Template, roll: int): Template {
    if roll == 1 then t.(strength := t.strength + 1)
    else if roll == 2 then t.(agility := t.agility + 1)
    else if roll == 3 then t.(speed := t.speed + 1)
    else if roll == 4 || roll == 5 then t.(maxHp := t.maxHp + 10)
    else t
  }

  /** The effect of a whole sequence of rolls, applied in order. */
  function ApplyRolls(t: Template, rolls: seq<int>): Template
    decreases |rolls|
  {
    if rolls == [] then t
    else ApplyRoll(ApplyRolls(t, rolls[..|rolls| - 1]), rolls[|rolls| - 1])
  }

  predicate ValidRolls(rolls: seq<int>) {
    forall i :: 0 <= i < |rolls| ==> 1 <= rolls[i] <= 5
  }

  /** Upgrades received between two versions of a template; ten hit points make one upgrade. */
  function Upgrades(before: Template, after: Template): int {
    (after.strength - before.strength) + (after.agility - before.agility)
    + (after.speed - before.speed) + (after.maxHp - before.maxHp) / 10
  }

  /** `after` differs from `before` only by stats that went up, with hit points in steps of ten. */
  predicate Grown(before: Template, after: Template) {
    && after.name == before.name
    && after.strength >= before.strength
    && after.agility >= before.agility
    && after.speed >= before.speed
    && after.maxHp >= before.maxHp
    && (after.maxHp - before.maxHp) % 10 == 0
  }

  /** A roll in 1..5 raises exactly one stat: 1 strength, 2 agility, 3 speed, 4 or 5 hit points by ten. */
  lemma RollRaisesOneStat(t: Template, roll: int)
    requires 1 <= roll <= 5
    ensures var r := ApplyRoll(t, roll);
      && r.name == t.name
      && r.strength == t.strength + (if roll == 1 then 1 else 0)
      && r.agility == t.agility + (if roll == 2 then 1 else 0)
      && r.speed == t.speed + (if roll == 3 then 1 else 0)
      && r.maxHp == t.maxHp + (if roll >= 4 then 10 else 0)
  {
  }

  /** Every roll is one upgrade: the upgrades received equal the number of rolls, and nothing goes down. */
  lemma {:induction false} RollsConserveUpgrades(t: Template, rolls: seq<int>)
    requires ValidRolls(rolls)
    ensures Grown(t, ApplyRolls(t, rolls))
    ensures Upgrades(t, ApplyRolls(t, rolls)) == |rolls|
    decreases |rolls|
  {
    if rolls != [] {
      var init := rolls[..|rolls| - 1];
      assert ValidRolls(init) by {
        forall i | 0 <= i < |init| ensures 1 <= init[i] <= 5 {
          assert init[i] == rolls[i];
        }
      }
      RollsConserveUpgrades(t, init);
      var mid := ApplyRolls(t, init);
      var hp := mid.maxHp - t.maxHp;
      assert hp == 10 * (hp / 10);
      RollRaisesOneStat(mid, rolls[|rolls| - 1]);
    }
  }

  /** Rolling `r1` and then `r2` is rolling `r1 + r2`: upgrades on the same template accumulate. */
  lemma {:induction false} RollsCompose(t: Template, r1: seq<int>, r2: seq<int>)
    ensures ApplyRolls(ApplyRolls(t, r1), r2) == ApplyRolls(t, r1 + r2)
    decreases |r2|
  {
    if r2 == [] {
      assert r1 + r2 == r1;
    } else {
      var init := r2[..|r2| - 1];
      RollsCompose(t, r1, init);
      assert (r1 + r2)[..|r1 + r2| - 1] == r1 + init;
    }
  }

  /** Two `create_fighter` calls on one template give twenty upgrades. */
  lemma TwoCallsAccumulate(t: Template, r1: seq<int>, r2: seq<int>)
    requires |r1| == UpgradesPool && |r2| == UpgradesPool
    requires ValidRolls(r1) && ValidRolls(r2)
    ensures Grown(t, ApplyRolls(ApplyRolls(t, r1), r2))
    ensures Upgrades(t, ApplyRolls(ApplyRolls(t, r1), r2)) == 2 * UpgradesPool
  {
    RollsCompose(t, r1, r2);
    RollsConserveUpgrades(t, r1 + r2);
  }

  /** A fighter template; `create_fighter` upgrades it in place. */
  class FighterTemplate {
    var name: string
    var strength: int
    var agility: int
    var speed: int
    var maxHp: int

    function Value(): Template
      reads this
    {
      Template(name, strength, agility, speed, maxHp)
    }

    constructor (name: string)
      ensures Value() == BaseTemplate(name)
    {
      this.name := name;
      strength := 1;
      agility := 1;
      speed := 1;
      maxHp := 40;
    }

    /** Ten rolls, each adding to exactly one stat; `rolls` are the die values drawn. */
    method CreateFighter(rolls: seq<int>)
      requires |rolls| == UpgradesPool && ValidRolls(rolls)
      modifies this
      ensures Value() == ApplyRolls(old(Value()), rolls)
      ensures Grown(old(Value()), Value())
      ensures Upgrades(old(Value()), Value()) == UpgradesPool
    {
      for i := 0 to UpgradesPool
        invariant Value() == ApplyRolls(old(Value()), rolls[..i])
      {
        var stat := rolls[i];
        if stat == 1 {
          strength := strength + 1;
        } else if stat == 2 {
          agility := agility + 1;
        } else if stat == 3 {
          speed := speed + 1;
        } else if stat == 4 || stat == 5 {
          maxHp := maxHp + 10;
        }
        assert rolls[..i + 1][..i] == rolls[..i];
      }
      assert rolls[..UpgradesPool] == rolls;
      RollsConserveUpgrades(old(Value()), rolls);
    }
  }
}
