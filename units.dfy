/**
 * Battle units: a `Unit` object with its stats, clamped damage and healing,
 * level-ups, and its dictionary form; the factory of predefined units.
 */
module GameUnits {
  import opened Wrappers
  import opened Dicts

  /** A snapshot of every field of a unit. */
  datatype UnitData = UnitData(
    name: string,
    maxHealth: int,
    currentHealth: int,
    attack: int,
    defense: int,
    unitType: string,
    rarity: string,
    level: int)

  function Max(a: int, b: int): int {
    if a >= b then a else b
  }

  function Min(a: int, b: int): int {
    if a <= b then a else b
  }

  /** The keys `from_dict` needs, with values of the kinds its fields take. */
  predicate UnitDict(d: Dict) {
    && "name" in d && d["name"].VStr?
    && "max_health" in d && d["max_health"].VInt?
    && "attack" in d && d["attack"].VInt?
    && "defense" in d && d["defense"].VInt?
    && ("unit_type" in d ==> d["unit_type"].VStr?)
    && ("rarity" in d ==> d["rarity"].VStr?)
    && "current_health" in d && d["current_health"].VInt?
    && ("level" in d ==> d["level"].VInt?)
  }

  /** The keys in the order `from_dict` reads them. */
  const UnitKeyOrder: seq<string> :=
    ["name", "max_health", "attack", "defense", "unit_type", "rarity", "current_health", "level"]

  /** Whether `from_dict` gets past `key`: present with the right kind, or absent where a default applies. */
  predicate KeyReadable(d: Dict, key: string) {
    if key == "name" then key in d && d[key].VStr?
    else if key == "unit_type" || key == "rarity" then key in d ==> d[key].VStr?
    else if key == "level" then key in d ==> d[key].VInt?
    else key in d && d[key].VInt?
  }

  /** Key `k` of the read order is the first one `from_dict` cannot get past. */
  predicate FirstUnreadable(d: Dict, k: nat)
    requires k < |UnitKeyOrder|
  {
    !KeyReadable(d, UnitKeyOrder[k]) && forall j :: 0 <= j < k ==> KeyReadable(d, UnitKeyOrder[j])
  }

  /** The error reading `key` raises: KeyError when it is absent, TypeError when it has the wrong kind. */
  function ReadError(d: Dict, key: string): DictError {
    if key in d then TypeError(key) else KeyError(key)
  }

  /**
   * What `from_dict` reads: every field from its key; type, rarity and level
   * fall back to "Basic", "Common" and 1. The keys are read in the order
   * name, max_health, attack, defense, unit_type, rarity, current_health,
   * level, and the first one that fails is reported, as `KeyError` when it
   * is absent and `TypeError` when it has the wrong kind.
   */
  function UnitFromDict(d: Dict): (r: Result<UnitData, DictError>)
    ensures r.Success? <==> UnitDict(d)
    ensures r.Success? ==> r.value == UnitData(
      d["name"].s, d["max_health"].i, d["current_health"].i, d["attack"].i, d["defense"].i,
      if "unit_type" in d then d["unit_type"].s else "Basic",
      if "rarity" in d then d["rarity"].s else "Common",
      if "level" in d then d["level"].i else 1)
    ensures "name" !in d ==> r == Failure(KeyError("name"))
  {
    var name :- GetStr(d, "name");
    var health :- GetInt(d, "max_health");
    var attack :- GetInt(d, "attack");
    var defense :- GetInt(d, "defense");
    var unitType :- GetStrOr(d, "unit_type", "Basic");
    var rarity :- GetStrOr(d, "rarity", "Common");
    var current :- GetInt(d, "current_health");
    var level :- GetIntOr(d, "level", 1);
    Success(UnitData(name, health, current, attack, defense, unitType, rarity, level))
  }

  /**
   * `from_dict` reports the first key of its read order that it cannot get
   * past, and every key before that one was read.
   */
  lemma UnitReadOrder(d: Dict)
    ensures UnitDict(d) <==> forall k :: 0 <= k < |UnitKeyOrder| ==> KeyReadable(d, UnitKeyOrder[k])
    ensures forall k :: 0 <= k < |UnitKeyOrder| && FirstUnreadable(d, k) ==>
      UnitFromDict(d) == Failure(ReadError(d, UnitKeyOrder[k]))
  {
    var order := UnitKeyOrder;
    assert order[0] == "name" && order[1] == "max_health" && order[2] == "attack" && order[3] == "defense";
    assert order[4] == "unit_type" && order[5] == "rarity" && order[6] == "current_health" && order[7] == "level";
    forall k | 0 <= k < |order| && FirstUnreadable(d, k)
      ensures UnitFromDict(d) == Failure(ReadError(d, order[k]))
    {
      assert forall j :: 0 <= j < k ==> KeyReadable(d, order[j]);
    }
  }

  class Unit {
    var name: string
    var maxHealth: int
    var currentHealth: int
    var attack: int
    var defense: int
    var unitType: string
    var rarity: string
    var level: int

    function Data(): UnitData
      reads this
    {
      UnitData(name, maxHealth, currentHealth, attack, defense, unitType, rarity, level)
    }

    /** A unit at full health and level 1. */
    constructor (name: string, health: int, attack: int, defense: int,
                 unitType: string := "Basic", rarity: string := "Common")
      ensures Data() == UnitData(name, health, health, attack, defense, unitType, rarity, 1)
    {
      this.name := name;
      this.maxHealth := health;
      this.currentHealth := health;
      this.attack := attack;
      this.defense := defense;
      this.unitType := unitType;
      this.rarity := rarity;
      this.level := 1;
    }

    predicate IsAlive()
      reads this
    {
      currentHealth > 0
    }

    /**
     * Defense absorbs part of the damage; the rest is taken, but health stops
     * at 0. The returned damage may exceed the health actually lost.
     */
    method TakeDamage(damage: int) returns (actual: int)
      modifies this
      ensures actual == Max(0, damage - defense)
      ensures Data() == old(Data()).(currentHealth := Max(0, old(currentHealth) - actual))
      ensures actual >= 0 && currentHealth >= 0
      ensures currentHealth <= old(currentHealth) || old(currentHealth) < 0
      ensures old(currentHealth) >= 0 ==> old(currentHealth) - currentHealth <= actual
      ensures IsAlive() <==> old(currentHealth) > actual
    {
      actual := Max(0, damage - defense);
      currentHealth := Max(0, currentHealth - actual);
    }

    /** Health rises by `amount` but never above the maximum. */
    method Heal(amount: int)
      modifies this
      ensures Data() == old(Data()).(currentHealth := Min(maxHealth, old(currentHealth) + amount))
      ensures currentHealth <= maxHealth
      ensures amount >= 0 && old(currentHealth) <= maxHealth ==> old(currentHealth) <= currentHealth
      ensures old(currentHealth) + amount >= maxHealth ==> currentHealth == maxHealth
    {
      currentHealth := Min(maxHealth, currentHealth + amount);
    }

    /**
     * One level more; the random gains are parameters within the ranges
     * `random.randint` draws them from.
     */
    method LevelUp(healthGain: int, attackGain: int, defenseGain: int)
      requires 5 <= healthGain <= 15 && 1 <= attackGain <= 3 && 1 <= defenseGain <= 2
      modifies this
      ensures Data() == old(Data()).(
        level := old(level) + 1,
        maxHealth := old(maxHealth) + healthGain,
        currentHealth := old(currentHealth) + healthGain,
        attack := old(attack) + attackGain,
        defense := old(defense) + defenseGain)
      ensures maxHealth - currentHealth == old(maxHealth - currentHealth)
    {
      level := level + 1;
      maxHealth := maxHealth + healthGain;
      currentHealth := currentHealth + healthGain;
      attack := attack + attackGain;
      defense := defense + defenseGain;
    }

    /** The dictionary form; reading it back gives this unit's every field. */
    function ToDict(): (d: Dict)
      reads this
      ensures UnitDict(d) && UnitFromDict(d) == Success(Data())
      ensures d.Keys == {"name", "max_health", "current_health", "attack", "defense", "unit_type", "rarity", "level"}
    {
      map[
        "name" := VStr(name),
        "max_health" := VInt(maxHealth),
        "current_health" := VInt(currentHealth),
        "attack" := VInt(attack),
        "defense" := VInt(defense),
        "unit_type" := VStr(unitType),
        "rarity" := VStr(rarity),
        "level" := VInt(level)]
    }

    /** A new unit made from its dictionary form: constructed, then health and level patched. */
    static method FromDict(d: Dict) returns (r: Result<Unit, DictError>)
      ensures r.Success? <==> UnitFromDict(d).Success?
      ensures r.Failure? ==> r == Failure(UnitFromDict(d).error)
      ensures r.Success? ==> fresh(r.value) && r.value.Data() == UnitFromDict(d).value
    {
      var name :- GetStr(d, "name");
      var health :- GetInt(d, "max_health");
      var attack :- GetInt(d, "attack");
      var defense :- GetInt(d, "defense");
      var unitType :- GetStrOr(d, "unit_type", "Basic");
      var rarity :- GetStrOr(d, "rarity", "Common");
      var unit := new Unit(name, health, attack, defense, unitType, rarity);
      var current :- GetInt(d, "current_health");
      unit.currentHealth := current;
      var level :- GetIntOr(d, "level", 1);
      unit.level := level;
      return Success(unit);
    }
  }

  // ---------------------------------------------------------------------------
  // The factory of predefined units

  datatype UnitTemplate = UnitTemplate(
    name: string, health: int, attack: int, defense: int, unitType: string, rarity: string)

  const UnitTemplates: map<string, UnitTemplate> := map[
    "warrior" := UnitTemplate("Warrior", 100, 20, 15, "Fighter", "Common"),
    "archer" := UnitTemplate("Archer", 70, 25, 8, "Ranged", "Common"),
    "mage" := UnitTemplate("Mage", 60, 30, 5, "Caster", "Uncommon"),
    "knight" := UnitTemplate("Knight", 120, 18, 20, "Tank", "Rare")]

  /** The template keys in the order the templates are declared. */
  const TemplateKeys: seq<string> := ["warrior", "archer", "mage", "knight"]

  datatype FactoryError = UnknownUnitType(key: string)

  /** The unit a template describes, at full health and level 1. */
  function Spawned(t: UnitTemplate): UnitData {
    UnitData(t.name, t.health, t.health, t.attack, t.defense, t.unitType, t.rarity, 1)
  }

  /** A new unit of the template `key`; an unknown key is a ValueError. */
  method CreateUnit(key: string) returns (r: Result<Unit, FactoryError>)
    ensures r.Failure? <==> key !in UnitTemplates
    ensures r.Failure? ==> r.error == UnknownUnitType(key)
    ensures r.Success? ==> fresh(r.value) && r.value.Data() == Spawned(UnitTemplates[key])
  {
    if key !in UnitTemplates {
      return Failure(UnknownUnitType(key));
    }
    var t := UnitTemplates[key];
    var unit := new Unit(t.name, t.health, t.attack, t.defense, t.unitType, t.rarity);
    return Success(unit);
  }

  /** Exactly the template keys, each once. */
  function AvailableUnits(): (keys: seq<string>)
    ensures forall k :: k in keys <==> k in UnitTemplates
    ensures forall i, j :: 0 <= i < j < |keys| ==> keys[i] != keys[j]
    ensures |keys| == |UnitTemplates|
  {
    TemplateKeys
  }
}
