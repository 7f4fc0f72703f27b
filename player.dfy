/**
 * The player: level, experience, gold, record and a team of at most five
 * units; level-ups, spending, healing and the dictionary form.
 */
module GamePlayer {
  import opened Wrappers
  import opened Dicts
  import opened GameUnits

  const MaxTeamSize: int := 5

  /** Experience needed to go from level `n - 1` to level `n`. */
  function LevelCost(n: int): int {
    n * 100
  }

  /** Everything about a player except the team. */
  datatype Standing = Standing(name: string, level: int, experience: int, gold: int, wins: int, losses: int)

  datatype PlayerData = PlayerData(standing: Standing, team: seq<UnitData>)

  /** Experience spent by the level-ups from level `low` up to `high`. */
  function Spent(low: int, high: int): int
    requires low <= high
    decreases high - low
  {
    if low == high then 0 else Spent(low, high - 1) + LevelCost(high)
  }

  /**
   * The level-ups of `add_experience` on values: while the experience
   * reaches the cost of the current level, one level more, 50 gold more and
   * the new level's cost taken from the experience.
   */
  function Settle(s: Standing): (r: Standing)
    ensures r.experience < LevelCost(r.level)
    ensures r.level >= s.level
    ensures r.gold == s.gold + 50 * (r.level - s.level)
    ensures r.experience == s.experience - Spent(s.level, r.level)
    ensures r == s.(level := r.level, experience := r.experience, gold := r.gold)
    ensures s.experience < LevelCost(s.level) ==> r == s
    ensures forall l :: s.level <= l < r.level ==> s.experience - Spent(s.level, l) >= LevelCost(l)
    decreases (if s.level < 1 then 1 - s.level else 0),
              (if s.level >= 1 && s.experience >= 0 then s.experience else 0)
  {
    if s.experience >= LevelCost(s.level) then
      var next := s.(level := s.level + 1, gold := s.gold + 50,
                     experience := s.experience - LevelCost(s.level + 1));
      var r := Settle(next);
      SpentSplit(s.level, s.level + 1, r.level);
      SpentFrom(s.level, s.level + 1);
      r
    else s
  }

  /** `SpentSplit` for every upper end at once. */
  lemma SpentFrom(low: int, mid: int)
    requires low <= mid
    ensures forall high :: mid <= high ==> Spent(low, high) == Spent(low, mid) + Spent(mid, high)
  {
    forall high | mid <= high {
      SpentSplit(low, mid, high);
    }
  }

  lemma {:induction false} SpentSplit(low: int, mid: int, high: int)
    requires low <= mid <= high
    ensures Spent(low, high) == Spent(low, mid) + Spent(mid, high)
    decreases high - mid
  {
    if mid < high {
      SpentSplit(low, mid, high - 1);
    }
  }

  /** The units' fields, in team order. */
  function TeamData(us: seq<Unit>): seq<UnitData>
    reads us
  {
    seq(|us|, i requires 0 <= i < |us| reads us => us[i].Data())
  }

  /** The units' dictionaries, in team order. */
  function TeamDicts(us: seq<Unit>): seq<Value>
    reads us
  {
    seq(|us|, i requires 0 <= i < |us| reads us => VDict(us[i].ToDict()))
  }

  /** The saved team read back unit by unit; an entry that is not a dictionary is a TypeError. */
  function TeamFromList(items: seq<Value>): (r: Result<seq<UnitData>, DictError>)
    ensures r.Success? ==> |r.value| == |items|
    ensures r.Success? <==> forall k :: 0 <= k < |items| ==> items[k].VDict? && UnitDict(items[k].fields)
    decreases |items|
  {
    if items == [] then Success([])
    else
      var init :- TeamFromList(items[..|items| - 1]);
      var last := items[|items| - 1];
      if !last.VDict? then Failure(TypeError("team"))
      else
        var u :- UnitFromDict(last.fields);
        assert forall k :: 0 <= k < |items| - 1 ==> items[..|items| - 1][k] == items[k];
        Success(init + [u])
  }

  /** Each dictionary of a unit reads back as that unit. */
  lemma {:induction false} TeamRoundTrip(items: seq<Value>, xs: seq<UnitData>)
    requires |items| == |xs|
    requires forall k :: 0 <= k < |items| ==> items[k].VDict? && UnitFromDict(items[k].fields) == Success(xs[k])
    ensures TeamFromList(items) == Success(xs)
    decreases |items|
  {
    if items != [] {
      var n := |items| - 1;
      assert TeamFromList(items[..n]) == Success(xs[..n]) by {
        forall k | 0 <= k < n
          ensures items[..n][k].VDict? && UnitFromDict(items[..n][k].fields) == Success(xs[..n][k])
        {
          assert items[..n][k] == items[k] && xs[..n][k] == xs[k];
        }
        TeamRoundTrip(items[..n], xs[..n]);
      }
      TeamRoundTripStep(items, xs);
    }
  }

  /** The last entry reads back as the last unit, after the others did. */
  lemma TeamRoundTripStep(items: seq<Value>, xs: seq<UnitData>)
    requires |items| == |xs| > 0
    requires TeamFromList(items[..|items| - 1]) == Success(xs[..|items| - 1])
    requires items[|items| - 1].VDict? && UnitFromDict(items[|items| - 1].fields) == Success(xs[|items| - 1])
    ensures TeamFromList(items) == Success(xs)
  {
    var n := |items| - 1;
    assert TeamFromList(items) == Success(xs[..n] + [xs[n]]);
    assert xs == xs[..n] + [xs[n]];
  }

  /** Reading one more entry of the list. */
  lemma TeamFromListStep(items: seq<Value>, i: nat)
    requires i < |items| && TeamFromList(items[..i]).Success?
    ensures !items[i].VDict? ==> TeamFromList(items[..i + 1]) == Failure(TypeError("team"))
    ensures items[i].VDict? && UnitFromDict(items[i].fields).Failure? ==>
      TeamFromList(items[..i + 1]) == Failure(UnitFromDict(items[i].fields).error)
    ensures items[i].VDict? && UnitFromDict(items[i].fields).Success? ==>
      TeamFromList(items[..i + 1]) == Success(TeamFromList(items[..i]).value + [UnitFromDict(items[i].fields).value])
  {
    assert items[..i + 1][..i] == items[..i];
    assert items[..i + 1][i] == items[i];
  }

  /** The first entry that does not read back decides the error of the whole list. */
  lemma {:induction false} TeamFailureSticks(items: seq<Value>, n: nat)
    requires n <= |items|
    requires TeamFromList(items[..n]).Failure?
    ensures TeamFromList(items) == Failure(TeamFromList(items[..n]).error)
    decreases |items| - n
  {
    if n < |items| {
      assert items[..n + 1][..n] == items[..n];
      TeamFailureSticks(items, n + 1);
    } else {
      assert items[..n] == items;
    }
  }

  /** The keys `from_dict` needs, with values of the kinds its fields take. */
  predicate PlayerDict(d: Dict) {
    && "name" in d && d["name"].VStr?
    && "level" in d && d["level"].VInt?
    && "experience" in d && d["experience"].VInt?
    && "gold" in d && d["gold"].VInt?
    && "wins" in d && d["wins"].VInt?
    && "losses" in d && d["losses"].VInt?
    && "team" in d && d["team"].VList?
  }

  /**
   * What `from_dict` reads: name, level, experience, gold, wins, losses and
   * the team list, in that order, the first failing key reported; then the
   * units of the list in order.
   */
  function PlayerFromDict(d: Dict): (r: Result<PlayerData, DictError>)
    ensures r.Success? <==> PlayerDict(d) && TeamFromList(d["team"].items).Success?
    ensures "name" !in d ==> r == Failure(KeyError("name"))
    ensures r.Success? ==> r.value.standing == Standing(
      d["name"].s, d["level"].i, d["experience"].i, d["gold"].i, d["wins"].i, d["losses"].i)
    ensures r.Success? ==> "team" in d && TeamFromList(d["team"].items) == Success(r.value.team)
  {
    var name :- GetStr(d, "name");
    var level :- GetInt(d, "level");
    var experience :- GetInt(d, "experience");
    var gold :- GetInt(d, "gold");
    var wins :- GetInt(d, "wins");
    var losses :- GetInt(d, "losses");
    var items :- GetList(d, "team");
    var team :- TeamFromList(items);
    Success(PlayerData(Standing(name, level, experience, gold, wins, losses), team))
  }

  /** The dictionary of a player with standing `s` and the team list `items`. */
  function EncodePlayer(s: Standing, items: seq<Value>): Dict {
    map[
      "name" := VStr(s.name),
      "level" := VInt(s.level),
      "experience" := VInt(s.experience),
      "gold" := VInt(s.gold),
      "wins" := VInt(s.wins),
      "losses" := VInt(s.losses),
      "team" := VList(items)]
  }

  lemma EncodeRoundTrip(s: Standing, items: seq<Value>, xs: seq<UnitData>)
    requires TeamFromList(items) == Success(xs)
    ensures PlayerFromDict(EncodePlayer(s, items)) == Success(PlayerData(s, xs))
  {
  }

  class Player {
    var name: string
    var level: int
    var experience: int
    var gold: int
    var wins: int
    var losses: int
    var team: seq<Unit>

    function Status(): Standing
      reads this
    {
      Standing(name, level, experience, gold, wins, losses)
    }

    function Data(): PlayerData
      reads this, team
    {
      PlayerData(Status(), TeamData(team))
    }

    /** Level 1, no experience, 100 gold, no record, and one new Warrior. */
    constructor (name: string)
      ensures Status() == Standing(name, 1, 0, 100, 0, 0)
      ensures |team| == 1 && fresh(team[0])
      ensures team[0].Data() == Spawned(UnitTemplates["warrior"])
    {
      this.name := name;
      level := 1;
      experience := 0;
      gold := 100;
      wins := 0;
      losses := 0;
      team := [];
      new;
      var starter := CreateUnit("warrior");
      if starter.Failure? {
        assert false;
      }
      team := team + [starter.value];
    }

    /** Appended only while the team has fewer than five units. */
    method AddUnit(unit: Unit) returns (added: bool)
      modifies this
      ensures added <==> |old(team)| < MaxTeamSize
      ensures team == if added then old(team) + [unit] else old(team)
      ensures |old(team)| <= MaxTeamSize ==> |team| <= MaxTeamSize
      ensures Status() == old(Status())
    {
      if |team| < MaxTeamSize {
        team := team + [unit];
        return true;
      }
      return false;
    }

    /** Removes the unit at `index` when the index is within the team. */
    method RemoveUnit(index: int) returns (removed: bool)
      modifies this
      ensures removed <==> 0 <= index < |old(team)|
      ensures removed ==> |team| == |old(team)| - 1 && team == old(team[..index]) + old(team[index + 1..])
      ensures !removed ==> team == old(team)
      ensures Status() == old(Status())
    {
      if 0 <= index < |team| {
        team := team[..index] + team[index + 1..];
        return true;
      }
      return false;
    }

    /** One level more and 50 gold; the new level's cost is taken from the experience. */
    method LevelUp()
      modifies this
      ensures Status() == old(Status()).(
        level := old(level) + 1,
        gold := old(gold) + 50,
        experience := old(experience) - LevelCost(old(level) + 1))
      ensures team == old(team)
    {
      level := level + 1;
      gold := gold + 50;
      var needed := LevelCost(level);
      experience := experience - needed;
    }

    /** Adds the experience, then levels up while it reaches the current level's cost. */
    method AddExperience(amount: int)
      modifies this
      ensures Status() == Settle(old(Status()).(experience := old(experience) + amount))
      ensures experience < LevelCost(level)
      ensures team == old(team)
    {
      experience := experience + amount;
      ghost var goal := Settle(Status());
      while experience >= LevelCost(level)
        invariant Settle(Status()) == goal
        invariant team == old(team)
        decreases (if level < 1 then 1 - level else 0),
                  (if level >= 1 && experience >= 0 then experience else 0)
      {
        LevelUp();
      }
    }

    method AddGold(amount: int)
      modifies this
      ensures Status() == old(Status()).(gold := old(gold) + amount)
      ensures team == old(team)
    {
      gold := gold + amount;
    }

    /** Deducts `amount` only when the gold covers it; gold never drops below zero from zero or more. */
    method SpendGold(amount: int) returns (spent: bool)
      modifies this
      ensures spent <==> old(gold) >= amount
      ensures Status() == old(Status()).(gold := if spent then old(gold) - amount else old(gold))
      ensures old(gold) >= 0 ==> gold >= 0
      ensures team == old(team)
    {
      if gold >= amount {
        gold := gold - amount;
        return true;
      }
      return false;
    }

    /**
     * Heals every unit by its own maximum. A unit whose health was not
     * negative ends at full health; when a unit appears twice in the team it
     * is healed twice.
     */
    method HealAllUnits()
      modifies team
      ensures forall u :: u in team ==> u.Data() == old(u.Data()).(currentHealth := u.currentHealth)
      ensures forall u :: u in team && old(u.currentHealth) >= 0 && old(u.maxHealth) >= 0 ==>
        u.currentHealth == u.maxHealth
      ensures (forall i, j :: 0 <= i < j < |team| ==> team[i] != team[j]) ==>
        forall u :: u in team ==> u.currentHealth == Min(u.maxHealth, old(u.currentHealth) + u.maxHealth)
    {
      for i := 0 to |team|
        invariant forall u :: u in team ==> u.Data() == old(u.Data()).(currentHealth := u.currentHealth)
        invariant forall u :: u in team && u !in team[..i] ==> u.currentHealth == old(u.currentHealth)
        invariant forall u :: u in team[..i] && old(u.currentHealth) >= 0 && old(u.maxHealth) >= 0 ==>
          u.currentHealth == u.maxHealth
        invariant (forall a, b :: 0 <= a < b < |team| ==> team[a] != team[b]) ==>
          forall u :: u in team[..i] ==> u.currentHealth == Min(u.maxHealth, old(u.currentHealth) + u.maxHealth)
      {
        var unit := team[i];
        assert team[..i + 1] == team[..i] + [unit];
        unit.Heal(unit.maxHealth);
      }
      assert team[..|team|] == team;
    }

    /** The dictionary form; reading it back gives the standing and every unit. */
    function ToDict(): (d: Dict)
      reads this, team
      ensures PlayerFromDict(d) == Success(Data())
    {
      var us := team;
      TeamRoundTrip(TeamDicts(us), TeamData(us));
      EncodeRoundTrip(Status(), TeamDicts(us), TeamData(us));
      EncodePlayer(Status(), TeamDicts(us))
    }

    /** The saved team: a new unit per entry of the list, in order; the first entry that fails decides the error. */
    static method LoadTeam(items: seq<Value>) returns (r: Result<seq<Unit>, DictError>)
      ensures r.Success? <==> TeamFromList(items).Success?
      ensures r.Failure? ==> r == Failure(TeamFromList(items).error)
      ensures r.Success? ==> (forall u :: u in r.value ==> fresh(u)) && TeamData(r.value) == TeamFromList(items).value
    {
      var team: seq<Unit> := [];
      assert items[..0] == [];
      assert TeamData(team) == [];
      var i := 0;
      while i < |items|
        invariant 0 <= i <= |items|
        invariant forall u :: u in team ==> fresh(u)
        invariant TeamFromList(items[..i]) == Success(TeamData(team))
      {
        TeamFromListStep(items, i);
        if !items[i].VDict? {
          TeamFailureSticks(items, i + 1);
          return Failure(TypeError("team"));
        }
        var loaded := Unit.FromDict(items[i].fields);
        if loaded.Failure? {
          TeamFailureSticks(items, i + 1);
          return Failure(loaded.error);
        }
        assert TeamData(team + [loaded.value]) == TeamData(team) + [loaded.value.Data()];
        team := team + [loaded.value];
        i := i + 1;
      }
      assert items[..i] == items;
      return Success(team);
    }

    /** A new player made from the dictionary form; the starting Warrior is replaced by the saved team. */
    static method FromDict(d: Dict) returns (r: Result<Player, DictError>)
      ensures r.Success? <==> PlayerFromDict(d).Success?
      ensures r.Failure? ==> r == Failure(PlayerFromDict(d).error)
      ensures r.Success? ==> fresh(r.value) && r.value.Data() == PlayerFromDict(d).value
    {
      var name :- GetStr(d, "name");
      var player := new Player(name);
      var level :- GetInt(d, "level");
      player.level := level;
      var experience :- GetInt(d, "experience");
      player.experience := experience;
      var gold :- GetInt(d, "gold");
      player.gold := gold;
      var wins :- GetInt(d, "wins");
      player.wins := wins;
      var losses :- GetInt(d, "losses");
      player.losses := losses;
      player.team := [];
      var items :- GetList(d, "team");
      var team :- LoadTeam(items);
      player.team := team;
      return Success(player);
    }
  }
}
