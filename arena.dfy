/**
 * The arena object: `ArenaEnv` with its battle setup and the tick
 * `fight_battle`, and the in-place `speed_sort`. The tick is proved to
 * compute `ArenaModel.Fight`, whose properties are in ArenaLemmas.
 */
module Arena {
  import opened Barracks
  import opened ArenaModel
  import opened ArenaLemmas

  /**
   * `speed_sort`: sorts the turn list in place, largest meter first; equal
   * meters keep their order.
   */
  method SpeedSort(a: array<Pos>, teams: seq<CombatTeam>)
    modifies a
    ensures a[..] == SortByMeter(old(a[..]), teams)
  {
    ghost var input := a[..];
    for i := 0 to a.Length
      invariant a[..i] == SortByMeter(input[..i], teams)
      invariant a[i..] == input[i..]
    {
      assert input[..i + 1] == input[..i] + [input[i]];
      InsertAt(a, i, teams);
    }
    assert a[..] == a[..a.Length];
    assert input == input[..a.Length];
  }

  /** Move `a[i]` down into the sorted prefix `a[..i]`, past every smaller meter. */
  method InsertAt(a: array<Pos>, i: nat, teams: seq<CombatTeam>)
    requires i < a.Length
    modifies a
    ensures a[..i + 1] == Insert(old(a[..i]), old(a[i]), teams)
    ensures a[i + 1..] == old(a[i + 1..])
  {
    ghost var sorted := a[..i];
    ghost var rest := a[i + 1..];
    var x := a[i];
    assert a[..] == sorted + [x] + rest;
    assert sorted[..i] == sorted && sorted[i..] == [];
    var j := i;
    while j > 0 && MeterAt(teams, a[j - 1]) < MeterAt(teams, x)
      invariant 0 <= j <= i
      invariant a[..] == sorted[..j] + [x] + sorted[j..] + rest
      invariant Slot(sorted, x, teams, j) == Slot(sorted, x, teams, i)
    {
      ghost var cur := a[..];
      SwapDown(cur, sorted, rest, x, j);
      a[j - 1], a[j] := x, a[j - 1];
      assert a[..] == cur[j - 1 := x][j := sorted[j - 1]];
      j := j - 1;
    }
    assert j > 0 ==> a[..][j - 1] == sorted[j - 1];
    assert Slot(sorted, x, teams, j) == j;
    InsertAtSlot(sorted, x, teams);
    ghost var whole := sorted[..j] + [x] + sorted[j..];
    assert |whole| == i + 1;
    assert a[..] == whole + rest;
    assert a[..i + 1] == whole;
    assert a[i + 1..] == rest;
  }

  /** The charging pass over one team `i`: every meter gains its speed; the ready positions in unit order. */
  method ChargeTeam(units: seq<CombatEntity>, i: nat) returns (charged: seq<CombatEntity>, ready: seq<Pos>)
    ensures charged == ChargeUnits(units)
    ensures ready == ReadyInTeam(charged, i)
  {
    charged := units;
    ready := [];
    var k := 0;
    while k < |units|
      invariant 0 <= k <= |units| == |charged|
      invariant charged[..k] == ChargeUnits(units)[..k]
      invariant charged[k..] == units[k..]
      invariant ready == ReadyInTeam(charged[..k], i)
    {
      var unit := charged[k];
      unit := unit.(speedMeter := unit.speedMeter + unit.template.speed);
      ghost var before := charged;
      charged := charged[k := unit];
      assert charged[..k] == before[..k];
      assert charged[k + 1..] == before[k + 1..];
      assert charged[..k + 1] == charged[..k] + [unit];
      assert charged[..k + 1][..k] == charged[..k];
      if unit.speedMeter >= Threshold {
        ready := ready + [Pos(i, k)];
      }
      k := k + 1;
    }
    assert charged == charged[..k];
  }

  /**
   * The turn of the entity at `p`, the `slot`-th entry of the turn list: a
   * dead or missing entity is skipped; an empty pool makes `random.choice`
   * raise; otherwise the chosen target is hit and the actor's meter reset.
   * This is the executable counterpart of `ActOne`, which specifies it and
   * whose effect `ArenaLemmas.ActOneEffect` states; it is proved equal to it.
   */
  method TakeTurn(teams: seq<CombatTeam>, p: Pos, draws: seq<nat>, slot: nat) returns (phase: Phase)
    ensures phase == ActOne(teams, p, draws, slot)
  {
    if !ValidPos(teams, p) {
      return Acting(teams);
    }
    var unit := teams[p.team].unitList[p.unit];
    // could have been killed by an earlier entry of the turn list
    if unit.currentHp <= 0 {
      return Acting(teams);
    }
    var targetList := TargetPool(teams, unit.team);
    if |targetList| == 0 {
      return Raised(teams);
    }
    var tp := targetList[Choose(draws, slot, |targetList|)];
    assert ValidPos(teams, tp) by {
      assert tp in targetList;
      TargetPoolFacts(teams, unit.team);
    }
    var target := teams[tp.team].unitList[tp.unit];
    target := target.(currentHp := target.currentHp - Attack(unit));
    if target.currentHp <= 0 {
      target := target.(alive := false);
    }
    var hit := SetAt(teams, tp, target);
    assert hit == Hit(teams, tp, Attack(unit));
    assert ValidPos(hit, p) by {
      SetAtEffect(teams, tp, target);
    }
    var actor := hit[p.team].unitList[p.unit];
    return Acting(SetAt(hit, p, actor.(speedMeter := 0)));
  }

  class ArenaEnv {
    var combatTeams: seq<CombatTeam>
    var biome: string

    constructor ()
      ensures combatTeams == [] && biome == "0"
    {
      combatTeams := [];
      biome := "0";
    }

    /** One team holding one new entity made from `template` (the first template of the roster). */
    method SetupBattle(template: Template)
      modifies this
      ensures combatTeams == [CombatTeam([NewEntity(template)])]
      ensures biome == old(biome)
    {
      var unit1 := NewEntity(template);
      var team1 := CombatTeam([]);
      team1 := team1.(unitList := [unit1]);
      combatTeams := [team1];
    }

    /**
     * One tick. `draws` stands for `random.choice`: the target of the
     * turn-list entry at slot i is `Choose(draws, i, |pool|)` of its pool.
     */
    method FightBattle(draws: seq<nat>) returns (r: FightResult)
      modifies this
      ensures Fight(old(combatTeams), draws) == Tick(combatTeams, r)
      ensures biome == old(biome)
    {
      if |combatTeams| == 1 {
        return Finished(true);
      }
      ghost var charged := ChargeAll(combatTeams);
      var turnSetlist := ChargeMeters();
      var order := new Pos[|turnSetlist|](k requires 0 <= k < |turnSetlist| => turnSetlist[k]);
      assert order[..] == turnSetlist;
      SpeedSort(order, combatTeams);
      var raised := TakeTurns(order, draws);
      if raised {
        return EmptyTargetPool;
      }
      SweepDead();
      return Finished(false);
    }

    /** Charge every unit's meter and collect the ready ones in collection order. */
    method ChargeMeters() returns (turn: seq<Pos>)
      modifies this
      ensures combatTeams == ChargeAll(old(combatTeams))
      ensures turn == Ready(combatTeams)
      ensures biome == old(biome)
    {
      ghost var start := combatTeams;
      ghost var charged := ChargeAll(start);
      var teams := combatTeams;
      turn := [];
      var i := 0;
      while i < |teams|
        invariant 0 <= i <= |teams| == |start|
        invariant teams == charged[..i] + start[i..]
        invariant turn == ReadyUpTo(charged, i)
        modifies {}
      {
        ChargeStep(start, teams, i);
        var units, ready := ChargeTeam(teams[i].unitList, i);
        teams := teams[i := CombatTeam(units)];
        turn := turn + ready;
        i := i + 1;
      }
      assert start[i..] == [];
      assert charged[..i] == charged;
      combatTeams := teams;
    }

    /**
     * Resolve the turn list in order; `raised` when `random.choice` was
     * given an empty pool.
     */
    method TakeTurns(order: array<Pos>, draws: seq<nat>) returns (raised: bool)
      modifies this
      ensures raised ==> ActUpTo(old(combatTeams), order[..], draws, order.Length) == Raised(combatTeams)
      ensures !raised ==> ActUpTo(old(combatTeams), order[..], draws, order.Length) == Acting(combatTeams)
      ensures biome == old(biome)
    {
      ghost var start := combatTeams;
      var n := 0;
      while n < order.Length
        invariant 0 <= n <= order.Length
        invariant ActUpTo(start, order[..], draws, n) == Acting(combatTeams)
        invariant biome == old(biome)
      {
        var phase := TakeTurn(combatTeams, order[n], draws, n);
        combatTeams := phase.teams;
        if phase.Raised? {
          RaisedSticks(start, order[..], draws, n + 1, order.Length);
          return true;
        }
        n := n + 1;
      }
      return false;
    }

    /** The elimination sweep: every team keeps the survivors that name it. */
    method SweepDead()
      modifies this
      ensures combatTeams == Sweep(old(combatTeams))
      ensures biome == old(biome)
    {
      ghost var acted := combatTeams;
      var survivingUnits := Survivors(combatTeams);
      var j := 0;
      while j < |combatTeams|
        invariant 0 <= j <= |combatTeams| == |acted|
        invariant forall m :: 0 <= m < j ==> combatTeams[m] == Sweep(acted)[m]
        invariant forall m :: j <= m < |combatTeams| ==> combatTeams[m] == acted[m]
        invariant biome == old(biome)
      {
        combatTeams := combatTeams[j := CombatTeam(MembersOf(survivingUnits, j))];
        j := j + 1;
      }
      assert combatTeams == Sweep(acted);
    }
  }
}
