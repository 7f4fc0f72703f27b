/**
 * One tick of the speed-gauge battle played by `ArenaEnv.fight_battle`.
 *
 * The speed meter is kept in twentieths of a point, so the float gain
 * `speed * 0.05` becomes the integer gain `speed` and the threshold 100
 * becomes 2000. An entity is identified by its position in the team list,
 * and its `team` field says which team it believes it belongs to.
 */
module ArenaModel {
  import opened Barracks

  /** Meter value (in twentieths of a point) at which an entity is ready to act. */
  const Threshold: int := 2000

  /**
   * The team an entity refers to. A new entity refers to a fresh, empty
   * placeholder team that is none of the teams in the arena.
   */
  datatype TeamRef = Placeholder | TeamAt(index: nat)

  datatype CombatEntity = CombatEntity(
    template: Template,
    team: TeamRef,
    alive: bool,
    currentHp: int,
    speedMeter: int)

  /** A new battle participant made from a template. */
  function NewEntity(template: Template): (e: CombatEntity)
    ensures e.alive && e.currentHp == template.maxHp && e.speedMeter == 0
    ensures e.template == template && e.team == Placeholder
  {
    CombatEntity(template, Placeholder, true, template.maxHp, 0)
  }

  /** The damage an entity deals: its template's strength. */
  function Attack(e: CombatEntity): int {
    e.template.strength
  }

  datatype CombatTeam = CombatTeam(unitList: seq<CombatEntity>) {
    function AddUnit(u: CombatEntity): (t: CombatTeam)
      ensures |t.unitList| == |unitList| + 1
      ensures t.unitList[..|unitList|] == unitList && t.unitList[|unitList|] == u
    {
      CombatTeam(unitList + [u])
    }
  }

  // ---------------------------------------------------------------------------
  // Positions

  /** The place of an entity: index of its team in the arena, index in that team's list. */
  datatype Pos = Pos(team: nat, unit: nat)

  predicate ValidPos(teams: seq<CombatTeam>, p: Pos) {
    p.team < |teams| && p.unit < |teams[p.team].unitList|
  }

  function At(teams: seq<CombatTeam>, p: Pos): CombatEntity
    requires ValidPos(teams, p)
  {
    teams[p.team].unitList[p.unit]
  }

  /** Replace the entity at `p`; positions outside the arena change nothing. */
  function SetAt(teams: seq<CombatTeam>, p: Pos, e: CombatEntity): seq<CombatTeam> {
    if ValidPos(teams, p) then teams[p.team := CombatTeam(teams[p.team].unitList[p.unit := e])]
    else teams
  }

  /** Same number of teams, and the same number of units in each. */
  predicate SameShape(a: seq<CombatTeam>, b: seq<CombatTeam>) {
    |a| == |b| && forall i :: 0 <= i < |a| ==> |a[i].unitList| == |b[i].unitList|
  }

  function MeterAt(teams: seq<CombatTeam>, p: Pos): int {
    if ValidPos(teams, p) then At(teams, p).speedMeter else 0
  }

  /** Collection order: team order first, unit order within a team. */
  predicate PosLess(p: Pos, q: Pos) {
    p.team < q.team || (p.team == q.team && p.unit < q.unit)
  }

  predicate Increasing(s: seq<Pos>) {
    forall i, j :: 0 <= i < j < |s| ==> PosLess(s[i], s[j])
  }

  // ---------------------------------------------------------------------------
  // Charging the meters and collecting the turn list

  function Charge(e: CombatEntity): CombatEntity {
    e.(speedMeter := e.speedMeter + e.template.speed)
  }

  function ChargeUnits(us: seq<CombatEntity>): seq<CombatEntity> {
    seq(|us|, k requires 0 <= k < |us| => Charge(us[k]))
  }

  /** Every unit of every team gains its speed on its meter. */
  function ChargeAll(teams: seq<CombatTeam>): seq<CombatTeam> {
    seq(|teams|, i requires 0 <= i < |teams| => CombatTeam(ChargeUnits(teams[i].unitList)))
  }

  /** Positions, in unit order, of the units of team `i` whose meter reached the threshold. */
  function ReadyInTeam(us: seq<CombatEntity>, i: nat): seq<Pos>
    decreases |us|
  {
    if us == [] then []
    else ReadyInTeam(us[..|us| - 1], i)
         + (if us[|us| - 1].speedMeter >= Threshold then [Pos(i, |us| - 1)] else [])
  }

  /** The ready positions of the first `n` teams, in collection order. */
  function ReadyUpTo(teams: seq<CombatTeam>, n: nat): seq<Pos>
    requires n <= |teams|
  {
    if n == 0 then []
    else ReadyUpTo(teams, n - 1) + ReadyInTeam(teams[n - 1].unitList, n - 1)
  }

  function Ready(teams: seq<CombatTeam>): seq<Pos> {
    ReadyUpTo(teams, |teams|)
  }

  // ---------------------------------------------------------------------------
  // speed_sort: a stable sort by meter, largest first

  /** Insert `x` into `s`, after every element whose meter is at least x's. */
  function Insert(s: seq<Pos>, x: Pos, teams: seq<CombatTeam>): seq<Pos>
    decreases |s|
  {
    if s == [] then [x]
    else if MeterAt(teams, s[|s| - 1]) < MeterAt(teams, x) then
      Insert(s[..|s| - 1], x, teams) + [s[|s| - 1]]
    else s + [x]
  }

  function SortByMeter(s: seq<Pos>, teams: seq<CombatTeam>): seq<Pos>
    decreases |s|
  {
    if s == [] then []
    else Insert(SortByMeter(s[..|s| - 1], teams), s[|s| - 1], teams)
  }

  predicate SortedDesc(s: seq<Pos>, teams: seq<CombatTeam>) {
    forall i, j :: 0 <= i < j < |s| ==> MeterAt(teams, s[i]) >= MeterAt(teams, s[j])
  }

  /** `p` goes before `q`: a larger meter, or an equal meter and earlier in collection order. */
  predicate Before(teams: seq<CombatTeam>, p: Pos, q: Pos) {
    MeterAt(teams, p) > MeterAt(teams, q) || (MeterAt(teams, p) == MeterAt(teams, q) && PosLess(p, q))
  }

  predicate StableOrder(s: seq<Pos>, teams: seq<CombatTeam>) {
    forall i, j :: 0 <= i < j < |s| ==> Before(teams, s[i], s[j])
  }

  // ---------------------------------------------------------------------------
  // Resolving the turns

  /** Positions of every unit of every team other than `own`, team order then unit order. */
  function PoolUpTo(teams: seq<CombatTeam>, own: TeamRef, n: nat): seq<Pos>
    requires n <= |teams|
  {
    if n == 0 then []
    else PoolUpTo(teams, own, n - 1)
         + (if own != TeamAt(n - 1) then TeamPositions(n - 1, |teams[n - 1].unitList|) else [])
  }

  function TeamPositions(i: nat, len: nat): seq<Pos> {
    seq(len, k requires 0 <= k < len => Pos(i, k))
  }

  /** The candidates `random.choice` picks from: not filtered by hit points. */
  function TargetPool(teams: seq<CombatTeam>, own: TeamRef): seq<Pos> {
    PoolUpTo(teams, own, |teams|)
  }

  /**
   * The index `random.choice` returns for turn-list slot `slot` from a pool of
   * `n` candidates. `draws` is the injected random source; drawing the
   * wanted index itself reproduces any choice.
   */
  function Choose(draws: seq<nat>, slot: nat, n: nat): (c: nat)
    requires n > 0
    ensures c < n
    ensures slot < |draws| && draws[slot] < n ==> c == draws[slot]
  {
    var d := if slot < |draws| then draws[slot] else 0;
    if d < n then d else d % n
  }

  /** Lower the hit points of the entity at `p` by `damage`; it dies at zero or below. */
  function Hit(teams: seq<CombatTeam>, p: Pos, damage: int): seq<CombatTeam> {
    if ValidPos(teams, p) then
      var t := At(teams, p);
      var hp := t.currentHp - damage;
      SetAt(teams, p, t.(currentHp := hp, alive := if hp <= 0 then false else t.alive))
    else teams
  }

  function ResetMeter(teams: seq<CombatTeam>, p: Pos): seq<CombatTeam> {
    if ValidPos(teams, p) then SetAt(teams, p, At(teams, p).(speedMeter := 0)) else teams
  }

  /** The state while turns resolve: still going, or stopped because `random.choice` raised. */
  datatype Phase = Acting(teams: seq<CombatTeam>) | Raised(teams: seq<CombatTeam>)

  /** The turn of the entity at `p`, the `slot`-th entry of the turn list. */
  function ActOne(teams: seq<CombatTeam>, p: Pos, draws: seq<nat>, slot: nat): Phase {
    if !ValidPos(teams, p) || At(teams, p).currentHp <= 0 then Acting(teams)
    else
      var actor := At(teams, p);
      var pool := TargetPool(teams, actor.team);
      if |pool| == 0 then Raised(teams)
      else
        var target := pool[Choose(draws, slot, |pool|)];
        Acting(ResetMeter(Hit(teams, target, Attack(actor)), p))
  }

  /** The state after the first `n` entries of the turn list. */
  function ActUpTo(teams: seq<CombatTeam>, turn: seq<Pos>, draws: seq<nat>, n: nat): Phase
    requires n <= |turn|
  {
    if n == 0 then Acting(teams)
    else match ActUpTo(teams, turn, draws, n - 1)
      case Raised(t) => Raised(t)
      case Acting(t) => ActOne(t, turn[n - 1], draws, n - 1)
  }

  // ---------------------------------------------------------------------------
  // The elimination sweep

  function AliveUnits(us: seq<CombatEntity>): seq<CombatEntity>
    decreases |us|
  {
    if us == [] then []
    else AliveUnits(us[..|us| - 1]) + (if us[|us| - 1].currentHp > 0 then [us[|us| - 1]] else [])
  }

  /** `surviving_units`: the units with positive hit points, team order then unit order. */
  function SurvivorsUpTo(teams: seq<CombatTeam>, n: nat): seq<CombatEntity>
    requires n <= |teams|
  {
    if n == 0 then [] else SurvivorsUpTo(teams, n - 1) + AliveUnits(teams[n - 1].unitList)
  }

  function Survivors(teams: seq<CombatTeam>): seq<CombatEntity> {
    SurvivorsUpTo(teams, |teams|)
  }

  /** The entities of `us` whose team field names team `j`. */
  function MembersOf(us: seq<CombatEntity>, j: nat): seq<CombatEntity>
    decreases |us|
  {
    if us == [] then []
    else MembersOf(us[..|us| - 1], j) + (if us[|us| - 1].team == TeamAt(j) then [us[|us| - 1]] else [])
  }

  /** Every team's list becomes the survivors that name it as their team. */
  function Sweep(teams: seq<CombatTeam>): seq<CombatTeam> {
    var survivors := Survivors(teams);
    seq(|teams|, j requires 0 <= j < |teams| => CombatTeam(MembersOf(survivors, j)))
  }

  // ---------------------------------------------------------------------------
  // One whole tick

  datatype FightResult = Finished(over: bool) | EmptyTargetPool

  datatype Tick = Tick(teams: seq<CombatTeam>, result: FightResult)

  /** The turn list of a tick on already charged teams: the ready units, sorted. */
  function TurnList(charged: seq<CombatTeam>): seq<Pos> {
    SortByMeter(Ready(charged), charged)
  }

  function Fight(teams: seq<CombatTeam>, draws: seq<nat>): Tick {
    if |teams| == 1 then Tick(teams, Finished(true))
    else
      var charged := ChargeAll(teams);
      var turn := TurnList(charged);
      match ActUpTo(charged, turn, draws, |turn|)
      case Raised(t) => Tick(t, EmptyTargetPool)
      case Acting(t) => Tick(Sweep(t), Finished(false))
  }
}
