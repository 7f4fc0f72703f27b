/**
 * The battle state machine `GameState`: SETUP installs the battle, BATTLE
 * runs one arena tick per step until the arena reports the battle over,
 * BATTLE_OVER waits for the player's BACK_TO_SETUP.
 */
module GameStates {
  import opened Wrappers
  import opened CommonEnums
  import opened Barracks
  import opened ArenaModel
  import opened Arena

  /**
   * One step of the machine from state `s`; `fightOver` is what the arena
   * tick answered (it is asked only in BATTLE). Each target state is
   * characterised by the states and inputs that lead to it.
   */
  function Next(s: GameStateEnum, command: Command, fightOver: bool): (t: GameStateEnum)
    ensures t == SETUP <==> s == BATTLE_OVER && IsBackToSetup(command)
    ensures t == BATTLE <==> s == SETUP || (s == BATTLE && !fightOver)
    ensures t == BATTLE_OVER <==> (s == BATTLE && fightOver) || (s == BATTLE_OVER && !IsBackToSetup(command))
  {
    match s
    case SETUP => BATTLE
    case BATTLE => if fightOver then BATTLE_OVER else BATTLE
    case BATTLE_OVER => if IsBackToSetup(command) then SETUP else BATTLE_OVER
  }

  /** The state after a sequence of steps, with the commands and the tick answers of each step. */
  function Run(s: GameStateEnum, commands: seq<Command>, overs: seq<bool>): GameStateEnum
    requires |commands| == |overs|
    decreases |commands|
  {
    if commands == [] then s
    else Run(Next(s, commands[0], overs[0]), commands[1..], overs[1..])
  }

  /** Once over, the battle stays over for as long as no step brings BACK_TO_SETUP. */
  lemma {:induction false} OverUntilBackToSetup(commands: seq<Command>, overs: seq<bool>)
    requires |commands| == |overs|
    requires forall k :: 0 <= k < |commands| ==> !IsBackToSetup(commands[k])
    ensures Run(BATTLE_OVER, commands, overs) == BATTLE_OVER
    decreases |commands|
  {
    if commands != [] {
      assert !IsBackToSetup(commands[0]);
      OverUntilBackToSetup(commands[1..], overs[1..]);
    }
  }

  /**
   * A battle that was just set up is over one step later: SETUP installs a
   * single team, and a tick over a single team reports the battle over.
   */
  lemma SetupThenOver(template: Template, command: Command, draws: seq<nat>)
    ensures var tick := Fight([CombatTeam([NewEntity(template)])], draws);
      tick.teams == [CombatTeam([NewEntity(template)])] &&
      Next(Next(SETUP, command, false), command, tick.result == Finished(true)) == BATTLE_OVER
  {
    ArenaLemmas.FightOverIffOneTeam([CombatTeam([NewEntity(template)])], draws);
  }

  class GameState {
    /** None until `init`. */
    var state: Option<GameStateEnum>
    var arenaEnv: ArenaEnv?

    /** Once initialised, the machine holds an arena. */
    predicate Valid()
      reads this
    {
      state.Some? ==> arenaEnv != null
    }

    /** The teams of the arena held, if any. */
    function Teams(): seq<CombatTeam>
      reads this, arenaEnv
    {
      if arenaEnv == null then [] else arenaEnv.combatTeams
    }

    constructor ()
      ensures state == None && arenaEnv == null
      ensures Valid()
    {
      state := None;
      arenaEnv := null;
    }

    /** SETUP with a fresh arena; the arena's own `init` does nothing. */
    method Init()
      modifies this
      ensures state == Some(SETUP)
      ensures arenaEnv != null && fresh(arenaEnv)
      ensures arenaEnv.combatTeams == [] && arenaEnv.biome == "0"
      ensures Valid()
    {
      state := Some(SETUP);
      arenaEnv := new ArenaEnv();
    }

    /**
     * One step. In SETUP the arena sets up the battle (with `template`, the
     * first template of the roster); in BATTLE it runs one tick with the
     * target draws `draws`; in BATTLE_OVER only the command matters. Before
     * `init` no case matches. `raised` when the tick's `random.choice` raised:
     * the step then ends with the arena as the tick left it and the state unchanged.
     */
    method ProcessStateMachine(command: Command, template: Template, draws: seq<nat>) returns (raised: bool)
      requires Valid()
      modifies this, arenaEnv
      ensures Valid() && arenaEnv == old(arenaEnv)
      ensures old(state) == None ==> state == None && !raised
      ensures old(state) == Some(SETUP) ==>
        !raised && Teams() == [CombatTeam([NewEntity(template)])]
      ensures old(state) == Some(BATTLE) ==>
        var tick := Fight(old(Teams()), draws);
        Teams() == tick.teams && (raised <==> tick.result == EmptyTargetPool)
      ensures old(state) == Some(BATTLE_OVER) ==> !raised && Teams() == old(Teams())
      ensures raised ==> state == old(state)
      ensures old(state).Some? && !raised ==>
        state == Some(Next(old(state).value, command, Fight(old(Teams()), draws).result == Finished(true)))
    {
      raised := false;
      match state
      case None =>
      case Some(SETUP) =>
        arenaEnv.SetupBattle(template);
        state := Some(BATTLE);
      case Some(BATTLE) =>
        var r := arenaEnv.FightBattle(draws);
        if r == EmptyTargetPool {
          raised := true;
        } else if r == Finished(true) {
          state := Some(BATTLE_OVER);
        }
      case Some(BATTLE_OVER) =>
        if IsBackToSetup(command) {
          state := Some(SETUP);
        }
    }
  }
}
