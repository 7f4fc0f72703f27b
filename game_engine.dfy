/**
 * The engine wrapper `GameEngine`: a status beside the state machine, and
 * the update that steps the machine with the engine's input list.
 */
module GameEngines {
  import opened Wrappers
  import opened CommonEnums
  import opened Barracks
  import opened ArenaModel
  import opened GameStates

  datatype EngineStatusEnum = FAILED | STOPPED | INIT | RUNNING

  /**
   * Driven by the engine, every command is the input list, which is never
   * BACK_TO_SETUP: a battle that is over stays over, whatever the ticks answer.
   */
  lemma EngineNeverLeavesOver(items: seq<int>, overs: seq<bool>)
    ensures Run(BATTLE_OVER, seq(|overs|, k => InputList(items)), overs) == BATTLE_OVER
  {
    var commands := seq(|overs|, k => InputList(items));
    assert forall k :: 0 <= k < |commands| ==> commands[k] == InputList(items);
    OverUntilBackToSetup(commands, overs);
  }

  class GameEngine {
    var status: EngineStatusEnum
    var inputArray: seq<int>
    var displayArray: seq<int>
    var gameState: GameState?

    constructor ()
      ensures status == FAILED && inputArray == [] && displayArray == [] && gameState == null
    {
      status := FAILED;
      inputArray := [];
      displayArray := [];
      gameState := null;
    }

    /** RUNNING, with a fresh state machine in SETUP. */
    method Init()
      modifies this
      ensures status == RUNNING
      ensures gameState != null && fresh(gameState) && gameState.Valid()
      ensures gameState.state == Some(SETUP) && gameState.Teams() == []
      ensures inputArray == old(inputArray) && displayArray == old(displayArray)
    {
      status := RUNNING;
      gameState := new GameState();
      gameState.Init();
    }

    /**
     * One state-machine step with the input list as the command (`template`
     * and `draws` as in `GameState.ProcessStateMachine`); then STOPPED if the
     * battle is over. When the tick raised, the status is not reached.
     */
    method UpdateGameState(template: Template, draws: seq<nat>) returns (raised: bool)
      requires gameState != null && gameState.Valid()
      modifies this, gameState, gameState.arenaEnv
      ensures gameState == old(gameState) && gameState.Valid()
      ensures gameState.arenaEnv == old(gameState.arenaEnv)
      ensures inputArray == old(inputArray) && displayArray == old(displayArray)
      ensures old(gameState.state) == None ==> gameState.state == None && !raised
      ensures raised <==>
        old(gameState.state) == Some(BATTLE) && Fight(old(gameState.Teams()), draws).result == EmptyTargetPool
      ensures old(gameState.state) == Some(SETUP) ==> gameState.Teams() == [CombatTeam([NewEntity(template)])]
      ensures old(gameState.state) == Some(BATTLE) ==> gameState.Teams() == Fight(old(gameState.Teams()), draws).teams
      ensures old(gameState.state) == Some(BATTLE_OVER) ==> gameState.Teams() == old(gameState.Teams())
      ensures old(gameState.state).Some? && !raised ==>
        gameState.state == Some(Next(old(gameState.state).value, InputList(inputArray),
                                     Fight(old(gameState.Teams()), draws).result == Finished(true)))
      ensures raised ==> gameState.state == old(gameState.state) && status == old(status)
      ensures !raised ==> status == if gameState.state == Some(BATTLE_OVER) then STOPPED else old(status)
      ensures old(gameState.state) == Some(BATTLE_OVER) ==> gameState.state == Some(BATTLE_OVER)
      ensures status == RUNNING ==> old(status) == RUNNING
    {
      raised := gameState.ProcessStateMachine(InputList(inputArray), template, draws);
      // only a tick can raise
      ghost var st := old(gameState.state);
      assert st != Some(BATTLE) ==> !raised by {
        match st
        case None =>
        case Some(SETUP) =>
        case Some(BATTLE) =>
        case Some(BATTLE_OVER) =>
      }
      if raised {
        return;
      }
      if gameState.state == Some(BATTLE_OVER) {
        status := STOPPED;
      }
    }
  }
}
