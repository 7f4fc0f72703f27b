/** The enumerations shared by the battle state machine and the engine. */
module CommonEnums {

  /** The three phases of one battle's lifecycle. */
  datatype GameStateEnum = SETUP | BATTLE | BATTLE_OVER

  /** Commands the player can give; their numeric codes are 0x0000 and 0x9000. */
  datatype PlayerCommands = NONE | BACK_TO_SETUP

  /**
   * The value handed to a state-machine step. Python compares it with `==`
   * against a PlayerCommands member, so besides a member it may be anything,
   * in particular the engine's input list, which equals no member.
   */
  datatype Command = Cmd(cmd: PlayerCommands) | InputList(items: seq<int>)

  predicate IsBackToSetup(c: Command) {
    c == Cmd(BACK_TO_SETUP)
  }
}
