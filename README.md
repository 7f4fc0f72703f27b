# BattleSim battle layer in Dafny

A model of the battle core of BattleSim, with proofs. It covers:

- the speed-gauge arena tick (`ArenaEnv.fight_battle` and `speed_sort`);
- the `SETUP` / `BATTLE` / `BATTLE_OVER` state machine and the engine that drives it;
- fighter-template rolling;
- unit and player bookkeeping, including the dictionary forms used for saving;
- the line-centring helper of the console.

The modules follow the source files:

| module | file | what it holds |
|---|---|---|
| `Wrappers` | — | `Option` and `Result`, the error path of every reader |
| `CommonEnums` | app_code/_common_enums/common_enums.py | game states, player commands, the command value a step receives |
| `Barracks` | barracks.py | `Template`, the roll function, class `FighterTemplate` |
| `ArenaModel` | app_code/arena/arena.py | entities, teams, one tick as functions (`Fight`) |
| `ArenaLemmas` | app_code/arena/arena.py | what the tick promises, proved about `Fight` |
| `Arena` | app_code/arena/arena.py | class `ArenaEnv`, the in-place `speed_sort` on an array, the tick's loops |
| `GameStates` | app_code/game_state.py | class `GameState`, the transition function `Next` |
| `GameEngines` | app_code/game_engine.py | class `GameEngine` |
| `Dicts` | — | dictionary values, and `data[key]` / `data.get(key, d)` |
| `GameUnits` | game/units.py | class `Unit`, the unit's dictionary form, the unit factory |
| `GamePlayer` | game/player.py | class `Player`, experience settling, the player's dictionary form |
| `Console` | app_code/utils/console.py | `center_text` with an explicit width |

How the arena is represented:

- **Meter in fixed point.** The speed meter is kept in twentieths of a point. The float gain `speed * 0.05` becomes the integer gain `speed`, and the threshold 100 becomes 2000.
- **Entities are values.** Entities and teams are datatypes stored in the `combatTeams` field of `ArenaEnv`. An entity is addressed by its position (team index, unit index).
- **The entity's team is explicit.** Its `team` field is a `TeamRef`. A new entity holds `Placeholder`, which stands for the fresh, empty `CombatTeam()` it is given, and which is none of the arena's teams. `TeamAt(i)` is the intended back-reference to team `i`.
- **`random.choice` is an input.** It is the sequence `draws`. Turn-list slot `i` picks index `draws[i]` of its pool, reduced modulo the pool size, or 0 when there is no draw. When the pool is empty, `random.choice` raises; the tick then reports `EmptyTargetPool`.
- **Die rolls and level-up gains are inputs.** The rolls of `create_fighter` are a sequence of values in 1..5. The `random.randint` gains of `Unit.level_up` are parameters within their ranges.

## Model

| member | source | states |
|---|---|---|
| Barracks.FighterTemplate.constructor | barracks.py:9-14 | a new template has the given name, strength 1, agility 1, speed 1 and max_hp 40 |
| Barracks.FighterTemplate.CreateFighter | barracks.py:16-28 | the ten rolls are applied in order to the template in place; no stat decreases, the name is kept, max_hp moves in steps of 10, and the upgrades received add up to exactly 10 |
| Barracks.RollRaisesOneStat | barracks.py:20-28 | a roll of 1, 2 or 3 adds one to strength, agility or speed; a roll of 4 or 5 adds 10 to max_hp; nothing else changes |
| Barracks.RollsConserveUpgrades | barracks.py:19-28 | any sequence of valid rolls only raises stats and yields exactly one upgrade per roll |
| Barracks.RollsCompose | barracks.py:16-28 | rolling one sequence and then another on the same template is rolling their concatenation |
| Barracks.TwoCallsAccumulate | barracks.py:16-28 | two calls on one template accumulate 20 upgrades, because the first call's changes stay in the template |
| ArenaModel.NewEntity | app_code/arena/arena.py:13-18 | a new entity is alive, has the template's max_hp as hit points, a meter at 0, and the placeholder team |
| ArenaModel.CombatTeam.AddUnit | app_code/arena/arena.py:30-31 | the unit is appended after the existing units, which are kept in order |
| ArenaLemmas.AttackIgnoresState | app_code/arena/arena.py:20-23 | the damage an entity deals is its template's strength, whatever its hit points or meter |
| ArenaModel.Choose | app_code/arena/arena.py:78 | the index picked is within the pool, and it is the draw itself whenever the draw is in range |
| Arena.ArenaEnv.constructor | app_code/arena/arena.py:34-36 | a new arena has no teams and biome "0" |
| Arena.ArenaEnv.SetupBattle | app_code/arena/arena.py:39-43 | the arena holds exactly one team of one new entity made from the roster's first template |
| Arena.ArenaEnv.FightBattle | app_code/arena/arena.py:45-93 | the loops of the tick leave the arena and the result exactly as the tick function `Fight` gives them |
| Arena.ArenaEnv.ChargeMeters | app_code/arena/arena.py:60-65 | every meter gains its speed, and the list returned is the ready positions in collection order |
| Arena.ChargeTeam | app_code/arena/arena.py:61-65 | the loop over one team charges each unit and collects, in unit order, those that reached the threshold |
| Arena.SpeedSort | app_code/arena/arena.py:101-102 | the array is rearranged in place into the stable descending order of `SortByMeter` |
| Arena.InsertAt | app_code/arena/arena.py:101-102 | one insertion step moves the next element past every element with a smaller meter and leaves the rest of the array alone |
| Arena.TakeTurn | app_code/arena/arena.py:69-84 | one entry of the turn list resolves exactly as the one-turn function `ActOne` says |
| Arena.ArenaEnv.TakeTurns | app_code/arena/arena.py:69-84 | the turns resolve in turn-list order and stop at the first one whose target pool is empty |
| Arena.ArenaEnv.SweepDead | app_code/arena/arena.py:86-89 | each team's list becomes the surviving units that name that team |
| ArenaLemmas.ReadyUpToFacts | app_code/arena/arena.py:60-65 | the collected list holds exactly the positions whose charged meter reaches the threshold, each once, in collection order |
| ArenaLemmas.SortFacts | app_code/arena/arena.py:101-102 | the sort is a permutation of its input; on a list in collection order it is stable, with larger meters first and ties in collection order |
| ArenaLemmas.TurnListFacts | app_code/arena/arena.py:60-67 | a unit is in the turn list exactly when its meter plus its speed reaches the threshold; the list is sorted descending, stable, duplicate-free, and a permutation of the ready list |
| ArenaLemmas.TargetPoolFacts | app_code/arena/arena.py:76 | the pool is every unit of every team other than the one the actor names, whatever its hit points, each once, in collection order |
| ArenaLemmas.ActOneEffect | app_code/arena/arena.py:69-84 | a unit at 0 hit points or below does nothing; a live unit with an empty pool raises; otherwise the chosen target, on a team other than the one the actor names (as written, every actor names the placeholder, so it may hit its own team or itself), loses exactly the actor's strength with no clamp, dies at 0 or below, the actor's meter goes to 0, and nothing else changes |
| ArenaLemmas.TurnsEffect | app_code/arena/arena.py:69-84 | after any number of turns, templates and team fields are unchanged; a meter is its charged value, or 0 if its unit was in the turn list; a dead unit stays dead |
| ArenaLemmas.TurnsKeepAliveFlag | app_code/arena/arena.py:80-82 | with non-negative strengths, hit points only go down during the turns, and `alive` keeps matching positive hit points |
| ArenaLemmas.SurvivorsFacts | app_code/arena/arena.py:86 | a unit is a survivor exactly when it belongs to one of the teams and has positive hit points: every survivor has them, and every unit that has them survives |
| ArenaLemmas.SweepFacts | app_code/arena/arena.py:86-89 | the sweep keeps the number of teams; every team ends up with only live units that name it, all taken from before the sweep |
| ArenaLemmas.SweepKeepsOwnSurvivors | app_code/arena/arena.py:86-89 | when every unit names its own team, each team keeps exactly its live units, in their original order |
| ArenaLemmas.SweepIdempotent | app_code/arena/arena.py:86-89 | sweeping an unchanged population a second time changes nothing |
| ArenaLemmas.SweepWithPlaceholderEmptiesTeams | app_code/arena/arena.py:86-89 | as written, every unit names the placeholder team, so the sweep empties every team |
| ArenaLemmas.FightOverIffOneTeam | app_code/arena/arena.py:51-54 | the tick reports the battle over exactly when there is one team, and in that case changes nothing |
| ArenaLemmas.FightKeepsTeamCount | app_code/arena/arena.py:86-93 | the tick never changes the number of teams, so with two or more teams the battle is never reported over |
| ArenaLemmas.FightKeepsAliveFlag | app_code/arena/arena.py:45-93 | with non-negative strengths, a tick keeps `alive` matching the hit points; after a completed tick every remaining unit is alive and sits in the team it names |
| GameStates.Next | app_code/game_state.py:20-34 | SETUP is reached only from BATTLE_OVER with BACK_TO_SETUP; BATTLE only from SETUP, or from BATTLE while the fight goes on; BATTLE_OVER only from BATTLE when the fight ends, or by staying in BATTLE_OVER without BACK_TO_SETUP |
| GameStates.OverUntilBackToSetup | app_code/game_state.py:32-34 | once over, the battle stays over through any run of steps with no BACK_TO_SETUP |
| GameStates.SetupThenOver | app_code/game_state.py:21-30 | a battle just set up holds one team, so one step later it is over |
| GameStates.GameState.constructor | app_code/game_state.py:6-8 | a new machine has no state and no arena |
| GameStates.GameState.Init | app_code/game_state.py:10-13 | the state is SETUP and the machine holds a fresh, empty arena |
| GameStates.GameState.ProcessStateMachine | app_code/game_state.py:17-34 | before init nothing changes; SETUP installs one team and moves to BATTLE whatever the command; BATTLE runs exactly one tick and moves as `Next` says on its answer; BATTLE_OVER leaves the arena alone and moves only on BACK_TO_SETUP |
| GameEngines.GameEngine.constructor | app_code/game_engine.py:13-17 | a new engine has status FAILED, empty input and display lists, and no game state |
| GameEngines.GameEngine.Init | app_code/game_engine.py:19-22 | status RUNNING and a fresh machine in SETUP |
| GameEngines.GameEngine.UpdateGameState | app_code/game_engine.py:28-32 | one step of the machine with the input list as the command: SETUP installs one team of one new entity, BATTLE runs exactly one tick on the arena's teams, BATTLE_OVER leaves them alone; the step raises exactly when a BATTLE tick finds an empty target pool; otherwise the state moves as `Next` says, and then the status is STOPPED when the state is BATTLE_OVER and unchanged otherwise; the step never sets RUNNING and never leaves BATTLE_OVER |
| GameEngines.EngineNeverLeavesOver | app_code/game_engine.py:28-30 | driven by the engine, whose command is the input list and never BACK_TO_SETUP, a battle that is over stays over |
| GameUnits.Unit.constructor | game/units.py:15-24 | full health at the given maximum, level 1, type and rarity defaulting to "Basic" and "Common" |
| GameUnits.Unit.IsAlive | game/units.py:47-49 | a unit is alive exactly when its health is above 0; `TakeDamage` states when a hit leaves it alive |
| GameUnits.Unit.TakeDamage | game/units.py:37-41 | the damage taken is `max(0, damage - defense)`; health is lowered by it but stops at 0; health lost never exceeds the returned value; the unit stays alive exactly when its old health exceeded the damage taken |
| GameUnits.Unit.Heal | game/units.py:43-45 | health rises by the amount but never above the maximum, and reaches the maximum when the amount covers the gap |
| GameUnits.Unit.LevelUp | game/units.py:51-63 | one level more; max and current health rise by the same gain in 5..15, attack by a gain in 1..3, defense by a gain in 1..2 |
| GameUnits.Unit.ToDict | game/units.py:65-76 | the dictionary has exactly the eight keys, and reading it back gives every field of the unit |
| GameUnits.UnitFromDict | game/units.py:78-91 | reading succeeds exactly when the required keys are present; type, rarity and level default to "Basic", "Common" and 1; a missing name is reported first |
| GameUnits.UnitReadOrder | game/units.py:78-91 | the keys are read in the order name, max_health, attack, defense, unit_type, rarity, current_health, level; reading fails at the first one that is missing (or of the wrong kind) where no default applies, and reports that key as KeyError (or TypeError) |
| GameUnits.Unit.FromDict | game/units.py:78-91 | a new unit is constructed and patched, with the fields `UnitFromDict` reads, or the same error |
| GameUnits.CreateUnit | game/units.py:134-141 | an unknown key is an error naming that key; a known one gives a new unit with that template's stats, at full health and level 1 |
| GameUnits.AvailableUnits | game/units.py:149-152 | exactly the template keys, each once |
| GamePlayer.Player.constructor | game/player.py:15-31 | level 1, experience 0, gold 100, no record, and a team of exactly one new Warrior |
| GamePlayer.Player.AddUnit | game/player.py:33-44 | the unit is appended exactly when the team had fewer than five; otherwise the team is unchanged; the team never grows past five this way |
| GamePlayer.Player.RemoveUnit | game/player.py:46-55 | a valid index removes exactly that unit, keeping the others in order; any other index changes nothing |
| GamePlayer.Player.LevelUp | game/player.py:57-64 | one level and 50 gold more, and the new level's cost is taken from the experience |
| GamePlayer.Settle | game/player.py:66-72 | the level-ups end with experience below the current level's cost; each one adds 50 gold and spends its level's cost; nothing else changes |
| GamePlayer.Player.AddExperience | game/player.py:66-72 | the loop terminates, its result is `Settle` of the raised experience, and experience ends below the cost of the current level |
| GamePlayer.Player.AddGold | game/player.py:74-76 | gold rises by the amount, and nothing else changes |
| GamePlayer.Player.SpendGold | game/player.py:78-87 | gold is deducted exactly when it covers the amount, otherwise unchanged; gold that starts at 0 or more stays at 0 or more |
| GamePlayer.Player.HealAllUnits | game/player.py:113-116 | every unit with health and maximum at 0 or more ends at full health, and no other field changes |
| GamePlayer.TeamFromList | game/player.py:149-152 | the saved team reads back exactly when every entry is a readable unit dictionary, one unit per entry |
| GamePlayer.TeamRoundTrip | game/player.py:149-152 | a list of unit dictionaries reads back as those units, in order |
| GamePlayer.TeamFailureSticks | game/player.py:149-152 | the first entry that fails to read decides the error of the whole list |
| GamePlayer.PlayerFromDict | game/player.py:138-154 | reading succeeds exactly when every key is present and the team reads back; the standing comes from its keys; a missing name is reported first |
| GamePlayer.EncodeRoundTrip | game/player.py:126-154 | the player dictionary built from a standing and a readable team list reads back as that standing and team |
| GamePlayer.Player.ToDict | game/player.py:126-136 | reading the dictionary back gives the standing and every unit of the team |
| GamePlayer.Player.LoadTeam | game/player.py:149-152 | one new unit per entry, in order, or the error of the first entry that fails |
| GamePlayer.Player.FromDict | game/player.py:138-154 | a new player whose standing and team are what `PlayerFromDict` reads, the starting Warrior replaced; or the same error |
| Console.SplitLines | app_code/utils/console.py:142 | splitting gives at least one line, and no line contains a line break |
| Console.JoinSplit | app_code/utils/console.py:142-149 | joining the split lines gives the text back |
| Console.SplitJoin | app_code/utils/console.py:142-149 | lines without breaks, joined and split again, are the same lines |
| Console.CenterLineFacts | app_code/utils/console.py:146-147 | a centred line is spaces followed by the line unchanged; a line at least as long as the width is left as it is; the left margin is at most one column narrower than the right; the result is never longer than the larger of the width and the line |
| Console.CenteredLines | app_code/utils/console.py:137-149 | the output has as many lines as the input, and output line k is input line k centred |
| Console.NoWidthNoChange | app_code/utils/console.py:137-149 | with a width of 0 or less, the text comes back unchanged |
| Console.CenterText | app_code/utils/console.py:137-149 | the loop builds exactly the text with every line centred |

## Left out

- Entity references and aliasing. The source shares `CombatEntity` objects between the team lists and the turn list, and targets are found by reference. The model addresses entities by position in the arena's team lists. An object listed twice, or shared between two arenas, is not modelled.
- Float arithmetic. The meter is an integer in twentieths of a point, and the binary rounding of `0.05` is not modelled.
- The random generators. `random.choice` and `random.randint` are inputs (`draws`, `rolls`, the gain parameters).
- Console output and the terminal. All `print` calls, `get_terminal_size` (the default width of `center_text`) and the other console helpers are side effects only.
- `Unit.get_info` and `get_short_info`: display strings only.
- `UnitFactory.create_random_unit`: only `random.choice` over `create_unit`.
- `Player.get_win_rate`: floating point only.
- `Player.get_team_power`: it reads `unit.health`, which `Unit` does not define.
- Other files, outside the battle layer or superseded prototypes: game/battle.py, game/core.py, utils/input_handler.py, the hmi and root modules, main.py, and the root-level arena.py and Arena.py.
- `Arena.ArenaEnv.SetupBattle`: `barracks.template_list[0]` comes from a module that is not part of this model, so the template is a parameter.
- `GameStates.GameState.Init`: the shown `ArenaEnv` has no `init` method, so the call at app_code/game_state.py:13 would raise AttributeError. The model treats that call as doing nothing.
- `GameEngines.GameEngine.UpdateGameState` requires an initialised engine. Before `init`, `game_state` is `None`, and the source fails with AttributeError.
- `GameStates.GameState.ProcessStateMachine`: when the tick's `random.choice` raises, the step ends with `raised` set. The arena is left as the tick had changed it, and the state is unchanged. How the exception propagates further is not modelled.
- `GameUnits.UnitFromDict` and `GamePlayer.PlayerFromDict`: a value of another kind than the field needs is a `TypeError` result. The source would store it in the field unchecked. Reading the saved team also reports `TypeError` for an entry that is not a dictionary.
- `GamePlayer.Player.HealAllUnits`: full health is promised only for units whose health and maximum are 0 or more. The exact new health, `min(max, health + max)`, is promised only when no unit is listed twice, because a unit listed twice is healed twice.
- `ArenaLemmas.TurnsKeepAliveFlag` and `ArenaLemmas.FightKeepsAliveFlag` assume non-negative strengths. A negative strength would heal the target without setting `alive` back.
- Behaviour of the code that a reader may not expect:
  - The target pool is not filtered by hit points, and the entity's placeholder team means units can target their own team (`ArenaLemmas.TargetPoolFacts`).
  - With two or more teams, the battle is never reported over, because the filtered team list is local (`ArenaLemmas.FightKeepsTeamCount`).
  - With the placeholder team, the sweep empties every team (`ArenaLemmas.SweepWithPlaceholderEmptiesTeams`).
