# Q-learning path finder with fuel management

This project models the learning engine of a grid path finder, the
`QLearningAgent` class in `src/utils/reinforcementLearning.ts`:
- An agent on a square grid learns, by tabular Q-learning, to get from a start cell to a goal cell.
- It avoids obstacles and manages a fuel tank that drains by one unit per move and can be refilled at fuel stations.
- After training it replays the learned table greedily to produce its "optimal path".
- It offers a refuel heuristic.

The model keeps the source's shape. The agent is a Dafny class,
`Agent.QLearningAgent`, with the source's fields:
- the Q-table;
- the environment;
- the hyper-parameters;
- the current episode;
- the running reward and path;
- the best path and reward.

Its methods update these fields in place, with loops where the source has
loops. Each method is proved against pure specification functions in the
other modules:
- `Grid`: cells, the environment, the five actions, and the valid-action list.
- `Dynamics`: the transition and the four-stage reward pipeline: step cost, then the depletion override, then the goal override, then additive shaping.
- `QStore`: the sparse table keyed by `(x, y, floor(fuel))`, reads that create a default 0 entry, writes, the first arg-max scan, the maximum, and the update rule.
- `Training`: episode records and what a well-formed one is, the running best over several episodes, and the exploration decay schedule.
- `Policy`: one training step, one episode and a whole session, each as a function of the table and of the random draws.
- `OptimalPath`: the greedy replay.

The properties of the behaviour are lemmas about those functions. For
example:
- a session with learning rate 0 changes no value;
- epsilon after `n` episodes is `max(minEpsilon, epsilon * decay^n)`;
- the replay changes no readable value;
- the optimal path is a walk of free grid cells that reaches the goal only at its end.

Randomness is an input. `Math.random()` is the parameter `rand: nat -> Draw`,
a sequence of draws in [0, 1), together with a cursor: the index of the
next unused draw. Draws are used in the source's order:
- one draw to compare with epsilon;
- when exploring, a second draw, multiplied by the number of valid actions and floored.

The progress observer (`onUpdate`) is modelled as a log of the reports it
receives: the field `reports`. The constant `observed` says whether an
observer is registered.

Points where the model follows the code:
- The agent never validates its environment. Nothing rejects a start outside the grid, overlapping cells or a non-positive size, so the model accepts any environment.
- `getValidActions` checks only the coordinate that a move changes: `y > 0` for up, and so on. "A move is listed exactly when its target cell is a free cell of the grid" therefore holds only for an agent inside the grid. `Grid.ValidActionsAreLegal` requires that.
- When no action is valid, training still executes the fallback `up` without a bounds check. The replay stops instead.

## Model

| member | source | states |
|---|---|---|
| Grid.ValidActionsOrdered | src/utils/reinforcementLearning.ts:82-106 | the valid-action list is in the order up, down, left, right, refuel, with no action twice, so it has at most 5 entries |
| Grid.ValidActionsAreLegal | src/utils/reinforcementLearning.ts:82-118 | for an agent inside the grid, an action is listed exactly when it is legal: a move needs an in-grid target that is not an obstacle; a refuel needs a fuel station under the agent and a tank below capacity |
| Grid.Choices | src/utils/reinforcementLearning.ts:120-122 | what selection can return is the valid list, or the fallback `up` when that list is empty, so it is never empty |
| Dynamics.Next | src/utils/reinforcementLearning.ts:145-174 | a move goes one cell (Manhattan distance 1) and burns exactly one unit of fuel; a refuel stays in place and fills the tank to `maxFuel` |
| Dynamics.UnitStepChangesDistance | src/utils/reinforcementLearning.ts:190-200 | a one-cell move changes the distance to the goal by exactly one, up or down |
| Dynamics.GoalOverridesDepletion | src/utils/reinforcementLearning.ts:176-188 | arriving at the goal pays `200 + 2 * fuel` plus shaping even when the tank runs dry, because the goal check follows the depletion check |
| Dynamics.RefuelReward | src/utils/reinforcementLearning.ts:170-200 | a refuel earns the goal reward at the goal, otherwise -200 when `maxFuel <= 0`, otherwise -3; no shaping term ever applies to it |
| Dynamics.MoveReward | src/utils/reinforcementLearning.ts:151-200 | a move into the goal earns the goal reward plus 5; running dry elsewhere earns -200 plus 5 or minus 3; any other move earns 4 when it gets closer to the goal and -4 otherwise |
| Dynamics.NeedsRefuelMonotone | src/utils/reinforcementLearning.ts:337-340 | the heuristic `fuel < 1.2 * distance` is monotone in less fuel and a longer way; fuel below a distance that is not negative always calls for a refuel; fuel of at least 1.2 times the distance never does |
| QStore.SharedKey | src/utils/reinforcementLearning.ts:58-60 | two states share a table key exactly when they have the same cell and the same fuel rounded down |
| QStore.FuelBandKey | src/utils/reinforcementLearning.ts:58-60 | every fuel level in `[n, n + 1)` on a cell maps to the key `(x, y, n)` |
| QStore.Touch | src/utils/reinforcementLearning.ts:62-72 | after a read the entry exists; the table only gains a default 0 entry, and every existing entry is unchanged |
| QStore.ExtendsAgree | src/utils/reinforcementLearning.ts:62-72 | a table that only gained default entries answers every read as before |
| QStore.TouchAll | src/utils/reinforcementLearning.ts:133-134 | after reads of a list of actions, each has an entry, and only default entries were added |
| QStore.Store | src/utils/reinforcementLearning.ts:74-80 | after a write the written entry reads back the new value, and every other (key, action) reads as before |
| QStore.BestIndexIsEarliestMaximum | src/utils/reinforcementLearning.ts:130-139 | the scan that moves only on a strictly greater value ends on an action of maximal value, and on the earliest such |
| QStore.EarliestMaximumUnique | src/utils/reinforcementLearning.ts:130-139 | any index that is a maximum with only smaller values before it is the one the scan ends on |
| QStore.Greedy | src/utils/reinforcementLearning.ts:130-141 | the greedy choice is one of the listed actions |
| QStore.MaxQ | src/utils/reinforcementLearning.ts:212 | the maximum bounds every listed action's value and is the value of one of them |
| QStore.MaxQIsGreedyValue | src/utils/reinforcementLearning.ts:130-139 | the maximum over the list is the value of the greedy choice |
| QStore.AgreeSameChoice | src/utils/reinforcementLearning.ts:130-139 | tables that answer every read alike make the same greedy choice and have the same maximum |
| QStore.MaxNextAgree | src/utils/reinforcementLearning.ts:209-213 | the bootstrapped target (the maximum over the next state's valid actions, or 0 with none) depends only on the values read |
| QStore.QUpdateInterpolates | src/utils/reinforcementLearning.ts:215-217 | with a rate in [0, 1] the new estimate lies between the old one and the target; rate 0 keeps the old one; rate 1 takes the target |
| Training.EpisodePath | src/utils/reinforcementLearning.ts:230-243 | an episode's trace starts at the start cell, has one cell more than the steps taken, and has at most `2 * gridSize^2 + 1` cells |
| Training.EpisodeStaysInGrid | src/utils/reinforcementLearning.ts:235-243 | if the start is in the grid and every visited state offers a valid action, each state of an episode is in the grid, at most one cell from the previous one, and never on an obstacle it moved onto |
| Training.KeepBestIsMaximum | src/utils/reinforcementLearning.ts:274-278 | the kept reward is beaten by no episode's total and never drops below the reward kept before |
| Training.KeepBestIsEarliest | src/utils/reinforcementLearning.ts:274-278 | the kept trace and reward are either the old ones or those of one episode, whose total beat the old best and was strictly greater than every earlier episode's |
| Training.KeepBestStartsAtStart | src/utils/reinforcementLearning.ts:274-278 | the kept trace is empty exactly while no reward is kept; otherwise it starts at the start cell; after at least one episode it is non-empty |
| Training.EpsilonClosedForm | src/utils/reinforcementLearning.ts:280-284 | with a floor of at least 0 and a decay in [0, 1], epsilon after `n` episodes is `max(minEpsilon, epsilon * decay^n)`; this holds for every `n >= 1`, and for `n = 0` when epsilon starts at or above the floor |
| Training.ExploreIndex | src/utils/reinforcementLearning.ts:127 | `floor(u * n)` for a draw `u` in [0, 1) is a valid index among `n` choices |
| Policy.Select | src/utils/reinforcementLearning.ts:120-143 | selection returns the fallback or a valid action, and its reads only add default entries to the table |
| Policy.SelectExploits | src/utils/reinforcementLearning.ts:125-141 | when there is a valid action and the draw is at least epsilon, selection uses one draw, reads every valid action, and returns an action of maximal value with no valid action of that value before it in list order |
| Policy.SelectExplores | src/utils/reinforcementLearning.ts:125-127 | when there is a valid action and the draw is below epsilon, selection uses two draws, reads nothing, and takes the valid action that the second draw indexes |
| Policy.UpdateTable | src/utils/reinforcementLearning.ts:205-220 | after an update, (s, a) holds `cur + lr * (r + gamma * maxNext - cur)` computed from the values before, and every other entry reads as before |
| Policy.UpdateTableMovesTowardsTarget | src/utils/reinforcementLearning.ts:215-219 | with a rate in [0, 1], the updated value moves from the old one towards the target without overshooting it |
| Policy.UpdateTableZeroRate | src/utils/reinforcementLearning.ts:215-219 | with learning rate 0 an update changes no value |
| Policy.ValuesOfListed | src/utils/reinforcementLearning.ts:247-249 | the values reported to the observer cover exactly the valid actions, each with its table value |
| Policy.TrainStep | src/utils/reinforcementLearning.ts:236-259 | a training step takes an action that selection could return, reaches the state that action leads to, and earns that action's reward |
| Policy.TrainStepKeepsValues | src/utils/reinforcementLearning.ts:236-259 | with learning rate 0 a training step, including the observer's reads, changes no value |
| Policy.RolloutAt | src/utils/reinforcementLearning.ts:235-268 | step `i` of an episode is the training step taken from the table, state and draw cursor that the steps before it left |
| Policy.RolloutChained | src/utils/reinforcementLearning.ts:235-243 | each step of an episode follows the dynamics from the state before it |
| Policy.RolloutStops | src/utils/reinforcementLearning.ts:235-268 | an episode takes at most the step cap of steps and never continues past a goal or empty-tank state; it stops before the cap only on one |
| Policy.RolloutKeepsValues | src/utils/reinforcementLearning.ts:235-272 | with learning rate 0 an episode changes no value |
| Policy.ChainedSteps | src/utils/reinforcementLearning.ts:236-243 | a chain of steps is a valid trace: each action one the agent could take there, each state the one it leads to |
| Policy.ChainedGain | src/utils/reinforcementLearning.ts:241 | the reward accumulated along a chain of steps is the sum of the rewards of its trace |
| Policy.EpisodeRunWellFormed | src/utils/reinforcementLearning.ts:225-272 | every episode the agent runs is well formed: it starts at the start with a full tank, takes only actions the agent may take and reaches the states they lead to, respects the step cap, passes no terminal state (goal or empty tank) before its end, ends on one when it stops before the cap, and its total is the sum of its rewards |
| Policy.EpisodeGoesOn | src/utils/reinforcementLearning.ts:235-259 | below the cap and not at a terminal state, the episode's next step is the training step from where the loop stands, and the loop then stands one step further |
| Policy.EpisodeEnded | src/utils/reinforcementLearning.ts:261-272 | when the loop stops at the cap or at a terminal state, its table, cursor, path, reward and reports are those of the whole episode |
| Policy.SessionNext | src/utils/reinforcementLearning.ts:223-285 | each episode of a session is played from where the episodes before it left the session |
| Policy.SessionStep | src/utils/reinforcementLearning.ts:223-285 | a session one episode longer is the shorter session followed by one more episode |
| Policy.SessionEpsilon | src/utils/reinforcementLearning.ts:280-284 | after `n` episodes epsilon equals `n` floor-and-multiply decay steps of its start value, and no other parameter changes |
| Policy.OriginEpsilon | src/utils/reinforcementLearning.ts:280-284 | each episode begins with epsilon decayed once per earlier episode, and with the other parameters as given |
| Policy.StandingsBest | src/utils/reinforcementLearning.ts:274-278 | after `k` episodes the best trace and reward are the running best over their records |
| Policy.SessionWellFormed | src/utils/reinforcementLearning.ts:223-285 | every episode of a training session is well formed |
| Policy.SessionBest | src/utils/reinforcementLearning.ts:274-278 | after a session the kept reward is the running best over its episodes, no episode beats it, and after one episode or more the kept trace starts at the start cell |
| Policy.SessionKeepsValues | src/utils/reinforcementLearning.ts:223-285 | with learning rate 0 a whole session changes no value of the table |
| Policy.TraceStarts | src/utils/reinforcementLearning.ts:230 | an episode's trace is never empty and starts at the start cell |
| OptimalPath.WalkAt | src/utils/reinforcementLearning.ts:301-332 | move `k` of a walk is the step decided from where the earlier moves left it; before the goal and the cap, a move `k` exists exactly when a step is decided |
| OptimalPath.WalkStopsAtGoal | src/utils/reinforcementLearning.ts:301-332 | a walk has at most the step cap of moves, and only its last move can reach the goal |
| OptimalPath.WalkCellsAreWalk | src/utils/reinforcementLearning.ts:317-323 | with sound steps from a cell of the grid, the recorded cells form a walk of free grid cells, each next to the previous one |
| OptimalPath.CellsBeforeGoal | src/utils/reinforcementLearning.ts:320-328 | a walk records at most one cell per move, and no recorded cell before the last is the goal |
| OptimalPath.GreedyMoveIsSound | src/utils/reinforcementLearning.ts:302-317 | the greedy step only adds default entries to the table, and from a grid cell moves to a free neighbouring cell or refuels in place |
| OptimalPath.ReplayDecidesOnValues | src/utils/reinforcementLearning.ts:302-317 | each move of the replay is the greedy one under the values the table held when it began; its reads never change a decision |
| OptimalPath.ReplayKeepsValues | src/utils/reinforcementLearning.ts:302-315 | the replay changes no readable value; it only adds default 0 entries |
| OptimalPath.GreedyPathIsWalk | src/utils/reinforcementLearning.ts:290-335 | from a start inside the grid, the optimal path after the start is a walk of free grid cells, each next to the previous one |
| OptimalPath.GreedyPathStopsAtGoal | src/utils/reinforcementLearning.ts:290-335 | the optimal path has between 1 and `2 * gridSize^2 + 1` cells, and after the start cell only its last cell can be the goal |
| OptimalPath.ReplayAdvances | src/utils/reinforcementLearning.ts:305-323 | one pass of the replay loop does the replay's next move and records its cell unless it is a refuel |
| OptimalPath.ReplayReachesGoal | src/utils/reinforcementLearning.ts:325-328 | a move that reaches the goal ends the replay with the complete path and table |
| OptimalPath.ReplayStranded | src/utils/reinforcementLearning.ts:302-303 | a state with no valid action ends the replay with the complete path and table |
| OptimalPath.ReplayCapped | src/utils/reinforcementLearning.ts:298-301 | after the step cap of moves the replay is complete |
| Agent.QLearningAgent.constructor | src/utils/reinforcementLearning.ts:34-56 | a new agent has an empty table, episode 0, reward 0, empty paths, best reward minus infinity and no reports |
| Agent.QLearningAgent.GetQValue | src/utils/reinforcementLearning.ts:62-72 | returns the stored value or 0, creating the entry when it is missing and touching nothing else |
| Agent.QLearningAgent.SetQValue | src/utils/reinforcementLearning.ts:74-80 | the table afterwards is the one where (key, action) holds the value, the row created when missing |
| Agent.QLearningAgent.GreedyAction | src/utils/reinforcementLearning.ts:130-139 | the scan loop returns the greedy (earliest maximal) action and leaves the table with every scanned action read |
| Agent.QLearningAgent.SelectAction | src/utils/reinforcementLearning.ts:120-143 | the action, the next draw cursor and the table are those of epsilon-greedy selection |
| Agent.QLearningAgent.MaxNextValue | src/utils/reinforcementLearning.ts:209-213 | returns the maximum over the next state's valid actions, or 0 with none, having read each of them |
| Agent.QLearningAgent.UpdateQValue | src/utils/reinforcementLearning.ts:205-220 | the table afterwards is the one-step Q-learning update of (s, a) |
| Agent.QLearningAgent.Observe | src/utils/reinforcementLearning.ts:246-259 | reads the valid actions of the new state and appends the report (episode, reward so far, epsilon, cell, fuel, the values read) |
| Agent.QLearningAgent.TrainingStep | src/utils/reinforcementLearning.ts:236-259 | the loop body makes the training step of the specification: the table, reward, path and reports advance by that step |
| Agent.QLearningAgent.EpisodeStep | src/utils/reinforcementLearning.ts:235-268 | one pass of the episode loop moves the agent one step further along that episode |
| Agent.QLearningAgent.RunEpisode | src/utils/reinforcementLearning.ts:225-272 | after the episode loop, the table, the draw cursor, the path, the total reward and the reports are those of the episode the specification defines |
| Agent.QLearningAgent.KeepBest | src/utils/reinforcementLearning.ts:274-278 | the best path and reward are replaced exactly when the episode's reward is strictly greater, keeping the best-trace invariant |
| Agent.QLearningAgent.DecayEpsilon | src/utils/reinforcementLearning.ts:280-284 | epsilon becomes `max(minEpsilon, epsilon * epsilonDecay)`, and the other parameters stay |
| Agent.QLearningAgent.PlayEpisode | src/utils/reinforcementLearning.ts:223-285 | one iteration of the episode loop leaves the session where playing that episode puts it, and keeps the episode count |
| Agent.QLearningAgent.SessionEpisode | src/utils/reinforcementLearning.ts:223-285 | after the loop's iteration `k`, the agent stands where the first `k + 1` episodes of the session leave it |
| Agent.QLearningAgent.GetOptimalPath | src/utils/reinforcementLearning.ts:290-335 | returns the greedy replay's path and leaves the table as the replay's reads do; the replay lemmas above say what that path is and that no value changes |
| Agent.QLearningAgent.Train | src/utils/reinforcementLearning.ts:222-288 | the agent ends where the whole session of `episodes` episodes puts it (table, epsilon, reports, best path and reward), and returns the best path |

## Left out

- `Math.random()`: it is the parameter `rand` with a draw cursor. No claim is made about probability distributions.
- The `async`/`await` and the 10 ms `setTimeout` between steps: they only yield to the renderer and do not affect the state.
- The observer's own behaviour: only the reports passed to it are modelled. Registration is a constant fixed at construction, so replacing `onUpdate` in the middle of training is not modelled.
- JavaScript numbers are exact `real` values for fuel, rewards, Q-values and parameters, and `int` for coordinates and the grid size. Floating-point rounding, NaN and non-integer coordinates are not modelled. The initial `-Infinity` best reward is `Bound.NegInfinity`.
- `episodes` is an `int`. A fractional episode count, which the source's `episode < episodes` loop rounds up, is not modelled.
- Aliasing is not modelled, because everything is a value. Three JavaScript aliases are therefore absent: the caller's `params` object, which `train` mutates; the array `train` returns, which is the agent's own `bestPath`; and `onUpdate`'s `position`, which is the loop's live object. The source copies states and positions everywhere else, so nothing else is lost.
- The unused `manhattanDistance` local in `executeAction` is not modelled, because it is dead code.
- The two end-to-end scenarios (a 9-cell path on an empty 5 by 5 grid; refuelling on a forced corridor) are not modelled. They depend on what 50 episodes of random exploration learn, not on a property of every run.
- Agent.QLearningAgent.PlayEpisode: does not restate the final `path` and `totalReward`, because its session-level contract does not need them. RunEpisode states both for every episode.
- Agent.QLearningAgent.Train: does not state `currentEpisode`, `path` or `totalReward` after the session. PlayEpisode and RunEpisode state them per episode.
- The UI files (pages, components, the canvas map) are not part of this model.
