/** The transition function of the agent: where an action leads and what it
    pays. The reward is an ordered pipeline: step cost, then the depletion
    override, then the goal override, then an additive shaping term. */
module Dynamics {
  import opened Grid

  function Abs(n: int): nat
  {
    if n < 0 then -n else n
  }

  /** Manhattan distance between two cells. */
  function Distance(p: Position, q: Position): nat
  {
    Abs(p.x - q.x) + Abs(p.y - q.y)
  }

  /** The state an action leads to. The agent does not check bounds here: a
      move is taken as given. */
  function Next(env: Environment, s: State, a: Action): (n: State)
    ensures a != Refuel ==> Distance(s.position, n.position) == 1 && n.fuel == s.fuel - 1.0
    ensures a == Refuel ==> n.position == s.position && n.fuel == env.maxFuel
  {
    if a == Refuel then State(s.position, env.maxFuel)
    else State(Neighbour(s.position, a), s.fuel - 1.0)
  }

  const DepletionPenalty: real := -200.0

  /** Stage 1: the cost of the action itself. */
  function StepCost(a: Action): real
  {
    if a == Refuel then -3.0 else -1.0
  }

  /** Stage 2: arriving with an empty tank replaces the reward. */
  function AfterDepletion(r: real, n: State): real
  {
    if n.fuel <= 0.0 then DepletionPenalty else r
  }

  function GoalReward(fuel: real): real
  {
    200.0 + fuel * 2.0
  }

  /** Stage 3: arriving at the goal replaces the reward again, with a bonus
      for the fuel that is left. */
  function AfterGoal(env: Environment, r: real, n: State): real
  {
    if n.position == env.goal then GoalReward(n.fuel) else r
  }

  /** Stage 4: +5 for getting closer to the goal, -3 for moving away (never
      charged to a refuel), 0 otherwise. */
  function Shaping(env: Environment, s: State, n: State, a: Action): real
  {
    var before := Distance(s.position, env.goal);
    var after := Distance(n.position, env.goal);
    if after < before then 5.0
    else if after > before && a != Refuel then -3.0
    else 0.0
  }

  function Reward(env: Environment, s: State, a: Action): real
  {
    var n := Next(env, s, a);
    AfterGoal(env, AfterDepletion(StepCost(a), n), n) + Shaping(env, s, n, a)
  }

  /** A unit step changes the distance to any cell by exactly one. */
  lemma {:induction false} UnitStepChangesDistance(p: Position, q: Position, g: Position)
    requires Distance(p, q) == 1
    ensures Distance(q, g) == Distance(p, g) + 1 || Distance(q, g) + 1 == Distance(p, g)
  {
  }

  /** Reaching the goal wins over running dry, whatever the fuel left. */
  lemma {:induction false} GoalOverridesDepletion(env: Environment, s: State, a: Action)
    requires Next(env, s, a).position == env.goal
    ensures Reward(env, s, a) == GoalReward(Next(env, s, a).fuel) + Shaping(env, s, Next(env, s, a), a)
  {
  }

  /** A refuel never earns or pays shaping: its reward is the refuel cost,
      the depletion penalty, or the goal reward, and nothing is added. */
  lemma {:induction false} RefuelReward(env: Environment, s: State)
    ensures Reward(env, s, Refuel) ==
      if s.position == env.goal then GoalReward(env.maxFuel)
      else if env.maxFuel <= 0.0 then DepletionPenalty
      else -3.0
  {
  }

  /** What a move earns. Arriving at the goal gives the goal reward plus 5;
      running dry elsewhere gives -200 shifted by the shaping term; any other
      move gives 4 when it gets closer to the goal and -4 otherwise. */
  lemma {:induction false} MoveReward(env: Environment, s: State, a: Action)
    requires a != Refuel
    ensures var n := Next(env, s, a);
            var r := Reward(env, s, a);
            && (n.position == env.goal ==> r == GoalReward(n.fuel) + 5.0)
            && (n.position != env.goal && n.fuel <= 0.0 ==>
                  r == DepletionPenalty + 5.0 || r == DepletionPenalty - 3.0)
            && (n.position != env.goal && n.fuel > 0.0 ==>
                  (r == 4.0 || r == -4.0) &&
                  (r == 4.0 <==> Distance(n.position, env.goal) < Distance(s.position, env.goal)))
  {
    var n := Next(env, s, a);
    UnitStepChangesDistance(s.position, n.position, env.goal);
    if n.position == env.goal {
      assert Distance(n.position, env.goal) == 0;
    }
  }

  /** The refuel heuristic: refuel when the fuel left would not cover the
      distance to the goal with a 20% margin. */
  function NeedsRefuel(currentFuel: real, distanceToGoal: real): bool
  {
    currentFuel < distanceToGoal * 1.2
  }

  /** The heuristic is monotone: less fuel or a longer way never turns a
      refuel into no refuel. Fuel below a distance that is not negative always
      calls for a refuel, and fuel of at least 1.2 times the distance never does. */
  lemma {:induction false} NeedsRefuelMonotone(fuel: real, fuel': real, distance: real, distance': real)
    requires fuel' <= fuel && distance <= distance'
    ensures NeedsRefuel(fuel, distance) ==> NeedsRefuel(fuel', distance')
    ensures 0.0 <= distance && fuel < distance ==> NeedsRefuel(fuel, distance)
    ensures fuel >= 1.2 * distance ==> !NeedsRefuel(fuel, distance)
  {
  }
}
