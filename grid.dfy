/** The grid world of the path-finding agent: cells, the environment it is
    given, the five actions, and which actions are offered in a state. */
module Grid {

  /** A grid cell; equality is component-wise. */
  datatype Position = Position(x: int, y: int)

  /** The world handed to the agent. The agent never validates it. */
  datatype Environment = Environment(
    gridSize: int,
    start: Position,
    goal: Position,
    fuelStations: seq<Position>,
    obstacles: seq<Position>,
    maxFuel: real)

  /** What the agent knows at each step: where it is and how much fuel it has. */
  datatype State = State(position: Position, fuel: real)

  datatype Action = Up | Down | Left | Right | Refuel

  /** The fixed order in which actions are listed: up, down, left, right, refuel. */
  function Rank(a: Action): nat
  {
    match a
    case Up => 0
    case Down => 1
    case Left => 2
    case Right => 3
    case Refuel => 4
  }

  /** Listed in the fixed order, hence also without duplicates. */
  predicate Ordered(acts: seq<Action>)
  {
    forall i, j :: 0 <= i < j < |acts| ==> Rank(acts[i]) < Rank(acts[j])
  }

  predicate IsObstacle(env: Environment, p: Position)
  {
    p in env.obstacles
  }

  predicate IsFuelStation(env: Environment, p: Position)
  {
    p in env.fuelStations
  }

  predicate InGrid(env: Environment, p: Position)
  {
    0 <= p.x < env.gridSize && 0 <= p.y < env.gridSize
  }

  /** The cell a movement leads to; `Up` decreases y. Refuel stays put. */
  function Neighbour(p: Position, a: Action): Position
  {
    match a
    case Up => Position(p.x, p.y - 1)
    case Down => Position(p.x, p.y + 1)
    case Left => Position(p.x - 1, p.y)
    case Right => Position(p.x + 1, p.y)
    case Refuel => p
  }

  /** Reference definition of legality: a move needs an in-grid, obstacle-free
      target cell; refuelling needs a station and a tank below capacity. */
  predicate Legal(env: Environment, s: State, a: Action)
  {
    if a == Refuel then IsFuelStation(env, s.position) && s.fuel < env.maxFuel
    else InGrid(env, Neighbour(s.position, a)) && !IsObstacle(env, Neighbour(s.position, a))
  }

  function Offer(cond: bool, a: Action): seq<Action>
  {
    if cond then [a] else []
  }

  /** The action list the agent builds: each action that passes its check,
      in the order up, down, left, right, refuel. A move needs the target
      row or column inside the grid and no obstacle there; refuelling needs
      a station under the agent and a tank below capacity. */
  function ValidActions(env: Environment, s: State): seq<Action>
  {
    var p := s.position;
    Offer(p.y > 0 && !IsObstacle(env, Neighbour(p, Up)), Up)
    + Offer(p.y < env.gridSize - 1 && !IsObstacle(env, Neighbour(p, Down)), Down)
    + Offer(p.x > 0 && !IsObstacle(env, Neighbour(p, Left)), Left)
    + Offer(p.x < env.gridSize - 1 && !IsObstacle(env, Neighbour(p, Right)), Right)
    + Offer(IsFuelStation(env, p) && s.fuel < env.maxFuel, Refuel)
  }

  /** The list holds at most one of each action, in the fixed order. */
  lemma {:induction false} ValidActionsOrdered(env: Environment, s: State)
    ensures |ValidActions(env, s)| <= 5 && Ordered(ValidActions(env, s))
  {
    var p := s.position;
    OffersOrdered(p.y > 0 && !IsObstacle(env, Neighbour(p, Up)),
                  p.y < env.gridSize - 1 && !IsObstacle(env, Neighbour(p, Down)),
                  p.x > 0 && !IsObstacle(env, Neighbour(p, Left)),
                  p.x < env.gridSize - 1 && !IsObstacle(env, Neighbour(p, Right)),
                  IsFuelStation(env, p) && s.fuel < env.maxFuel);
  }

  /** Helper: the five offers joined in the fixed order are ordered. */
  lemma {:induction false} OffersOrdered(up: bool, down: bool, left: bool, right: bool, refuel: bool)
    ensures var acts := Offer(up, Up) + Offer(down, Down) + Offer(left, Left) + Offer(right, Right) + Offer(refuel, Refuel);
            |acts| <= 5 && Ordered(acts)
  {
    MovesOrdered(up, down, left, right);
    OrderedJoin(Offer(up, Up) + Offer(down, Down) + Offer(left, Left) + Offer(right, Right), 3, Offer(refuel, Refuel), 4);
  }

  /** Helper: the four movement offers are ordered and of rank at most 3. */
  lemma {:induction false} MovesOrdered(up: bool, down: bool, left: bool, right: bool)
    ensures var xs := Offer(up, Up) + Offer(down, Down) + Offer(left, Left) + Offer(right, Right);
            |xs| <= 4 && Ordered(xs) && forall i :: 0 <= i < |xs| ==> Rank(xs[i]) <= 3
  {
    FirstMovesOrdered(up, down, left);
    OrderedJoin(Offer(up, Up) + Offer(down, Down) + Offer(left, Left), 2, Offer(right, Right), 3);
  }

  /** Helper: the first three offers are ordered and of rank at most 2. */
  lemma {:induction false} FirstMovesOrdered(up: bool, down: bool, left: bool)
    ensures var xs := Offer(up, Up) + Offer(down, Down) + Offer(left, Left);
            |xs| <= 3 && Ordered(xs) && forall i :: 0 <= i < |xs| ==> Rank(xs[i]) <= 2
  {
  }

  /** Helper: joining an ordered list whose ranks are at most `m` with a list
      of at most one action of rank `n > m` stays ordered. */
  lemma {:induction false} OrderedJoin(xs: seq<Action>, m: nat, ys: seq<Action>, n: nat)
    requires Ordered(xs) && forall i :: 0 <= i < |xs| ==> Rank(xs[i]) <= m
    requires |ys| <= 1 && forall i :: 0 <= i < |ys| ==> Rank(ys[i]) == n
    requires m < n
    ensures Ordered(xs + ys) && forall i :: 0 <= i < |xs + ys| ==> Rank((xs + ys)[i]) <= n
  {
  }

  /** For an agent inside the grid, the listed actions are exactly the legal ones. */
  lemma {:induction false} ValidActionsAreLegal(env: Environment, s: State)
    requires InGrid(env, s.position)
    ensures forall a :: a in ValidActions(env, s) <==> Legal(env, s, a)
  {
  }

  /** The actions the agent may end up taking: the valid ones, or the fixed
      fallback `Up` when none is valid. */
  function Choices(env: Environment, s: State): (r: seq<Action>)
    ensures r != []
  {
    var valid := ValidActions(env, s);
    if valid == [] then [Up] else valid
  }
}
