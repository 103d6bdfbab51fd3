/** Specifications of what the training loop produces: episode traces and
    what a well-formed one is, the single best trace kept over a run, and
    the exploration schedule. */
module Training {
  import opened Grid
  import opened Dynamics
  import opened QStore

  /** Every episode and the replay start here, with a full tank. */
  function Initial(env: Environment): State
  {
    State(env.start, env.maxFuel)
  }

  /** The step cap of an episode and of the replay: 2 * gridSize^2. */
  function MaxSteps(env: Environment): nat
  {
    var g := Abs(env.gridSize);
    assert g * g >= 0;
    assert env.gridSize * env.gridSize == g * g;
    env.gridSize * env.gridSize * 2
  }

  /** An episode ends on reaching the goal or running dry. */
  predicate Terminal(env: Environment, s: State)
  {
    s.position == env.goal || s.fuel <= 0.0
  }

  function Positions(states: seq<State>): seq<Position>
  {
    seq(|states|, i requires 0 <= i < |states| => states[i].position)
  }

  lemma {:induction false} PositionsSnoc(states: seq<State>, s: State)
    ensures Positions(states + [s]) == Positions(states) + [s.position]
  {
  }

  /** A record of one training episode: the states visited, the actions taken
      between them, and the accumulated reward. */
  datatype Episode = Episode(states: seq<State>, actions: seq<Action>, total: real)

  /** Each action is one the agent could take there, and leads to the next state. */
  ghost predicate Steps(env: Environment, states: seq<State>, actions: seq<Action>)
  {
    && |states| == |actions| + 1
    && forall i :: 0 <= i < |actions| ==>
         actions[i] in Choices(env, states[i]) && states[i + 1] == Next(env, states[i], actions[i])
  }

  /** Sum of the rewards of the steps taken, in order. */
  function Returns(env: Environment, states: seq<State>, actions: seq<Action>): real
    requires |states| == |actions| + 1
    decreases |actions|
  {
    if actions == [] then 0.0
    else Reward(env, states[0], actions[0]) + Returns(env, states[1..], actions[1..])
  }

  /** What every recorded episode satisfies: it starts at the start with a
      full tank, takes at most the step cap of steps, does not stop at a
      non-terminal state before the cap, never continues past a terminal
      state, and its total is the sum of its rewards. */
  ghost predicate WellFormed(env: Environment, e: Episode)
  {
    && Steps(env, e.states, e.actions)
    && e.states[0] == Initial(env)
    && |e.actions| <= MaxSteps(env)
    && (forall i :: 1 <= i < |e.states| - 1 ==> !Terminal(env, e.states[i]))
    && (|e.actions| < MaxSteps(env) ==> |e.actions| >= 1 && Terminal(env, e.states[|e.states| - 1]))
    && e.total == Returns(env, e.states, e.actions)
  }

  /** The trace of a recorded episode starts at the start cell, grows by one
      cell per step and is at most 2 * gridSize^2 + 1 long. */
  lemma {:induction false} EpisodePath(env: Environment, e: Episode)
    requires WellFormed(env, e)
    ensures var path := Positions(e.states);
            |path| == |e.actions| + 1 && |path| <= MaxSteps(env) + 1 && path[0] == env.start
  {
  }

  /** As long as every visited state offers a valid action (so the fixed
      fallback `Up` is never taken), a training episode stays inside the grid,
      off obstacles, and moves one cell at a time or stays put. */
  lemma {:induction false} EpisodeStaysInGrid(env: Environment, e: Episode, n: nat)
    requires WellFormed(env, e) && InGrid(env, env.start) && n < |e.states|
    requires forall i :: 0 <= i < |e.actions| ==> ValidActions(env, e.states[i]) != []
    ensures InGrid(env, e.states[n].position)
    ensures n > 0 ==> Distance(e.states[n - 1].position, e.states[n].position) <= 1
    ensures n > 0 && e.states[n].position != e.states[n - 1].position ==>
              !IsObstacle(env, e.states[n].position)
  {
    if n > 0 {
      EpisodeStaysInGrid(env, e, n - 1);
      var s, a := e.states[n - 1], e.actions[n - 1];
      ValidActionsAreLegal(env, s);
      assert a in ValidActions(env, s);
    }
  }

  /** The best reward so far; before the first episode it is minus infinity. */
  datatype Bound = NegInfinity | Finite(value: real)

  predicate Beats(x: real, b: Bound)
  {
    b.NegInfinity? || x > b.value
  }

  /** The running best over a sequence of episodes: a trace replaces the kept
      one only when its total is strictly greater. */
  function KeepBest(path: seq<Position>, reward: Bound, eps: seq<Episode>): (seq<Position>, Bound)
    decreases |eps|
  {
    if eps == [] then (path, reward)
    else
      var prev := KeepBest(path, reward, eps[..|eps| - 1]);
      var e := eps[|eps| - 1];
      if Beats(e.total, prev.1) then (Positions(e.states), Finite(e.total)) else prev
  }

  /** Helper: one more episode, compared with the best kept so far. */
  lemma {:induction false} KeepBestSnoc(path: seq<Position>, reward: Bound, eps: seq<Episode>, e: Episode)
    ensures var prev := KeepBest(path, reward, eps);
            KeepBest(path, reward, eps + [e]) ==
            if Beats(e.total, prev.1) then (Positions(e.states), Finite(e.total)) else prev
  {
    assert (eps + [e])[..|eps|] == eps;
  }

  /** The kept reward is at least every episode's total and at least the
      reward kept before. */
  lemma {:induction false} KeepBestIsMaximum(path: seq<Position>, reward: Bound, eps: seq<Episode>)
    ensures var r := KeepBest(path, reward, eps).1;
            && (forall i :: 0 <= i < |eps| ==> !Beats(eps[i].total, r))
            && (reward.Finite? ==> r.Finite? && reward.value <= r.value)
    decreases |eps|
  {
    if eps != [] {
      KeepBestIsMaximum(path, reward, eps[..|eps| - 1]);
      assert forall i :: 0 <= i < |eps| - 1 ==> eps[..|eps| - 1][i] == eps[i];
    }
  }

  /** The kept trace is the old one, or that of the first episode to reach the
      final best total, which beat everything before it. */
  lemma {:induction false} KeepBestIsEarliest(path: seq<Position>, reward: Bound, eps: seq<Episode>)
    ensures var r := KeepBest(path, reward, eps);
            || r == (path, reward)
            || exists i :: 0 <= i < |eps| && r == (Positions(eps[i].states), Finite(eps[i].total))
                 && Beats(eps[i].total, reward)
                 && forall j :: 0 <= j < i ==> eps[j].total < eps[i].total
    decreases |eps|
  {
    if eps != [] {
      var init := eps[..|eps| - 1];
      var prev := KeepBest(path, reward, init);
      var e := eps[|eps| - 1];
      KeepBestIsEarliest(path, reward, init);
      KeepBestIsMaximum(path, reward, init);
      assert forall i :: 0 <= i < |init| ==> init[i] == eps[i];
      if Beats(e.total, prev.1) {
        var n := |eps| - 1;
        assert forall j :: 0 <= j < n ==> !Beats(init[j].total, prev.1);
        assert Beats(e.total, reward) by {
          if reward.Finite? { assert prev.1.Finite? && reward.value <= prev.1.value; }
        }
        assert forall j :: 0 <= j < n ==> eps[j].total < e.total by {
          forall j | 0 <= j < n ensures eps[j].total < e.total {
            assert !Beats(init[j].total, prev.1);
          }
        }
      }
    }
  }

  /** After at least one well-formed episode, the kept trace is non-empty and
      starts at the start cell, provided the old one was empty exactly when no
      reward had been kept and otherwise started there too. */
  lemma {:induction false} KeepBestStartsAtStart(env: Environment, path: seq<Position>, reward: Bound, eps: seq<Episode>)
    requires reward.NegInfinity? <==> path == []
    requires path != [] ==> path[0] == env.start
    requires forall i :: 0 <= i < |eps| ==> WellFormed(env, eps[i])
    ensures var r := KeepBest(path, reward, eps);
            && (r.1.NegInfinity? <==> r.0 == [])
            && (r.0 != [] ==> r.0[0] == env.start)
            && (eps != [] ==> r.0 != [])
  {
    KeepBestIsEarliest(path, reward, eps);
    var r := KeepBest(path, reward, eps);
    if r != (path, reward) {
      var i :| 0 <= i < |eps| && r == (Positions(eps[i].states), Finite(eps[i].total));
      EpisodePath(env, eps[i]);
    }
    if eps != [] {
      KeepBestIsMaximum(path, reward, eps);
    }
  }

  /** One per-episode decay step: multiplicative, but not below the floor. */
  function Decayed(epsilon: real, decay: real, floor: real): real
  {
    Max(floor, epsilon * decay)
  }

  /** Exploration rate after `n` episodes. */
  function EpsilonAfter(epsilon: real, decay: real, floor: real, n: nat): real
    decreases n
  {
    if n == 0 then epsilon else Decayed(EpsilonAfter(epsilon, decay, floor, n - 1), decay, floor)
  }

  /** `x * d^n`: `x` multiplied by `d`, `n` times. */
  function Compounded(x: real, d: real, n: nat): real
    decreases n
  {
    if n == 0 then x else Compounded(x, d, n - 1) * d
  }

  /** Helper: one decay step applied to an already floored value. */
  lemma {:induction false} DecayFloored(x: real, y: real, decay: real, floor: real)
    requires 0.0 <= floor && 0.0 <= decay <= 1.0 && y == x * decay
    ensures Decayed(Max(floor, x), decay, floor) == Max(floor, y)
  {
    if x <= floor {
      assert floor * decay <= floor * 1.0;
      assert x * decay <= floor * decay;
    }
  }

  /** With a non-negative floor and a decay factor in [0, 1], after at least
      one episode the repeated floor-and-multiply equals a single floor applied
      to epsilon * decay^n (for n = 0 only when epsilon starts above the floor). */
  lemma {:induction false} EpsilonClosedForm(epsilon: real, decay: real, floor: real, n: nat)
    requires 0.0 <= floor && 0.0 <= decay <= 1.0
    requires n > 0 || floor <= epsilon
    ensures EpsilonAfter(epsilon, decay, floor, n) == Max(floor, Compounded(epsilon, decay, n))
    decreases n
  {
    if n == 1 {
      DecayFloored(epsilon, Compounded(epsilon, decay, 1), decay, floor);
    } else if n > 1 {
      var m: nat := n - 1;
      calc {
        EpsilonAfter(epsilon, decay, floor, n);
        Decayed(EpsilonAfter(epsilon, decay, floor, m), decay, floor);
        { EpsilonClosedForm(epsilon, decay, floor, m); }
        Decayed(Max(floor, Compounded(epsilon, decay, m)), decay, floor);
        { DecayFloored(Compounded(epsilon, decay, m), Compounded(epsilon, decay, n), decay, floor); }
        Max(floor, Compounded(epsilon, decay, n));
      }
    }
  }

  /** The index an exploring step picks from a uniform draw `u` in [0, 1)
      over `n` choices: floor(u * n), always in range. */
  function ExploreIndex(u: real, n: nat): (i: nat)
    requires 0.0 <= u < 1.0 && n > 0
    ensures i < n
  {
    assert u * n as real < n as real;
    (u * n as real).Floor
  }
}
