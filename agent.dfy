/** The Q-learning agent: an object holding the environment, the
    hyper-parameters, the Q-table and the bookkeeping of a training run.
    Every method is proved to compute what the specification functions of
    the other modules describe. */
module Agent {
  import opened Grid
  import opened Dynamics
  import opened QStore
  import opened Training
  import opened Policy
  import opened OptimalPath

  class QLearningAgent {
    var qTable: QTable
    const env: Environment
    var params: Params
    var currentEpisode: int
    var totalReward: real
    /** The cells of the current (or last) training episode. */
    var path: seq<Position>
    var bestPath: seq<Position>
    var bestReward: Bound
    /** Whether a progress observer is registered. */
    const observed: bool
    /** Everything told to the observer so far, in order. */
    var reports: seq<Report>

    /** The best trace is empty exactly while no reward is kept, and
        otherwise starts at the start cell. */
    ghost predicate Valid()
      reads this
    {
      && (bestReward.NegInfinity? <==> bestPath == [])
      && (bestPath != [] ==> bestPath[0] == env.start)
    }

    constructor(environment: Environment, p: Params, observer: bool)
      ensures env == environment && params == p && observed == observer
      ensures qTable == map[] && currentEpisode == 0 && totalReward == 0.0
      ensures path == [] && bestPath == [] && bestReward == NegInfinity && reports == []
      ensures Valid()
    {
      qTable := map[];
      env := environment;
      params := p;
      observed := observer;
      currentEpisode := 0;
      totalReward := 0.0;
      path := [];
      bestPath := [];
      bestReward := NegInfinity;
      reports := [];
    }

    /** A read: returns the stored value or 0, creating the entry when missing. */
    method GetQValue(s: State, a: Action) returns (v: real)
      modifies this`qTable
      ensures v == Lookup(old(qTable), StateKey(s), a)
      ensures qTable == Touch(old(qTable), StateKey(s), a)
    {
      var key := StateKey(s);
      if key !in qTable {
        qTable := qTable[key := map[]];
      }
      if a !in qTable[key] {
        qTable := qTable[key := qTable[key][a := 0.0]];
      }
      v := qTable[key][a];
    }

    /** A write of one entry, creating the row when missing. */
    method SetQValue(s: State, a: Action, value: real)
      modifies this`qTable
      ensures qTable == Store(old(qTable), StateKey(s), a, value)
    {
      var key := StateKey(s);
      if key !in qTable {
        qTable := qTable[key := map[]];
      }
      qTable := qTable[key := qTable[key][a := value]];
    }

    /** The greedy scan shared by selection and replay: start from the first
        action, move to a later one only on a strictly greater value. */
    method GreedyAction(s: State, valid: seq<Action>) returns (best: Action)
      requires valid != []
      modifies this`qTable
      ensures best == Greedy(old(qTable), StateKey(s), valid)
      ensures qTable == TouchAll(old(qTable), StateKey(s), valid)
    {
      ghost var t0 := qTable;
      ghost var key := StateKey(s);
      best := valid[0];
      var bestValue := GetQValue(s, best);
      ghost var b := 0;
      TouchAllSnoc(t0, key, valid, 0);
      for i := 0 to |valid|
        invariant qTable == TouchAll(t0, key, valid[..if i == 0 then 1 else i])
        invariant b < |valid| && b < (if i == 0 then 1 else i)
        invariant b == BestIndex(t0, key, valid[..if i == 0 then 1 else i])
        invariant best == valid[b] && bestValue == Lookup(t0, key, best)
      {
        ExtendsAgree(t0, qTable);
        if i > 0 {
          TouchAllSnoc(t0, key, valid, i);
          BestIndexSnoc(t0, key, valid, i);
        }
        var value := GetQValue(s, valid[i]);
        if value > bestValue {
          bestValue := value;
          best := valid[i];
          b := i;
        }
      }
      assert valid[..|valid|] == valid;
    }
  
    /** Epsilon-greedy choice: the fallback `Up` without a draw when nothing
        is valid; otherwise one draw against epsilon, then either a second
        draw picking a valid action or the greedy scan. Returns the action
        and the index of the next unused draw. */
    method SelectAction(s: State, rand: nat -> Draw, cursor: nat) returns (a: Action, next: nat)
      modifies this`qTable
      ensures var c := Select(env, params.epsilon, old(qTable), s, rand, cursor);
              a == c.action && next == c.cursor && qTable == c.table
    {
      var valid := ValidActions(env, s);
      if |valid| == 0 {
        return Up, cursor;
      }
      if rand(cursor) < params.epsilon {
        a := valid[ExploreIndex(rand(cursor + 1), |valid|)];
        next := cursor + 2;
      } else {
        a := GreedyAction(s, valid);
        next := cursor + 1;
      }
    }

    /** The largest value over the valid actions of `next` (0 when there is
        none), reading each of them in order. */
    method MaxNextValue(next: State) returns (m: real)
      modifies this`qTable
      ensures m == MaxNext(env, old(qTable), next)
      ensures qTable == TouchAll(old(qTable), StateKey(next), ValidActions(env, next))
    {
      ghost var t0 := qTable;
      ghost var key := StateKey(next);
      var acts := ValidActions(env, next);
      m := 0.0;
      for i := 0 to |acts|
        invariant qTable == TouchAll(t0, key, acts[..i])
        invariant if i == 0 then m == 0.0 else m == MaxQ(t0, key, acts[..i])
      {
        ExtendsAgree(t0, qTable);
        TouchAllSnoc(t0, key, acts, i);
        if i > 0 {
          MaxQSnoc(t0, key, acts, i);
        }
        var v := GetQValue(next, acts[i]);
        m := if i == 0 then v else Max(m, v);
      }
      assert acts[..|acts|] == acts;
      if |acts| > 0 {
        assert m == MaxQ(t0, key, acts);
      }
    }

    /** The Q-learning update of the entry (s, a) towards the reward plus the
        discounted best value of the next state. */
    method UpdateQValue(s: State, a: Action, reward: real, next: State)
      modifies this`qTable
      ensures qTable == UpdateTable(env, params.learningRate, params.discountFactor, old(qTable), s, a, reward, next)
    {
      ghost var t0 := qTable;
      var currentQ := GetQValue(s, a);
      ExtendsAgree(t0, qTable);
      MaxNextAgree(env, t0, qTable, next);
      var maxNextQ := MaxNextValue(next);
      var newQ := QUpdate(currentQ, reward, maxNextQ, params.learningRate, params.discountFactor);
      SetQValue(s, a, newQ);
    }

    /** The progress report: read the valid actions of `s` and tell the
        observer the episode, the reward so far, epsilon, the cell, the fuel
        and those values. */
    method Observe(episode: int, s: State)
      modifies this`qTable, this`reports
      ensures qTable == TouchAll(old(qTable), StateKey(s), ValidActions(env, s))
      ensures reports == old(reports) + [Report(episode, totalReward, params.epsilon, s.position, s.fuel, QValues(env, qTable, s))]
    {
      ghost var t0 := qTable;
      ghost var key := StateKey(s);
      var valid := ValidActions(env, s);
      var qValues: map<Action, real> := map[];
      for i := 0 to |valid|
        invariant qTable == TouchAll(t0, key, valid[..i])
        invariant qValues == ValuesOf(t0, key, valid[..i])
        invariant reports == old(reports)
      {
        ExtendsAgree(t0, qTable);
        TouchAllSnoc(t0, key, valid, i);
        ValuesSnoc(t0, key, valid, i);
        var v := GetQValue(s, valid[i]);
        qValues := qValues[valid[i] := v];
      }
      assert valid[..|valid|] == valid;
      ExtendsAgree(t0, qTable);
      ValuesAgree(t0, qTable, key, valid);
      reports := reports + [Report(episode, totalReward, params.epsilon, s.position, s.fuel, qValues)];
    }
  
    /** The body of the training loop: select, execute, update, add the
        reward, extend the path, and report when observed. */
    method TrainingStep(episode: int, s: State, rand: nat -> Draw, cursor: nat) returns (o: StepOut)
      modifies this`qTable, this`totalReward, this`path, this`reports
      ensures o == TrainStep(env, params, observed, old(qTable), s, rand, cursor)
      ensures qTable == o.table
      ensures totalReward == old(totalReward) + o.reward
      ensures path == old(path) + [o.next.position]
      ensures reports == old(reports) + ReportOf(env, params, observed, episode, totalReward, o)
    {
      var action, c := SelectAction(s, rand, cursor);
      var nextState := Next(env, s, action);
      var reward := Reward(env, s, action);
      UpdateQValue(s, action, reward, nextState);
      totalReward := totalReward + reward;
      path := path + [nextState.position];
      if observed {
        Observe(episode, nextState);
      }
      o := StepOut(action, nextState, reward, qTable, c);
    }

    /** A running episode `r` of the session's current parameters, begun
        with table `t0` and cursor `c0`, stands after `k` steps: the agent's
        fields, the state and the cursor are those its steps leave, and the
        reports it told are `told`, after `base`. */
    ghost predicate Running(episode: int, rand: nat -> Draw, t0: QTable, c0: nat, r: seq<StepOut>, k: nat,
                            state: State, cursor: nat, base: seq<Report>, told: seq<Report>)
      reads this
    {
      && r == EpisodeRun(env, params, observed, t0, rand, c0)
      && StoodAt(env, params, observed, episode, t0, c0, r, k, Standing(qTable, state, cursor, path, totalReward, told))
      && reports == base + told
    }

    /** One step of a running episode below the step cap and not yet at a
        terminal state: the step the episode takes from where it stands,
        with its report added to those told. */
    method EpisodeStep(episode: int, rand: nat -> Draw, state: State, cursor: nat,
                       ghost t0: QTable, ghost c0: nat, ghost r: seq<StepOut>, ghost k: nat,
                       ghost base: seq<Report>, ghost told: seq<Report>)
      returns (o: StepOut, ghost told': seq<Report>)
      requires k < MaxSteps(env) && (k > 0 ==> !Terminal(env, state))
      requires Running(episode, rand, t0, c0, r, k, state, cursor, base, told)
      modifies this`qTable, this`totalReward, this`path, this`reports
      ensures Running(episode, rand, t0, c0, r, k + 1, o.next, o.cursor, base, told')
    {
      ghost var st := Standing(qTable, state, cursor, path, totalReward, told);
      EpisodeGoesOn(env, params, observed, episode, rand, t0, c0, r, k, st);
      o := TrainingStep(episode, state, rand, cursor);
      told' := told + ReportOf(env, params, observed, episode, totalReward, o);
      AppendAssoc(base, told, ReportOf(env, params, observed, episode, totalReward, o));
      Advanced(env, params, observed, episode, st, o, qTable, path, totalReward, told');
    }

    /** One training episode from the start with a full tank: steps until a
        terminal state or the step cap. Returns the index of the next unused
        draw. */
    method RunEpisode(episode: int, rand: nat -> Draw, cursor: nat) returns (next: nat, ghost r: seq<StepOut>)
      modifies this`qTable, this`totalReward, this`path, this`reports
      ensures r == EpisodeRun(env, params, observed, old(qTable), rand, cursor)
      ensures qTable == TableAfter(old(qTable), r) && next == CursorAfter(cursor, r)
      ensures path == Positions(EpisodeOf(env, r).states) && totalReward == Gain(r)
      ensures reports == old(reports) + ReportsAlong(env, params, observed, episode, 0.0, r)
    {
      ghost var t0 := qTable;
      r := EpisodeRun(env, params, observed, qTable, rand, cursor);
      ghost var told: seq<Report> := [];
      ghost var k := 0;
      var maxSteps := MaxSteps(env);
      var state := Initial(env);
      path := [state.position];
      totalReward := 0.0;
      var steps := 0;
      next := cursor;
      while steps < maxSteps
        invariant k == steps <= maxSteps && (k > 0 ==> !Terminal(env, state))
        invariant Running(episode, rand, t0, cursor, r, k, state, next, old(reports), told)
      {
        var o;
        o, told := EpisodeStep(episode, rand, state, next, t0, cursor, r, k, old(reports), told);
        state := o.next;
        next := o.cursor;
        k := k + 1;
        if Terminal(env, state) {
          break;
        }
        steps := steps + 1;
      }
      EpisodeEnded(env, params, observed, episode, rand, t0, cursor, r, k, Standing(qTable, state, next, path, totalReward, told));
    }

    /** Where the training session stands, given the draw cursor. */
    ghost function Now(cursor: nat): Progress
      reads this
    {
      Progress(params, qTable, cursor, reports, bestPath, bestReward)
    }

    /** The comparison after an episode: its reward and trace replace the
        best ones when the reward is strictly greater. */
    method KeepBest()
      requires Valid() && |path| >= 1 && path[0] == env.start
      modifies this`bestPath, this`bestReward
      ensures Beats(totalReward, old(bestReward)) ==> bestReward == Finite(totalReward) && bestPath == path
      ensures !Beats(totalReward, old(bestReward)) ==> bestReward == old(bestReward) && bestPath == old(bestPath)
      ensures Valid()
    {
      if Beats(totalReward, bestReward) {
        bestReward := Finite(totalReward);
        bestPath := path;
      }
    }

    /** The decay after an episode: epsilon shrinks by the decay factor but
        not below its floor. */
    method DecayEpsilon()
      modifies this`params
      ensures params == old(params).(epsilon := Decayed(old(params).epsilon, old(params).epsilonDecay, old(params).minEpsilon))
    {
      params := params.(epsilon := Decayed(params.epsilon, params.epsilonDecay, params.minEpsilon));
    }

    /** One episode of the training session: run it, keep its trace when
        its reward beats the best so far, then decay epsilon. */
    method PlayEpisode(episode: int, rand: nat -> Draw, cursor: nat) returns (next: nat)
      requires Valid()
      modifies this`qTable, this`params, this`currentEpisode, this`totalReward, this`path,
               this`bestPath, this`bestReward, this`reports
      ensures Now(next) == Play(env, observed, rand, episode, old(Now(cursor)))
      ensures params.episodes == old(params).episodes
      ensures currentEpisode == episode && Valid()
    {
      ghost var s := Progress(params, qTable, cursor, reports, bestPath, bestReward);
      currentEpisode := episode;
      ghost var r;
      next, r := RunEpisode(episode, rand, cursor);
      TraceStarts(env, r);
      KeepBest();
      DecayEpsilon();
      Played(env, observed, rand, episode, s, r, Progress(params, qTable, next, reports, bestPath, bestReward));
    }

    /** The agent stands where the first `k` episodes `runs` of the
        session begun at `s0` leave it, with the draw cursor at `cursor`. */
    ghost predicate After(s0: Progress, runs: seq<seq<StepOut>>, k: nat, cursor: nat)
      reads this
    {
      k <= |runs| && Valid() && Now(cursor) == Standings(env, observed, s0, runs, k)
    }

    /** Episode `episode` of the session begun at `s0` whose episodes are
        `runs`, played from where the episodes before it leave the session. */
    method SessionEpisode(episode: nat, rand: nat -> Draw, cursor: nat, ghost s0: Progress,
                          ghost runs: seq<seq<StepOut>>) returns (next: nat)
      requires episode < |runs| && runs == AgentRuns(env, observed, rand, s0, |runs|)
      requires After(s0, runs, episode, cursor)
      modifies this`qTable, this`params, this`currentEpisode, this`totalReward, this`path,
               this`bestPath, this`bestReward, this`reports
      ensures After(s0, runs, episode + 1, next)
    {
      SessionNext(env, observed, rand, s0, runs, episode, Now(cursor));
      next := PlayEpisode(episode, rand, cursor);
    }

    /** The greedy replay from the start with a full tank: at most the step
        cap of steps, each taking the earliest valid action of highest
        value; refuels add no cell; stop with no valid action or at the
        goal. Returns the visited cells, the start first. */
    method GetOptimalPath() returns (result: seq<Position>)
      modifies this`qTable
      ensures result == GreedyPath(env, old(qTable))
      ensures qTable == ReplayTable(env, old(qTable))
    {
      ghost var t0 := qTable;
      var state := Initial(env);
      result := [state.position];
      var maxSteps := MaxSteps(env);
      var steps := 0;
      ReplayBegins(env, t0);
      while steps < maxSteps
        invariant steps <= maxSteps && ReplayedSoFar(env, t0, steps, qTable, state, result)
      {
        var validActions := ValidActions(env, state);
        if |validActions| == 0 {
          ReplayStranded(env, t0, steps, qTable, state, result);
          break;
        }
        ghost var t, s, before := qTable, state, result;
        var bestAction := GreedyAction(state, validActions);
        state := Next(env, state, bestAction);
        result := result + (if bestAction == Refuel then [] else [state.position]);
        ReplayAdvances(env, t0, steps, t, s, before, qTable, state, result);
        if state.position == env.goal {
          ReplayReachesGoal(env, t0, steps + 1, qTable, state, result);
          break;
        }
        steps := steps + 1;
      }
      if steps == maxSteps {
        ReplayCapped(env, t0, steps, qTable, state, result);
      }
    }

    /** The training session: `params.episodes` episodes numbered from 0,
        each followed by the comparison with the best reward so far and the
        decay of epsilon. Returns the best trace. */
    method Train(rand: nat -> Draw) returns (best: seq<Position>)
      requires Valid()
      modifies this`qTable, this`params, this`currentEpisode, this`totalReward, this`path,
               this`bestPath, this`bestReward, this`reports
      ensures var s := SessionProgress(env, observed, rand,
                                       Progress(old(params), old(qTable), 0, old(reports), old(bestPath), old(bestReward)),
                                       EpisodeCount(old(params)));
              Now(s.cursor) == s
      ensures best == bestPath && Valid()
    {
      ghost var s0 := Progress(params, qTable, 0, reports, bestPath, bestReward);
      var count := if params.episodes > 0 then params.episodes else 0;
      ghost var runs := AgentRuns(env, observed, rand, s0, count);
      var cursor: nat := 0;
      for episode := 0 to count
        invariant After(s0, runs, episode, cursor)
      {
        cursor := SessionEpisode(episode, rand, cursor, s0, runs);
      }
      best := bestPath;
    }
  }
}
