/** The learning step as a function of the table and of the random draws:
    epsilon-greedy selection, the table update, the observer's reads, one
    whole episode and a whole training session. The agent's methods are
    proved to compute exactly these. */
module Policy {
  import opened Grid
  import opened Dynamics
  import opened QStore
  import opened Training

  /** The hyper-parameters as given; only `epsilon` changes during training. */
  datatype Params = Params(
    learningRate: real,
    discountFactor: real,
    epsilon: real,
    epsilonDecay: real,
    minEpsilon: real,
    episodes: int)

  /** A value of the random source, in [0, 1). The i-th call of the source
      returns `rand(i)`. */
  type Draw = r: real | 0.0 <= r < 1.0

  /** A selected action, the table after the reads it made, and the index of
      the next unused draw. */
  datatype Choice = Choice(action: Action, table: QTable, cursor: nat)

  /** Epsilon-greedy selection. With no valid action the fixed fallback `Up`
      is taken without a draw. Otherwise one draw is compared with epsilon:
      below it a second draw picks a valid action uniformly; else the valid
      action of highest value is taken, reading every valid action. */
  function Select(env: Environment, epsilon: real, t: QTable, s: State, rand: nat -> Draw, cursor: nat): (c: Choice)
    ensures c.action in Choices(env, s)
    ensures Extends(t, c.table)
  {
    var valid := ValidActions(env, s);
    if valid == [] then Choice(Up, t, cursor)
    else if rand(cursor) < epsilon then
      Choice(valid[ExploreIndex(rand(cursor + 1), |valid|)], t, cursor + 2)
    else
      Choice(Greedy(t, StateKey(s), valid), TouchAll(t, StateKey(s), valid), cursor + 1)
  }

  /** When the draw is not below epsilon the agent exploits: it takes an
      action of maximal value, the earliest such, reads every valid action
      and uses one draw. */
  lemma {:induction false} SelectExploits(env: Environment, epsilon: real, t: QTable, s: State, rand: nat -> Draw, cursor: nat)
    requires rand(cursor) >= epsilon && ValidActions(env, s) != []
    ensures var c := Select(env, epsilon, t, s, rand, cursor);
            var valid := ValidActions(env, s);
            && c.cursor == cursor + 1
            && c.table == TouchAll(t, StateKey(s), valid)
            && Lookup(t, StateKey(s), c.action) == MaxQ(t, StateKey(s), valid)
            && forall j :: 0 <= j < |valid| && valid[j] == c.action ==>
                 forall i :: 0 <= i < j ==> Lookup(t, StateKey(s), valid[i]) < MaxQ(t, StateKey(s), valid)
  {
    var valid := ValidActions(env, s);
    MaxQIsGreedyValue(t, StateKey(s), valid);
    BestIndexIsEarliestMaximum(t, StateKey(s), valid);
    ValidActionsOrdered(env, s);
    var b := BestIndex(t, StateKey(s), valid);
    forall j | 0 <= j < |valid| && valid[j] == valid[b]
      ensures j == b
    {
    }
  }

  /** When the draw is below epsilon the agent explores: the table is not
      read, two draws are used, and the second one picks the action. */
  lemma {:induction false} SelectExplores(env: Environment, epsilon: real, t: QTable, s: State, rand: nat -> Draw, cursor: nat)
    requires rand(cursor) < epsilon && ValidActions(env, s) != []
    ensures var c := Select(env, epsilon, t, s, rand, cursor);
            var valid := ValidActions(env, s);
            && c.cursor == cursor + 2
            && c.table == t
            && c.action == valid[ExploreIndex(rand(cursor + 1), |valid|)]
  {
  }

  /** The table after `updateQValue`: the read of (s, a), the reads of the
      next state's valid actions, then the write of the new estimate. The
      written entry holds the Q-learning update; every other entry reads as
      before. */
  function UpdateTable(env: Environment, learningRate: real, discount: real, t: QTable,
                       s: State, a: Action, reward: real, next: State): (t': QTable)
    ensures Lookup(t', StateKey(s), a) ==
            QUpdate(Lookup(t, StateKey(s), a), reward, MaxNext(env, t, next), learningRate, discount)
    ensures forall k, b :: (k, b) != (StateKey(s), a) ==> Lookup(t', k, b) == Lookup(t, k, b)
  {
    var k := StateKey(s);
    var touched := Touch(t, k, a);
    var read := TouchAll(touched, StateKey(next), ValidActions(env, next));
    ExtendsTransitive(t, touched, read);
    ExtendsAgree(t, read);
    Store(read, k, a, QUpdate(Lookup(t, k, a), reward, MaxNext(env, t, next), learningRate, discount))
  }

  /** With a rate in [0, 1] the new value lies between the old one and the target. */
  lemma {:induction false} UpdateTableMovesTowardsTarget(env: Environment, learningRate: real, discount: real, t: QTable,
                                      s: State, a: Action, reward: real, next: State)
    requires 0.0 <= learningRate <= 1.0
    ensures var old_ := Lookup(t, StateKey(s), a);
            var new_ := Lookup(UpdateTable(env, learningRate, discount, t, s, a, reward, next), StateKey(s), a);
            var target := reward + discount * MaxNext(env, t, next);
            && (old_ <= target ==> old_ <= new_ <= target)
            && (target <= old_ ==> target <= new_ <= old_)
  {
    QUpdateInterpolates(Lookup(t, StateKey(s), a), reward, MaxNext(env, t, next), learningRate, discount);
  }

  /** With learning rate 0 an update changes no value. */
  lemma {:induction false} UpdateTableZeroRate(env: Environment, learningRate: real, discount: real, t: QTable,
                            s: State, a: Action, reward: real, next: State)
    ensures learningRate == 0.0 ==> Agree(t, UpdateTable(env, learningRate, discount, t, s, a, reward, next))
  {
    if learningRate == 0.0 {
      QUpdateInterpolates(Lookup(t, StateKey(s), a), reward, MaxNext(env, t, next), learningRate, discount);
    }
  }

  /** The values of the listed actions under one key, entered one action
      at a time in list order. */
  function ValuesOf(t: QTable, k: Key, acts: seq<Action>): map<Action, real>
    decreases |acts|
  {
    if acts == [] then map[]
    else ValuesOf(t, k, acts[..|acts| - 1])[acts[|acts| - 1] := Lookup(t, k, acts[|acts| - 1])]
  }

  /** The values shown are exactly those of the listed actions, each the
      value the table gives it. */
  lemma {:induction false} ValuesOfListed(t: QTable, k: Key, acts: seq<Action>)
    ensures ValuesOf(t, k, acts).Keys == set a | a in acts
    ensures forall a :: a in ValuesOf(t, k, acts) ==> ValuesOf(t, k, acts)[a] == Lookup(t, k, a)
    decreases |acts|
  {
    if acts != [] {
      var front := acts[..|acts| - 1];
      ValuesOfListed(t, k, front);
      assert acts == front + [acts[|acts| - 1]];
    }
  }

  /** Helper: the values of one more action of a prefix. */
  lemma {:induction false} ValuesSnoc(t: QTable, k: Key, acts: seq<Action>, i: nat)
    requires i < |acts|
    ensures ValuesOf(t, k, acts[..i + 1]) == ValuesOf(t, k, acts[..i])[acts[i] := Lookup(t, k, acts[i])]
  {
    assert acts[..i + 1][..i] == acts[..i];
  }

  /** Tables that answer every read alike show the same values. */
  lemma {:induction false} ValuesAgree(t: QTable, t': QTable, k: Key, acts: seq<Action>)
    requires Agree(t, t')
    ensures ValuesOf(t, k, acts) == ValuesOf(t', k, acts)
    decreases |acts|
  {
    if acts != [] {
      ValuesAgree(t, t', k, acts[..|acts| - 1]);
    }
  }

  /** The values shown to the observer: those of the state's valid actions. */
  function QValues(env: Environment, t: QTable, s: State): map<Action, real>
  {
    ValuesOf(t, StateKey(s), ValidActions(env, s))
  }

  /** What the observer is told after a step. */
  datatype Report = Report(
    episode: int,
    reward: real,
    epsilon: real,
    position: Position,
    fuel: real,
    qValues: map<Action, real>)

  /** One step of a training episode. */
  datatype StepOut = StepOut(action: Action, next: State, reward: real, table: QTable, cursor: nat)

  /** Select, execute, update the table, then (with an observer) read the
      next state's valid actions. */
  function TrainStep(env: Environment, p: Params, observed: bool, t: QTable, s: State,
                     rand: nat -> Draw, cursor: nat): (o: StepOut)
    ensures o.action in Choices(env, s)
    ensures o.next == Next(env, s, o.action) && o.reward == Reward(env, s, o.action)
  {
    var c := Select(env, p.epsilon, t, s, rand, cursor);
    var next := Next(env, s, c.action);
    var reward := Reward(env, s, c.action);
    var updated := UpdateTable(env, p.learningRate, p.discountFactor, c.table, s, c.action, reward, next);
    var shown := if observed then TouchAll(updated, StateKey(next), ValidActions(env, next)) else updated;
    StepOut(c.action, next, reward, shown, c.cursor)
  }

  /** With learning rate 0 a step changes no value: its reads only add
      zero entries and its write stores the old value. */
  lemma {:induction false} TrainStepKeepsValues(env: Environment, p: Params, observed: bool, t: QTable, s: State,
                             rand: nat -> Draw, cursor: nat)
    requires p.learningRate == 0.0
    ensures Agree(t, TrainStep(env, p, observed, t, s, rand, cursor).table)
  {
    var c := Select(env, p.epsilon, t, s, rand, cursor);
    var next := Next(env, s, c.action);
    var reward := Reward(env, s, c.action);
    var updated := UpdateTable(env, p.learningRate, p.discountFactor, c.table, s, c.action, reward, next);
    ExtendsAgree(t, c.table);
    ExtendsAgree(updated, TouchAll(updated, StateKey(next), ValidActions(env, next)));
    UpdateTableZeroRate(env, p.learningRate, p.discountFactor, c.table, s, c.action, reward, next);
  }

  /** The step `o` from `s` takes an action the agent could choose there,
      reaches the state that action leads to and earns its reward. */
  predicate Follows(env: Environment, s: State, o: StepOut)
  {
    && o.action in Choices(env, s)
    && o.next == Next(env, s, o.action)
    && o.reward == Reward(env, s, o.action)
  }

  /** A step as a function of the table, the state and the draw cursor it
      is taken from. */
  type Stepper = (QTable, State, nat) -> StepOut

  /** The agent's training step. */
  function AgentStep(env: Environment, p: Params, observed: bool, rand: nat -> Draw): Stepper
  {
    (t: QTable, s: State, c: nat) => TrainStep(env, p, observed, t, s, rand, c)
  }

  /** The steps `step` takes from table `t`, state `s` and cursor `cursor`
      with at most `n` steps left: it stops after a step that reaches a
      terminal state. */
  function StepsFrom(env: Environment, step: Stepper, t: QTable, s: State, cursor: nat, n: nat): seq<StepOut>
    decreases n
  {
    if n == 0 then []
    else
      var o := step(t, s, cursor);
      [o] + (if Terminal(env, o.next) then [] else StepsFrom(env, step, o.table, o.next, o.cursor, n - 1))
  }

  /** The steps of a training episode from state `s` with at most `n` steps left. */
  function Rollout(env: Environment, p: Params, observed: bool, rand: nat -> Draw,
                   t: QTable, s: State, cursor: nat, n: nat): seq<StepOut>
  {
    StepsFrom(env, AgentStep(env, p, observed, rand), t, s, cursor, n)
  }

  /** The states reached, one per step. */
  function Reached(r: seq<StepOut>): (states: seq<State>)
    ensures |states| == |r| && forall i :: 0 <= i < |r| ==> states[i] == r[i].next
  {
    seq(|r|, i requires 0 <= i < |r| => r[i].next)
  }

  /** The actions taken, one per step. */
  function Taken(r: seq<StepOut>): (actions: seq<Action>)
    ensures |actions| == |r| && forall i :: 0 <= i < |r| ==> actions[i] == r[i].action
  {
    seq(|r|, i requires 0 <= i < |r| => r[i].action)
  }

  /** The reward accumulated over the steps, added in order. */
  function Gain(r: seq<StepOut>): real
    decreases |r|
  {
    if r == [] then 0.0 else r[0].reward + Gain(r[1..])
  }

  /** The table after the steps: that of the last one, or `t` if none. */
  function TableAfter(t: QTable, r: seq<StepOut>): QTable
  {
    if r == [] then t else r[|r| - 1].table
  }

  /** The next unused draw after the steps. */
  function CursorAfter(cursor: nat, r: seq<StepOut>): nat
  {
    if r == [] then cursor else r[|r| - 1].cursor
  }

  /** What is told after a step, given the reward accumulated up to and
      including it. */
  type Reporter = (real, StepOut) -> seq<Report>

  /** What `tell` says along the steps, in order; `total` is the reward
      accumulated before them. */
  function Told(tell: Reporter, total: real, r: seq<StepOut>): seq<Report>
    decreases |r|
  {
    if r == [] then []
    else
      var total' := total + r[0].reward;
      tell(total', r[0]) + Told(tell, total', r[1..])
  }

  /** The observer's reports along the steps of episode `episode`; `total`
      is the reward accumulated before them. */
  function ReportsAlong(env: Environment, p: Params, observed: bool, episode: int, total: real,
                        r: seq<StepOut>): seq<Report>
  {
    Told((total: real, o: StepOut) => ReportOf(env, p, observed, episode, total, o), total, r)
  }

  /** The report after one step, if there is an observer; `total` includes
      that step's reward. */
  function ReportOf(env: Environment, p: Params, observed: bool, episode: int, total: real, o: StepOut): seq<Report>
  {
    if observed
    then [Report(episode, total, p.epsilon, o.next.position, o.next.fuel, QValues(env, o.table, o.next))]
    else []
  }

  /** Helper: the gain of one more step. */
  lemma {:induction false} GainSnoc(r: seq<StepOut>, o: StepOut)
    ensures Gain(r + [o]) == Gain(r) + o.reward
    decreases |r|
  {
    if r != [] {
      assert (r + [o])[1..] == r[1..] + [o];
      GainSnoc(r[1..], o);
    }
  }

  /** Helper: what is told along one more step; the last report is given
      the total so far plus that step's reward. */
  lemma {:induction false} ToldSnoc(tell: Reporter, total: real, r: seq<StepOut>, o: StepOut)
    ensures Told(tell, total, r + [o]) == Told(tell, total, r) + tell(total + Gain(r) + o.reward, o)
    decreases |r|
  {
    if r != [] {
      assert (r + [o])[1..] == r[1..] + [o];
      ToldSnoc(tell, total + r[0].reward, r[1..], o);
    }
  }

  /** Helper: the reports of one more step; its report carries the total
      so far plus that step's reward. */
  lemma {:induction false} ReportsSnoc(env: Environment, p: Params, observed: bool, episode: int, total: real,
                                       r: seq<StepOut>, o: StepOut)
    ensures ReportsAlong(env, p, observed, episode, total, r + [o]) ==
            ReportsAlong(env, p, observed, episode, total, r) + ReportOf(env, p, observed, episode, total + Gain(r) + o.reward, o)
  {
    ToldSnoc((total: real, o: StepOut) => ReportOf(env, p, observed, episode, total, o), total, r, o);
  }

  /** Each step follows the dynamics from the state before it. */
  ghost predicate Chained(env: Environment, s: State, r: seq<StepOut>)
    decreases |r|
  {
    r == [] || (Follows(env, s, r[0]) && Chained(env, r[0].next, r[1..]))
  }

  /** Helper: one unfolding of the steps with `m + 1` steps left. */
  lemma {:induction false} StepsStep(env: Environment, step: Stepper, t: QTable, s: State, cursor: nat, n: nat, m: nat, o: StepOut)
    requires n == m + 1 && o == step(t, s, cursor)
    ensures StepsFrom(env, step, t, s, cursor, n) ==
            [o] + (if Terminal(env, o.next) then [] else StepsFrom(env, step, o.table, o.next, o.cursor, m))
  {
  }

  /** The table, the state and the cursor before step `i` of the steps `r`
      that start from table `t`, state `s` and cursor `c`. */
  function TableAt(t: QTable, r: seq<StepOut>, i: nat): QTable
    requires i <= |r|
  {
    if i == 0 then t else r[i - 1].table
  }

  function StateAt(s: State, r: seq<StepOut>, i: nat): State
    requires i <= |r|
  {
    if i == 0 then s else r[i - 1].next
  }

  function CursorAt(c: nat, r: seq<StepOut>, i: nat): nat
    requires i <= |r|
  {
    if i == 0 then c else r[i - 1].cursor
  }

  /** Step `i` of the steps is the one taken from where the steps before it
      left the table, the state and the cursor. */
  lemma {:induction false} StepsAt(env: Environment, step: Stepper, t: QTable, s: State, cursor: nat, n: nat, i: nat)
    requires i < |StepsFrom(env, step, t, s, cursor, n)|
    ensures var r := StepsFrom(env, step, t, s, cursor, n);
            r[i] == step(TableAt(t, r, i), StateAt(s, r, i), CursorAt(cursor, r, i))
    decreases n
  {
    var m: nat := n - 1;
    var o := step(t, s, cursor);
    StepsStep(env, step, t, s, cursor, n, m, o);
    if i > 0 {
      var rest := StepsFrom(env, step, o.table, o.next, o.cursor, m);
      StepsAt(env, step, o.table, o.next, o.cursor, m, i - 1);
      ShiftAt(t, s, cursor, o, rest, i);
    }
  }

  /** Step `i` of an episode is the training step taken from where the
      steps before it left the table, the state and the cursor. */
  lemma {:induction false} RolloutAt(env: Environment, p: Params, observed: bool, rand: nat -> Draw, t: QTable, s: State, cursor: nat, n: nat, i: nat)
    requires i < |Rollout(env, p, observed, rand, t, s, cursor, n)|
    ensures var r := Rollout(env, p, observed, rand, t, s, cursor, n);
            r[i] == TrainStep(env, p, observed, TableAt(t, r, i), StateAt(s, r, i), rand, CursorAt(cursor, r, i))
  {
    StepsAt(env, AgentStep(env, p, observed, rand), t, s, cursor, n, i);
  }

  /** Helper: where the steps `[o] + rest` stand before step `i` is where
      `rest` stands before step `i - 1`, starting after `o`. */
  lemma {:induction false} ShiftAt(t: QTable, s: State, c: nat, o: StepOut, rest: seq<StepOut>, i: nat)
    requires 0 < i <= |rest|
    ensures var r := [o] + rest;
            && r[i] == rest[i - 1]
            && TableAt(t, r, i) == TableAt(o.table, rest, i - 1)
            && StateAt(s, r, i) == StateAt(o.next, rest, i - 1)
            && CursorAt(c, r, i) == CursorAt(o.cursor, rest, i - 1)
  {
  }

  /** Every step `step` takes follows the dynamics from the state it is
      taken from. */
  ghost predicate StepsFollow(env: Environment, step: Stepper)
  {
    forall t: QTable, s: State, c: nat :: Follows(env, s, step(t, s, c))
  }

  /** The steps of a stepper that follows the dynamics are a chain from
      their first state. */
  lemma {:induction false} StepsChained(env: Environment, step: Stepper, t: QTable, s: State, cursor: nat, n: nat)
    requires StepsFollow(env, step)
    ensures Chained(env, s, StepsFrom(env, step, t, s, cursor, n))
    decreases n
  {
    if n > 0 {
      var m: nat := n - 1;
      var o := step(t, s, cursor);
      StepsStep(env, step, t, s, cursor, n, m, o);
      var rest := if Terminal(env, o.next) then [] else StepsFrom(env, step, o.table, o.next, o.cursor, m);
      if !Terminal(env, o.next) {
        StepsChained(env, step, o.table, o.next, o.cursor, m);
      }
      assert ([o] + rest)[1..] == rest;
    }
  }

  /** An episode is a chain of steps from its first state. */
  lemma {:induction false} RolloutChained(env: Environment, p: Params, observed: bool, rand: nat -> Draw, t: QTable, s: State, cursor: nat, n: nat)
    ensures Chained(env, s, Rollout(env, p, observed, rand, t, s, cursor, n))
  {
    var step := AgentStep(env, p, observed, rand);
    forall t': QTable, s': State, c: nat
      ensures Follows(env, s', step(t', s', c))
    {
      var o := TrainStep(env, p, observed, t', s', rand, c);
    }
    StepsChained(env, step, t, s, cursor, n);
  }

  /** At most `n` steps, none continuing past a terminal state, and fewer
      than `n` only when the last step reached a terminal state. */
  ghost predicate StopsWithin(env: Environment, r: seq<StepOut>, n: nat)
  {
    && |r| <= n
    && (forall i :: 0 <= i < |r| - 1 ==> !Terminal(env, r[i].next))
    && (|r| < n ==> r != [] && Terminal(env, r[|r| - 1].next))
  }

  /** The steps number at most `n`, stop early only on a terminal state,
      and never continue past one. */
  lemma {:induction false} StepsStop(env: Environment, step: Stepper, t: QTable, s: State, cursor: nat, n: nat)
    ensures StopsWithin(env, StepsFrom(env, step, t, s, cursor, n), n)
    decreases n
  {
    if n > 0 {
      var m: nat := n - 1;
      var o := step(t, s, cursor);
      StepsStep(env, step, t, s, cursor, n, m, o);
      if !Terminal(env, o.next) {
        var rest := StepsFrom(env, step, o.table, o.next, o.cursor, m);
        StepsStop(env, step, o.table, o.next, o.cursor, m);
        StopsCons(env, o, rest, m);
      }
    }
  }

  /** An episode takes at most `n` steps, stops early only on a terminal
      state, and never continues past one. */
  lemma {:induction false} RolloutStops(env: Environment, p: Params, observed: bool, rand: nat -> Draw, t: QTable, s: State, cursor: nat, n: nat)
    ensures StopsWithin(env, Rollout(env, p, observed, rand, t, s, cursor, n), n)
  {
    StepsStop(env, AgentStep(env, p, observed, rand), t, s, cursor, n);
  }

  /** Helper: a non-terminal step before steps that stop within `m` stops
      within `m + 1`. */
  lemma {:induction false} StopsCons(env: Environment, o: StepOut, rest: seq<StepOut>, m: nat)
    requires !Terminal(env, o.next) && StopsWithin(env, rest, m)
    ensures StopsWithin(env, [o] + rest, m + 1)
  {
    var r := [o] + rest;
    forall i | 0 < i < |r| - 1
      ensures !Terminal(env, r[i].next)
    {
      assert r[i] == rest[i - 1];
    }
    if rest != [] {
      assert r[|r| - 1] == rest[|rest| - 1];
    }
  }

  /** Every step `step` takes keeps every value of the table it is taken from. */
  ghost predicate StepKeepsValues(step: Stepper)
  {
    forall t: QTable, s: State, c: nat :: Agree(t, step(t, s, c).table)
  }

  /** Steps that each keep every value keep every value. */
  lemma {:induction false} StepsKeepValues(env: Environment, step: Stepper, t: QTable, s: State, cursor: nat, n: nat)
    requires StepKeepsValues(step)
    ensures Agree(t, TableAfter(t, StepsFrom(env, step, t, s, cursor, n)))
    decreases n
  {
    if n > 0 {
      var m: nat := n - 1;
      var o := step(t, s, cursor);
      StepsStep(env, step, t, s, cursor, n, m, o);
      var rest := if Terminal(env, o.next) then [] else StepsFrom(env, step, o.table, o.next, o.cursor, m);
      if !Terminal(env, o.next) {
        StepsKeepValues(env, step, o.table, o.next, o.cursor, m);
        AgreeTrans(t, o.table, TableAfter(o.table, rest));
      }
      AfterCons(t, cursor, o, rest);
    }
  }

  /** With learning rate 0 an episode changes no value. */
  lemma {:induction false} RolloutKeepsValues(env: Environment, p: Params, observed: bool, rand: nat -> Draw, t: QTable, s: State, cursor: nat, n: nat)
    requires p.learningRate == 0.0
    ensures Agree(t, TableAfter(t, Rollout(env, p, observed, rand, t, s, cursor, n)))
  {
    var step := AgentStep(env, p, observed, rand);
    forall t': QTable, s': State, c: nat
      ensures Agree(t', step(t', s', c).table)
    {
      TrainStepKeepsValues(env, p, observed, t', s', rand, c);
    }
    StepsKeepValues(env, step, t, s, cursor, n);
  }

  /** Helper: the table and cursor after a step followed by more steps. */
  lemma {:induction false} AfterCons(t: QTable, cursor: nat, o: StepOut, rest: seq<StepOut>)
    ensures TableAfter(t, [o] + rest) == TableAfter(o.table, rest)
    ensures CursorAfter(cursor, [o] + rest) == CursorAfter(o.cursor, rest)
  {
    if rest != [] {
      assert ([o] + rest)[|rest|] == rest[|rest| - 1];
    }
  }

  /** A chain of steps is a trace of the episode record. */
  lemma {:induction false} ChainedSteps(env: Environment, s: State, r: seq<StepOut>)
    requires Chained(env, s, r)
    ensures Steps(env, [s] + Reached(r), Taken(r))
    decreases |r|
  {
    if r != [] {
      var rest := r[1..];
      ChainedSteps(env, r[0].next, rest);
      var states, actions := [s] + Reached(r), Taken(r);
      forall i | 0 < i < |actions|
        ensures actions[i] in Choices(env, states[i]) && states[i + 1] == Next(env, states[i], actions[i])
      {
        assert actions[i] == Taken(rest)[i - 1];
        assert states[i] == ([r[0].next] + Reached(rest))[i - 1];
        assert states[i + 1] == ([r[0].next] + Reached(rest))[i];
      }
    }
  }

  /** What a chain of steps gains is the sum of the rewards of its trace. */
  lemma {:induction false} ChainedGain(env: Environment, s: State, r: seq<StepOut>)
    requires Chained(env, s, r)
    ensures Gain(r) == Returns(env, [s] + Reached(r), Taken(r))
    decreases |r|
  {
    if r != [] {
      var rest := r[1..];
      ChainedGain(env, r[0].next, rest);
      var states, actions := [s] + Reached(r), Taken(r);
      assert states[1..] == [r[0].next] + Reached(rest);
      assert actions[1..] == Taken(rest);
    }
  }

  /** The steps of an episode the agent runs: from the start with a full
      tank, with the step cap. */
  function EpisodeRun(env: Environment, p: Params, observed: bool, t: QTable,
                      rand: nat -> Draw, cursor: nat): seq<StepOut>
  {
    Rollout(env, p, observed, rand, t, Initial(env), cursor, MaxSteps(env))
  }

  /** The record of an episode given its steps. */
  function EpisodeOf(env: Environment, r: seq<StepOut>): Episode
  {
    Episode([Initial(env)] + Reached(r), Taken(r), Gain(r))
  }

  /** Every episode the agent runs is well formed. */
  lemma {:induction false} EpisodeRunWellFormed(env: Environment, p: Params, observed: bool, t: QTable,
                             rand: nat -> Draw, cursor: nat)
    ensures WellFormed(env, EpisodeOf(env, EpisodeRun(env, p, observed, t, rand, cursor)))
  {
    var s := Initial(env);
    var n := MaxSteps(env);
    RolloutChained(env, p, observed, rand, t, s, cursor, n);
    RolloutStops(env, p, observed, rand, t, s, cursor, n);
    ChainWellFormed(env, Rollout(env, p, observed, rand, t, s, cursor, n));
  }

  /** Helper: a chain from the initial state that stops within the step cap
      is a well-formed episode. */
  lemma {:induction false} ChainWellFormed(env: Environment, r: seq<StepOut>)
    requires Chained(env, Initial(env), r) && StopsWithin(env, r, MaxSteps(env))
    ensures WellFormed(env, EpisodeOf(env, r))
  {
    ChainedSteps(env, Initial(env), r);
    ChainedGain(env, Initial(env), r);
    var states := [Initial(env)] + Reached(r);
    forall i | 1 <= i < |states| - 1
      ensures !Terminal(env, states[i])
    {
      assert states[i] == r[i - 1].next;
    }
    if r != [] {
      assert states[|states| - 1] == r[|r| - 1].next;
    }
  }

  /** Helper: concatenation is associative. */
  lemma {:induction false} AppendAssoc<T>(a: seq<T>, b: seq<T>, c: seq<T>)
    ensures (a + b) + c == a + (b + c)
  {
  }

  /** Helper: one more step adds its cell to the trail. */
  lemma {:induction false} TrailSnoc(env: Environment, r: seq<StepOut>, o: StepOut)
    ensures Positions([Initial(env)] + Reached(r + [o])) == Positions([Initial(env)] + Reached(r)) + [o.next.position]
  {
    assert [Initial(env)] + Reached(r + [o]) == ([Initial(env)] + Reached(r)) + [o.next];
    PositionsSnoc([Initial(env)] + Reached(r), o.next);
  }

  /** Where a running episode stands: the table, the state and the draw
      cursor its steps left, the trail of cells from the start, the reward
      accumulated and the reports told. */
  datatype Standing = Standing(
    table: QTable,
    state: State,
    cursor: nat,
    path: seq<Position>,
    total: real,
    told: seq<Report>)

  /** Where an episode stands after one more step `o`. */
  function Advance(env: Environment, p: Params, observed: bool, episode: int, st: Standing, o: StepOut): Standing
  {
    Standing(o.table, o.next, o.cursor, st.path + [o.next.position], st.total + o.reward,
             st.told + ReportOf(env, p, observed, episode, st.total + o.reward, o))
  }

  /** Where an episode of steps `r`, begun with table `t0` and cursor `c0`,
      stands after its first `k` steps. */
  function StandAt(env: Environment, p: Params, observed: bool, episode: int, t0: QTable, c0: nat,
                   r: seq<StepOut>, k: nat): Standing
    requires k <= |r|
  {
    if k == 0 then Standing(t0, Initial(env), c0, [env.start], 0.0, [])
    else Advance(env, p, observed, episode, StandAt(env, p, observed, episode, t0, c0, r, k - 1), r[k - 1])
  }

  /** The table, the state and the cursor an episode stands at after `k`
      steps are those the `k`-th step left. */
  lemma {:induction false} StandsAfter(env: Environment, p: Params, observed: bool, episode: int, t0: QTable, c0: nat,
                    r: seq<StepOut>, k: nat)
    requires k <= |r|
    ensures var st := StandAt(env, p, observed, episode, t0, c0, r, k);
            st.table == TableAt(t0, r, k) && st.state == StateAt(Initial(env), r, k) && st.cursor == CursorAt(c0, r, k)
  {
  }

  /** Helper: where an episode stands after one more step. */
  lemma {:induction false} StandAtNext(env: Environment, p: Params, observed: bool, episode: int, t0: QTable, c0: nat,
                    r: seq<StepOut>, k: nat)
    requires k < |r|
    ensures StandAt(env, p, observed, episode, t0, c0, r, k + 1) ==
            Advance(env, p, observed, episode, StandAt(env, p, observed, episode, t0, c0, r, k), r[k])
  {
  }

  /** Helper: the fields of where an episode stands after step `o`. */
  lemma {:induction false} Advanced(env: Environment, p: Params, observed: bool, episode: int, st: Standing, o: StepOut,
                 t: QTable, path: seq<Position>, total: real, told: seq<Report>)
    requires t == o.table && path == st.path + [o.next.position] && total == st.total + o.reward
    requires told == st.told + ReportOf(env, p, observed, episode, total, o)
    ensures Standing(t, o.next, o.cursor, path, total, told) == Advance(env, p, observed, episode, st, o)
  {
  }

  /** Helper: the trail after `k` steps is that of the prefix `r[..k]`. */
  lemma {:induction false} StandAtPath(env: Environment, p: Params, observed: bool, episode: int, t0: QTable, c0: nat,
                                       r: seq<StepOut>, k: nat)
    requires k <= |r|
    ensures StandAt(env, p, observed, episode, t0, c0, r, k).path == Positions([Initial(env)] + Reached(r[..k]))
  {
    if k == 0 {
      assert r[..0] == [] && [Initial(env)] + Reached([]) == [Initial(env)];
    } else {
      StandAtPath(env, p, observed, episode, t0, c0, r, k - 1);
      assert r[..k] == r[..k - 1] + [r[k - 1]];
      TrailSnoc(env, r[..k - 1], r[k - 1]);
    }
  }

  /** Helper: the reward after `k` steps is that of the prefix `r[..k]`. */
  lemma {:induction false} StandAtTotal(env: Environment, p: Params, observed: bool, episode: int, t0: QTable, c0: nat,
                                        r: seq<StepOut>, k: nat)
    requires k <= |r|
    ensures StandAt(env, p, observed, episode, t0, c0, r, k).total == Gain(r[..k])
  {
    if k == 0 {
      assert r[..0] == [];
    } else {
      StandAtTotal(env, p, observed, episode, t0, c0, r, k - 1);
      assert r[..k] == r[..k - 1] + [r[k - 1]];
      GainSnoc(r[..k - 1], r[k - 1]);
    }
  }

  /** Helper: the reports after `k` steps are those of the prefix `r[..k]`. */
  lemma {:induction false} StandAtTold(env: Environment, p: Params, observed: bool, episode: int, t0: QTable, c0: nat,
                                       r: seq<StepOut>, k: nat)
    requires k <= |r|
    ensures StandAt(env, p, observed, episode, t0, c0, r, k).told == ReportsAlong(env, p, observed, episode, 0.0, r[..k])
  {
    if k == 0 {
      assert r[..0] == [];
    } else {
      var pre, o := r[..k - 1], r[k - 1];
      StandAtTold(env, p, observed, episode, t0, c0, r, k - 1);
      StandAtTotal(env, p, observed, episode, t0, c0, r, k - 1);
      assert r[..k] == r[..k - 1] + [r[k - 1]];
      ReportsSnoc(env, p, observed, episode, 0.0, pre, o);
      assert 0.0 + Gain(pre) + o.reward == Gain(pre) + o.reward;
    }
  }

  /** The trail, the reward and the reports after `k` steps are those of
      the prefix `r[..k]`. */
  lemma {:induction false} StandAtPrefix(env: Environment, p: Params, observed: bool, episode: int, t0: QTable, c0: nat,
                                         r: seq<StepOut>, k: nat)
    requires k <= |r|
    ensures var st := StandAt(env, p, observed, episode, t0, c0, r, k);
            && st.path == Positions([Initial(env)] + Reached(r[..k]))
            && st.total == Gain(r[..k])
            && st.told == ReportsAlong(env, p, observed, episode, 0.0, r[..k])
  {
    StandAtPath(env, p, observed, episode, t0, c0, r, k);
    StandAtTotal(env, p, observed, episode, t0, c0, r, k);
    StandAtTold(env, p, observed, episode, t0, c0, r, k);
  }

  /** An episode that has not stopped before step `k < n` has a step `k`,
      and it is the step taken from where the steps before it left off. */
  lemma {:induction false} EpisodeNextAt(env: Environment, p: Params, observed: bool, rand: nat -> Draw, t0: QTable, c0: nat, n: nat, r: seq<StepOut>, k: nat)
    requires r == Rollout(env, p, observed, rand, t0, Initial(env), c0, n)
    requires k <= |r| && k < n
    requires k > 0 ==> !Terminal(env, StateAt(Initial(env), r, k))
    ensures k < |r|
    ensures r[k] == TrainStep(env, p, observed, TableAt(t0, r, k), StateAt(Initial(env), r, k), rand, CursorAt(c0, r, k))
  {
    StepsNextAt(env, AgentStep(env, p, observed, rand), t0, c0, n, r, k);
  }

  /** Helper: `EpisodeNextAt` for any stepping function. */
  lemma {:induction false} StepsNextAt(env: Environment, step: Stepper, t0: QTable, c0: nat, n: nat, r: seq<StepOut>, k: nat)
    requires r == StepsFrom(env, step, t0, Initial(env), c0, n)
    requires k <= |r| && k < n
    requires k > 0 ==> !Terminal(env, StateAt(Initial(env), r, k))
    ensures k < |r|
    ensures r[k] == step(TableAt(t0, r, k), StateAt(Initial(env), r, k), CursorAt(c0, r, k))
  {
    StepsStop(env, step, t0, Initial(env), c0, n);
    StepsAt(env, step, t0, Initial(env), c0, n, k);
  }

  /** An episode stands at its end after a terminal step or at the step cap. */
  lemma {:induction false} EpisodeStops(env: Environment, p: Params, observed: bool, rand: nat -> Draw, t0: QTable, c0: nat, n: nat, r: seq<StepOut>, k: nat)
    requires r == Rollout(env, p, observed, rand, t0, Initial(env), c0, n)
    requires 0 < k <= |r| && (Terminal(env, r[k - 1].next) || k == n)
    ensures k == |r|
  {
    RolloutStops(env, p, observed, rand, t0, Initial(env), c0, n);
  }

  /** At its end, where an episode stands is what its steps produce. */
  lemma {:induction false} EpisodeComplete(env: Environment, p: Params, observed: bool, episode: int, t0: QTable, c0: nat,
                        r: seq<StepOut>)
    ensures var st := StandAt(env, p, observed, episode, t0, c0, r, |r|);
            && st.table == TableAfter(t0, r)
            && st.cursor == CursorAfter(c0, r)
            && st.path == Positions(EpisodeOf(env, r).states)
            && st.total == Gain(r)
            && st.told == ReportsAlong(env, p, observed, episode, 0.0, r)
  {
    StandsAfter(env, p, observed, episode, t0, c0, r, |r|);
    StandAtPrefix(env, p, observed, episode, t0, c0, r, |r|);
    assert r[..|r|] == r;
  }

  /** The agent's fields `st` stand where the first `k` steps of the
      episode `r` leave them. */
  ghost predicate StoodAt(env: Environment, p: Params, observed: bool, episode: int, t0: QTable, c0: nat,
                          r: seq<StepOut>, k: nat, st: Standing)
  {
    k <= |r| && st == StandAt(env, p, observed, episode, t0, c0, r, k)
  }

  /** An episode below the step cap and not yet at a terminal state takes
      its next step from where it stands, and then stands one step further. */
  lemma {:induction false} EpisodeGoesOn(env: Environment, p: Params, observed: bool, episode: int, rand: nat -> Draw,
                                         t0: QTable, c0: nat, r: seq<StepOut>, k: nat, st: Standing)
    requires r == EpisodeRun(env, p, observed, t0, rand, c0) && k < MaxSteps(env)
    requires StoodAt(env, p, observed, episode, t0, c0, r, k, st) && (k > 0 ==> !Terminal(env, st.state))
    ensures k < |r| && r[k] == TrainStep(env, p, observed, st.table, st.state, rand, st.cursor)
    ensures StoodAt(env, p, observed, episode, t0, c0, r, k + 1, Advance(env, p, observed, episode, st, r[k]))
  {
    StandsAfter(env, p, observed, episode, t0, c0, r, k);
    EpisodeNextAt(env, p, observed, rand, t0, c0, MaxSteps(env), r, k);
    StandAtNext(env, p, observed, episode, t0, c0, r, k);
  }

  /** An episode that has reached a terminal state or the step cap stands
      where all its steps leave it. */
  lemma {:induction false} EpisodeEnded(env: Environment, p: Params, observed: bool, episode: int, rand: nat -> Draw,
                                        t0: QTable, c0: nat, r: seq<StepOut>, k: nat, st: Standing)
    requires r == EpisodeRun(env, p, observed, t0, rand, c0) && StoodAt(env, p, observed, episode, t0, c0, r, k, st)
    requires k == MaxSteps(env) || (k > 0 && Terminal(env, st.state))
    ensures st.table == TableAfter(t0, r) && st.cursor == CursorAfter(c0, r)
    ensures st.path == Positions(EpisodeOf(env, r).states) && st.total == Gain(r)
    ensures st.told == ReportsAlong(env, p, observed, episode, 0.0, r)
  {
    if k > 0 {
      StandsAfter(env, p, observed, episode, t0, c0, r, k);
      EpisodeStops(env, p, observed, rand, t0, c0, MaxSteps(env), r, k);
    } else {
      RolloutStops(env, p, observed, rand, t0, Initial(env), c0, MaxSteps(env));
    }
    EpisodeComplete(env, p, observed, episode, t0, c0, r);
  }
  /** What an episode begins from: the parameters, the table and the draw
      cursor. */
  datatype Origin = Origin(params: Params, table: QTable, cursor: nat)

  /** Where the next episode begins after the steps `r` begun from `o`:
      the table and cursor they leave, and epsilon decayed once. */
  function Resumed(o: Origin, r: seq<StepOut>): Origin
  {
    Origin(o.params.(epsilon := Decayed(o.params.epsilon, o.params.epsilonDecay, o.params.minEpsilon)),
           TableAfter(o.table, r), CursorAfter(o.cursor, r))
  }

  /** Where episode `k` of `runs` begins, the first one beginning from `o0`. */
  function OriginAt(o0: Origin, runs: seq<seq<StepOut>>, k: nat): Origin
    requires k <= |runs|
  {
    if k == 0 then o0 else Resumed(OriginAt(o0, runs, k - 1), runs[k - 1])
  }

  /** Where a training session stands between two episodes: the
      parameters, the table, the draw cursor, the reports told so far and
      the best trace and reward. */
  datatype Progress = Progress(
    params: Params,
    table: QTable,
    cursor: nat,
    reports: seq<Report>,
    best: seq<Position>,
    reward: Bound)

  function OriginOf(s: Progress): Origin
  {
    Origin(s.params, s.table, s.cursor)
  }

  /** The session after the steps `r` of episode `episode` played from
      `s`: the table and cursor the steps leave, their reports appended,
      their trace kept when their reward beats the best, epsilon decayed. */
  function Settle(env: Environment, observed: bool, episode: int, s: Progress, r: seq<StepOut>): Progress
  {
    var o := Resumed(OriginOf(s), r);
    var kept := if Beats(Gain(r), s.reward) then (Positions(EpisodeOf(env, r).states), Finite(Gain(r)))
                else (s.best, s.reward);
    Progress(o.params, o.table, o.cursor, s.reports + ReportsAlong(env, s.params, observed, episode, 0.0, r),
             kept.0, kept.1)
  }

  /** Helper: the session after an episode, field by field. */
  lemma {:induction false} Settled(env: Environment, observed: bool, episode: int, s: Progress, r: seq<StepOut>, s': Progress)
    requires s'.params == s.params.(epsilon := Decayed(s.params.epsilon, s.params.epsilonDecay, s.params.minEpsilon))
    requires s'.table == TableAfter(s.table, r) && s'.cursor == CursorAfter(s.cursor, r)
    requires s'.reports == s.reports + ReportsAlong(env, s.params, observed, episode, 0.0, r)
    requires Beats(Gain(r), s.reward) ==> s'.best == Positions(EpisodeOf(env, r).states) && s'.reward == Finite(Gain(r))
    requires !Beats(Gain(r), s.reward) ==> s'.best == s.best && s'.reward == s.reward
    ensures s' == Settle(env, observed, episode, s, r)
  {
  }

  /** One episode of a session played from `s` with the agent's steps. */
  function Play(env: Environment, observed: bool, rand: nat -> Draw, episode: int, s: Progress): Progress
  {
    Settle(env, observed, episode, s, EpisodeRun(env, s.params, observed, s.table, rand, s.cursor))
  }

  /** Helper: the session after the episode `r` played from `s`, field by
      field. */
  lemma {:induction false} Played(env: Environment, observed: bool, rand: nat -> Draw, episode: int, s: Progress,
                                  r: seq<StepOut>, s': Progress)
    requires r == EpisodeRun(env, s.params, observed, s.table, rand, s.cursor)
    requires s'.table == TableAfter(s.table, r) && s'.cursor == CursorAfter(s.cursor, r)
    requires s'.reports == s.reports + ReportsAlong(env, s.params, observed, episode, 0.0, r)
    requires s'.params == s.params.(epsilon := Decayed(s.params.epsilon, s.params.epsilonDecay, s.params.minEpsilon))
    requires Beats(Gain(r), s.reward) ==> s'.best == Positions(EpisodeOf(env, r).states) && s'.reward == Finite(Gain(r))
    requires !Beats(Gain(r), s.reward) ==> s'.best == s.best && s'.reward == s.reward
    ensures s' == Play(env, observed, rand, episode, s)
  {
    Settled(env, observed, episode, s, r, s');
  }

  /** Where a session begun at `s0` stands after the first `k` episodes
      of `runs`. */
  function Standings(env: Environment, observed: bool, s0: Progress, runs: seq<seq<StepOut>>, k: nat): Progress
    requires k <= |runs|
  {
    if k == 0 then s0 else Settle(env, observed, k - 1, Standings(env, observed, s0, runs, k - 1), runs[k - 1])
  }

  /** Helper: one more episode of `runs`, when it is the one the agent
      plays from where the walk stands. */
  lemma {:induction false} StandingsNext(env: Environment, observed: bool, rand: nat -> Draw, s0: Progress,
                      runs: seq<seq<StepOut>>, k: nat, s: Progress)
    requires k < |runs| && Standings(env, observed, s0, runs, k) == s
    requires runs[k] == EpisodeRun(env, s.params, observed, s.table, rand, s.cursor)
    ensures Standings(env, observed, s0, runs, k + 1) == Play(env, observed, rand, k, s)
  {
  }

  /** Where a session stands begins each episode where `OriginAt` says. */
  lemma {:induction false} StandingsOrigin(env: Environment, observed: bool, s0: Progress,
                                           runs: seq<seq<StepOut>>, k: nat)
    requires k <= |runs|
    ensures OriginOf(Standings(env, observed, s0, runs, k)) == OriginAt(OriginOf(s0), runs, k)
    decreases k
  {
    if k > 0 {
      StandingsOrigin(env, observed, s0, runs, k - 1);
    }
  }

  /** The steps of an episode as a function of where it begins. */
  type Runner = Origin -> seq<StepOut>

  /** The agent's episodes: from the start, with the parameters, the table
      and the draw cursor they begin from. */
  function AgentRun(env: Environment, observed: bool, rand: nat -> Draw): Runner
  {
    (o: Origin) => EpisodeRun(env, o.params, observed, o.table, rand, o.cursor)
  }

  /** The steps of the first `count` episodes of a session whose first
      episode begins from `o0`: each is the one `run` plays from where the
      episodes before it left off. */
  function SessionRuns(run: Runner, o0: Origin, count: nat): (runs: seq<seq<StepOut>>)
    ensures |runs| == count
    decreases count
  {
    if count == 0 then []
    else
      var runs := SessionRuns(run, o0, count - 1);
      runs + [run(OriginAt(o0, runs, count - 1))]
  }

  /** The agent's steps in the first `count` episodes of a session begun at `s0`. */
  function AgentRuns(env: Environment, observed: bool, rand: nat -> Draw, s0: Progress, count: nat): seq<seq<StepOut>>
  {
    SessionRuns(AgentRun(env, observed, rand), OriginOf(s0), count)
  }

  /** Where a session of the agent begun at `s0` stands after its first
      `count` episodes. */
  function SessionProgress(env: Environment, observed: bool, rand: nat -> Draw, s0: Progress, count: nat): Progress
  {
    Standings(env, observed, s0, AgentRuns(env, observed, rand, s0, count), count)
  }

  /** Where episode `k` begins depends on the episodes before it only. */
  lemma {:induction false} OriginAtPrefix(o0: Origin, runs: seq<seq<StepOut>>, runs': seq<seq<StepOut>>, k: nat)
    requires k <= |runs| && k <= |runs'| && runs[..k] == runs'[..k]
    ensures OriginAt(o0, runs, k) == OriginAt(o0, runs', k)
    decreases k
  {
    if k > 0 {
      assert runs[..k - 1] == runs[..k][..k - 1] && runs'[..k - 1] == runs'[..k][..k - 1];
      assert runs[k - 1] == runs[..k][k - 1] && runs'[k - 1] == runs'[..k][k - 1];
      OriginAtPrefix(o0, runs, runs', k - 1);
    }
  }

  /** Where a session stands after `k` episodes depends on those `k` only. */
  lemma {:induction false} StandingsPrefix(env: Environment, observed: bool, s0: Progress,
                                           runs: seq<seq<StepOut>>, runs': seq<seq<StepOut>>, k: nat)
    requires k <= |runs| && k <= |runs'| && runs[..k] == runs'[..k]
    ensures Standings(env, observed, s0, runs, k) == Standings(env, observed, s0, runs', k)
    decreases k
  {
    if k > 0 {
      assert runs[..k - 1] == runs[..k][..k - 1] && runs'[..k - 1] == runs'[..k][..k - 1];
      assert runs[k - 1] == runs[..k][k - 1] && runs'[k - 1] == runs'[..k][k - 1];
      StandingsPrefix(env, observed, s0, runs, runs', k - 1);
    }
  }

  /** The first episodes of a longer session are those of the shorter one. */
  lemma {:induction false} SessionPrefix(run: Runner, o0: Origin, n: nat, k: nat)
    requires k <= n
    ensures SessionRuns(run, o0, n)[..k] == SessionRuns(run, o0, k)
    decreases n
  {
    var runs := SessionRuns(run, o0, n);
    if k < n {
      var prev := SessionRuns(run, o0, n - 1);
      SessionPrefix(run, o0, n - 1, k);
      assert runs == prev + [runs[n - 1]];
      assert runs[..k] == prev[..k];
    } else {
      assert runs[..n] == runs;
    }
  }

  /** Each episode of a session is the one `run` plays from where the
      episodes before it left off. */
  lemma {:induction false} SessionRunAt(run: Runner, o0: Origin, n: nat, k: nat)
    requires k < n
    ensures var runs := SessionRuns(run, o0, n);
            runs[k] == run(OriginAt(o0, runs, k))
  {
    var runs := SessionRuns(run, o0, n);
    var pre := SessionRuns(run, o0, k);
    SessionPrefix(run, o0, n, k + 1);
    SessionPrefix(run, o0, n, k);
    OriginAtPrefix(o0, runs, pre, k);
    assert runs[k] == runs[..k + 1][k];
  }

  /** Each episode of a session of the agent is the one it plays from where
      the session stands before it. */
  lemma {:induction false} AgentRunAt(env: Environment, observed: bool, rand: nat -> Draw, s0: Progress,
                                      runs: seq<seq<StepOut>>, k: nat)
    requires runs == AgentRuns(env, observed, rand, s0, |runs|) && k < |runs|
    ensures var s := Standings(env, observed, s0, runs, k);
            runs[k] == EpisodeRun(env, s.params, observed, s.table, rand, s.cursor)
  {
    SessionRunAt(AgentRun(env, observed, rand), OriginOf(s0), |runs|, k);
    StandingsOrigin(env, observed, s0, runs, k);
  }

  /** Helper: the next episode of the agent's session is the one it plays
      from where the session stands, `s`. */
  lemma {:induction false} SessionNext(env: Environment, observed: bool, rand: nat -> Draw, s0: Progress,
                                       runs: seq<seq<StepOut>>, k: nat, s: Progress)
    requires runs == AgentRuns(env, observed, rand, s0, |runs|) && k < |runs|
    requires Standings(env, observed, s0, runs, k) == s
    ensures Standings(env, observed, s0, runs, k + 1) == Play(env, observed, rand, k, s)
  {
    AgentRunAt(env, observed, rand, s0, runs, k);
    StandingsNext(env, observed, rand, s0, runs, k, s);
  }

  /** A session one episode longer is the same session with one more
      episode, the one `run` plays from where the session stands. */
  lemma {:induction false} RunsStep(env: Environment, observed: bool, run: Runner, s0: Progress, k: nat)
    ensures var s := Standings(env, observed, s0, SessionRuns(run, OriginOf(s0), k), k);
            Standings(env, observed, s0, SessionRuns(run, OriginOf(s0), k + 1), k + 1) ==
            Settle(env, observed, k, s, run(OriginOf(s)))
  {
    var runs := SessionRuns(run, OriginOf(s0), k + 1);
    var pre := SessionRuns(run, OriginOf(s0), k);
    SessionPrefix(run, OriginOf(s0), k + 1, k);
    assert runs[..k] == pre[..k];
    StandingsPrefix(env, observed, s0, runs, pre, k);
    SessionRunAt(run, OriginOf(s0), k + 1, k);
    StandingsOrigin(env, observed, s0, runs, k);
  }

  /** A session of the agent one episode longer is the same session with
      one more episode played from where it stands. */
  lemma {:induction false} SessionStep(env: Environment, observed: bool, rand: nat -> Draw, s0: Progress, k: nat)
    ensures SessionProgress(env, observed, rand, s0, k + 1) ==
            Play(env, observed, rand, k, SessionProgress(env, observed, rand, s0, k))
  {
    RunsStep(env, observed, AgentRun(env, observed, rand), s0, k);
  }

  /** Between episodes epsilon follows the decay schedule; the other
      parameters never change. */
  lemma {:induction false} OriginEpsilon(o0: Origin, runs: seq<seq<StepOut>>, k: nat)
    requires k <= |runs|
    ensures OriginAt(o0, runs, k).params ==
            o0.params.(epsilon := EpsilonAfter(o0.params.epsilon, o0.params.epsilonDecay, o0.params.minEpsilon, k))
    decreases k
  {
    if k > 0 {
      OriginEpsilon(o0, runs, k - 1);
    }
  }

  /** Between episodes the learning rate never changes. */
  lemma {:induction false} OriginRate(o0: Origin, runs: seq<seq<StepOut>>, k: nat)
    requires k <= |runs|
    ensures OriginAt(o0, runs, k).params.learningRate == o0.params.learningRate
    decreases k
  {
    if k > 0 {
      OriginRate(o0, runs, k - 1);
    }
  }

  /** After a session epsilon is where the decay schedule puts it, and the
      other parameters are unchanged. */
  lemma {:induction false} SessionEpsilon(env: Environment, observed: bool, rand: nat -> Draw, s0: Progress, n: nat)
    ensures SessionProgress(env, observed, rand, s0, n).params ==
            s0.params.(epsilon := EpsilonAfter(s0.params.epsilon, s0.params.epsilonDecay, s0.params.minEpsilon, n))
  {
    var runs := AgentRuns(env, observed, rand, s0, n);
    StandingsOrigin(env, observed, s0, runs, n);
    OriginEpsilon(OriginOf(s0), runs, n);
  }

  /** The best trace and reward are the running best over the records of
      the episodes played. */
  lemma {:induction false} StandingsBest(env: Environment, observed: bool, s0: Progress,
                                         runs: seq<seq<StepOut>>, k: nat)
    requires k <= |runs|
    ensures var s := Standings(env, observed, s0, runs, k);
            (s.best, s.reward) == KeepBest(s0.best, s0.reward, Records(env, runs[..k]))
    decreases k
  {
    if k == 0 {
      assert Records(env, runs[..0]) == [];
    } else {
      StandingsBest(env, observed, s0, runs, k - 1);
      assert runs[..k] == runs[..k - 1] + [runs[k - 1]];
      RecordsSnoc(env, runs[..k - 1], runs[k - 1]);
      KeepBestSnoc(s0.best, s0.reward, Records(env, runs[..k - 1]), EpisodeOf(env, runs[k - 1]));
    }
  }

  /** Every episode of a session of the agent is well formed. */
  lemma {:induction false} SessionWellFormed(env: Environment, observed: bool, rand: nat -> Draw, s0: Progress, n: nat)
    ensures var runs := AgentRuns(env, observed, rand, s0, n);
            forall i :: 0 <= i < n ==> WellFormed(env, EpisodeOf(env, runs[i]))
  {
    var run := AgentRun(env, observed, rand);
    var runs := AgentRuns(env, observed, rand, s0, n);
    forall i | 0 <= i < n
      ensures WellFormed(env, EpisodeOf(env, runs[i]))
    {
      SessionRunAt(run, OriginOf(s0), n, i);
      var o := OriginAt(OriginOf(s0), runs, i);
      EpisodeRunWellFormed(env, o.params, observed, o.table, rand, o.cursor);
    }
  }

  /** After a session the kept reward is the running best over its episodes,
      at least each episode's total; after one episode or more the kept
      trace starts at the start cell when the one kept before did. */
  lemma {:induction false} SessionBest(env: Environment, observed: bool, rand: nat -> Draw, s0: Progress, n: nat)
    requires s0.reward.NegInfinity? <==> s0.best == []
    requires s0.best != [] ==> s0.best[0] == env.start
    ensures var s := SessionProgress(env, observed, rand, s0, n);
            var eps := Records(env, AgentRuns(env, observed, rand, s0, n));
            && (s.best, s.reward) == KeepBest(s0.best, s0.reward, eps)
            && (forall i :: 0 <= i < n ==> !Beats(eps[i].total, s.reward))
            && (n > 0 ==> s.best != [] && s.best[0] == env.start)
  {
    SessionWellFormed(env, observed, rand, s0, n);
    RunsBest(env, observed, s0, AgentRuns(env, observed, rand, s0, n));
  }

  /** Helper: `SessionBest` for any well-formed episodes. */
  lemma {:induction false} RunsBest(env: Environment, observed: bool, s0: Progress, runs: seq<seq<StepOut>>)
    requires s0.reward.NegInfinity? <==> s0.best == []
    requires s0.best != [] ==> s0.best[0] == env.start
    requires forall i :: 0 <= i < |runs| ==> WellFormed(env, EpisodeOf(env, runs[i]))
    ensures var s := Standings(env, observed, s0, runs, |runs|);
            var eps := Records(env, runs);
            && (s.best, s.reward) == KeepBest(s0.best, s0.reward, eps)
            && (forall i :: 0 <= i < |runs| ==> !Beats(eps[i].total, s.reward))
            && (|runs| > 0 ==> s.best != [] && s.best[0] == env.start)
  {
    var eps := Records(env, runs);
    StandingsKept(env, observed, s0, runs);
    RecordsWellFormed(env, runs);
    KeepBestIsMaximum(s0.best, s0.reward, eps);
    KeepBestStartsAtStart(env, s0.best, s0.reward, eps);
  }

  /** Helper: at the end of a session the best trace and reward are those kept from its records. */
  lemma {:induction false} StandingsKept(env: Environment, observed: bool, s0: Progress, runs: seq<seq<StepOut>>)
    ensures var s := Standings(env, observed, s0, runs, |runs|);
            (s.best, s.reward) == KeepBest(s0.best, s0.reward, Records(env, runs))
  {
    StandingsBest(env, observed, s0, runs, |runs|);
    assert runs[..|runs|] == runs;
  }

  /** Helper: the records of well-formed episodes are well formed. */
  lemma {:induction false} RecordsWellFormed(env: Environment, runs: seq<seq<StepOut>>)
    requires forall i :: 0 <= i < |runs| ==> WellFormed(env, EpisodeOf(env, runs[i]))
    ensures var eps := Records(env, runs);
            forall i :: 0 <= i < |eps| ==> WellFormed(env, eps[i])
  {
  }

  /** `run` changes no value of the table it begins from when the learning
      rate is 0. */
  ghost predicate KeepsValues(run: Runner)
  {
    forall o: Origin :: o.params.learningRate == 0.0 ==> Agree(o.table, TableAfter(o.table, run(o)))
  }

  /** With learning rate 0 an episode of the agent changes no value. */
  lemma {:induction false} AgentKeepsValues(env: Environment, observed: bool, rand: nat -> Draw)
    ensures KeepsValues(AgentRun(env, observed, rand))
  {
    forall o: Origin | o.params.learningRate == 0.0
      ensures Agree(o.table, TableAfter(o.table, AgentRun(env, observed, rand)(o)))
    {
      RolloutKeepsValues(env, o.params, observed, rand, o.table, Initial(env), o.cursor, MaxSteps(env));
    }
  }

  /** With learning rate 0 no episode of a session changes a value. */
  lemma {:induction false} OriginKeepsValues(run: Runner, o0: Origin, n: nat, k: nat)
    requires KeepsValues(run) && o0.params.learningRate == 0.0 && k <= n
    ensures Agree(o0.table, OriginAt(o0, SessionRuns(run, o0, n), k).table)
    decreases k
  {
    if k > 0 {
      var runs := SessionRuns(run, o0, n);
      var o := OriginAt(o0, runs, k - 1);
      OriginKeepsValues(run, o0, n, k - 1);
      SessionRunAt(run, o0, n, k - 1);
      OriginRate(o0, runs, k - 1);
      AgreeTrans(o0.table, o.table, OriginAt(o0, runs, k).table);
    }
  }

  /** With learning rate 0 a session of the agent changes no value. */
  lemma {:induction false} SessionKeepsValues(env: Environment, observed: bool, rand: nat -> Draw, s0: Progress, n: nat)
    requires s0.params.learningRate == 0.0
    ensures Agree(s0.table, SessionProgress(env, observed, rand, s0, n).table)
  {
    var runs := AgentRuns(env, observed, rand, s0, n);
    StandingsOrigin(env, observed, s0, runs, n);
    AgentKeepsValues(env, observed, rand);
    OriginKeepsValues(AgentRun(env, observed, rand), OriginOf(s0), n, n);
  }

  /** The trace of an episode is never empty and starts at the start cell. */
  lemma {:induction false} TraceStarts(env: Environment, r: seq<StepOut>)
    ensures var trace := Positions(EpisodeOf(env, r).states);
            |trace| >= 1 && trace[0] == env.start
  {
  }

  /** The number of episodes `train` runs: the parameter, or none when it is
      not positive. */
  function EpisodeCount(p: Params): nat
  {
    if p.episodes > 0 then p.episodes else 0
  }

  /** The records of the episodes of a session. */
  function Records(env: Environment, runs: seq<seq<StepOut>>): (eps: seq<Episode>)
    ensures |eps| == |runs| && forall i :: 0 <= i < |runs| ==> eps[i] == EpisodeOf(env, runs[i])
  {
    seq(|runs|, i requires 0 <= i < |runs| => EpisodeOf(env, runs[i]))
  }

  lemma {:induction false} RecordsSnoc(env: Environment, runs: seq<seq<StepOut>>, r: seq<StepOut>)
    ensures Records(env, runs + [r]) == Records(env, runs) + [EpisodeOf(env, r)]
  {
  }
}
