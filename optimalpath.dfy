/** The greedy replay behind the agent's optimal path: from the start with a
    full tank, take at each step the earliest valid action of highest value,
    with no exploration. The walk is first described for any way of deciding
    a step, then for the agent's greedy one. */
module OptimalPath {
  import opened Grid
  import opened Dynamics
  import opened QStore
  import opened Training

  datatype Option<T> = None | Some(value: T)

  /** A decided step: the action, the state it leads to, and the table after
      the reads made to decide it. */
  datatype Move = Move(action: Action, next: State, table: QTable)

  /** A way of deciding a step from the table and the state; `None` ends the
      walk. */
  type Mover = (QTable, State) -> Option<Move>

  /** The moves of a walk of at most `n` steps from `s`: it ends when no
      step is decided, and right after the step that reaches `goal`. */
  function Walk(goal: Position, move: Mover, t: QTable, s: State, n: nat): seq<Move>
    decreases n
  {
    if n == 0 then []
    else
      match move(t, s)
      case None => []
      case Some(mv) =>
        [mv] + (if mv.next.position == goal then [] else Walk(goal, move, mv.table, mv.next, n - 1))
  }

  /** The table before move `k` of the walk `w` begun on `t`. */
  function TableBefore(t: QTable, w: seq<Move>, k: nat): QTable
    requires k <= |w|
  {
    if k == 0 then t else w[k - 1].table
  }

  /** The state before move `k` of the walk `w` begun in `s`. */
  function StateBefore(s: State, w: seq<Move>, k: nat): State
    requires k <= |w|
  {
    if k == 0 then s else w[k - 1].next
  }

  /** The cells a walk records: the new cell of every move except a refuel. */
  function Cells(w: seq<Move>): seq<Position>
    decreases |w|
  {
    if w == [] then []
    else (if w[0].action == Refuel then [] else [w[0].next.position]) + Cells(w[1..])
  }

  /** Move `k` is the step decided on the table and in the state the moves
      before it left. Unless the goal was reached or the step cap spent, the
      walk has a move `k` exactly when a step is decided there. */
  lemma {:induction false} WalkAt(goal: Position, move: Mover, t: QTable, s: State, n: nat, k: nat)
    requires k <= |Walk(goal, move, t, s, n)| && k < n
    requires k > 0 ==> Walk(goal, move, t, s, n)[k - 1].next.position != goal
    ensures var w := Walk(goal, move, t, s, n);
            var d := move(TableBefore(t, w, k), StateBefore(s, w, k));
            && (k < |w| <==> d.Some?)
            && (k < |w| ==> w[k] == d.value)
    decreases n
  {
    var w := Walk(goal, move, t, s, n);
    if k > 0 {
      var mv := move(t, s).value;
      var rest := Walk(goal, move, mv.table, mv.next, n - 1);
      assert w == [mv] + rest;
      WalkAt(goal, move, mv.table, mv.next, n - 1, k - 1);
      assert TableBefore(t, w, k) == TableBefore(mv.table, rest, k - 1);
      assert StateBefore(s, w, k) == StateBefore(mv.next, rest, k - 1);
    }
  }

  /** A walk has at most `n` moves, and only its last move can reach the goal. */
  lemma {:induction false} WalkStopsAtGoal(goal: Position, move: Mover, t: QTable, s: State, n: nat)
    ensures var w := Walk(goal, move, t, s, n);
            && |w| <= n
            && forall i :: 0 <= i < |w| - 1 ==> w[i].next.position != goal
    decreases n
  {
    if n > 0 && move(t, s).Some? {
      var mv := move(t, s).value;
      if mv.next.position != goal {
        var rest := Walk(goal, move, mv.table, mv.next, n - 1);
        WalkStopsAtGoal(goal, move, mv.table, mv.next, n - 1);
        var w := [mv] + rest;
        forall i | 0 < i < |w| - 1
          ensures w[i].next.position != goal
        {
          assert w[i] == rest[i - 1];
        }
      }
    }
  }

  /** Every decided step only adds default entries to the table. */
  ghost predicate OnlyReads(move: Mover)
  {
    forall t, s :: move(t, s).Some? ==> Extends(t, move(t, s).value.table)
  }

  /** A walk whose steps only read only adds default entries to the table, up
      to every move. */
  lemma {:induction false} WalkExtends(goal: Position, move: Mover, t: QTable, s: State, n: nat, k: nat)
    requires OnlyReads(move) && k <= |Walk(goal, move, t, s, n)|
    ensures Extends(t, TableBefore(t, Walk(goal, move, t, s, n), k))
    decreases n
  {
    if k > 0 {
      var w := Walk(goal, move, t, s, n);
      var mv := move(t, s).value;
      if k == 1 {
        assert TableBefore(t, w, k) == mv.table;
      } else {
        var rest := Walk(goal, move, mv.table, mv.next, n - 1);
        assert w == [mv] + rest;
        WalkExtends(goal, move, mv.table, mv.next, n - 1, k - 1);
        assert TableBefore(t, w, k) == TableBefore(mv.table, rest, k - 1);
        ExtendsTransitive(t, mv.table, TableBefore(t, w, k));
      }
    }
  }

  /** A step is sound when a refuel stays in place and any other move goes
      to a free cell of the grid next to the current one. */
  ghost predicate Sound(env: Environment, s: State, mv: Move)
  {
    if mv.action == Refuel then mv.next.position == s.position
    else InGrid(env, mv.next.position) && !IsObstacle(env, mv.next.position)
         && Distance(s.position, mv.next.position) == 1
  }

  /** Every step decided in a cell of the grid is sound. */
  ghost predicate SoundMoves(env: Environment, move: Mover)
  {
    forall t: QTable, s: State :: InGrid(env, s.position) && move(t, s).Some? ==> Sound(env, s, move(t, s).value)
  }

  /** A walk from `from`: each cell is in the grid, not an obstacle, and one
      step from the one before. */
  ghost predicate IsWalk(env: Environment, from: Position, ps: seq<Position>)
    decreases |ps|
  {
    ps == [] ||
    (InGrid(env, ps[0]) && !IsObstacle(env, ps[0]) && Distance(from, ps[0]) == 1
     && IsWalk(env, ps[0], ps[1..]))
  }

  /** With sound steps from a cell of the grid, the recorded cells form a walk. */
  lemma {:induction false} WalkCellsAreWalk(env: Environment, move: Mover, t: QTable, s: State, n: nat)
    requires SoundMoves(env, move) && InGrid(env, s.position)
    ensures IsWalk(env, s.position, Cells(Walk(env.goal, move, t, s, n)))
    decreases n
  {
    if n > 0 && move(t, s).Some? {
      var w := Walk(env.goal, move, t, s, n);
      var mv := move(t, s).value;
      var rest := if mv.next.position == env.goal then [] else Walk(env.goal, move, mv.table, mv.next, n - 1);
      assert w == [mv] + rest && w[1..] == rest;
      assert Sound(env, s, mv);
      assert IsWalk(env, mv.next.position, Cells(rest)) by {
        if mv.next.position != env.goal {
          WalkCellsAreWalk(env, move, mv.table, mv.next, n - 1);
        }
      }
      assert w[0] == mv;
      if mv.action != Refuel {
        assert Cells(w) == [mv.next.position] + Cells(rest);
        WalkPrepend(env, s.position, mv.next.position, Cells(rest));
      } else {
        assert Cells(w) == Cells(rest);
      }
    }
  }

  /** Helper: a cell one step from `from`, followed by a walk from it, is a walk. */
  lemma {:induction false} WalkPrepend(env: Environment, from: Position, q: Position, rest: seq<Position>)
    requires InGrid(env, q) && !IsObstacle(env, q) && Distance(from, q) == 1
    requires IsWalk(env, q, rest)
    ensures IsWalk(env, from, [q] + rest)
  {
    assert ([q] + rest)[1..] == rest;
  }

  /** Recording the cells of two walks one after the other. */
  lemma {:induction false} CellsAppend(a: seq<Move>, b: seq<Move>)
    ensures Cells(a + b) == Cells(a) + Cells(b)
    decreases |a|
  {
    if a != [] {
      var head := if a[0].action == Refuel then [] else [a[0].next.position];
      assert (a + b)[0] == a[0] && (a + b)[1..] == a[1..] + b;
      CellsAppend(a[1..], b);
      calc {
        Cells(a + b);
        head + Cells(a[1..] + b);
        head + (Cells(a[1..]) + Cells(b));
        (head + Cells(a[1..])) + Cells(b);
        Cells(a) + Cells(b);
      }
    } else {
      assert a + b == b;
    }
  }

  /** Helper: the cells up to move `k` of `w`, and then that move's. */
  lemma {:induction false} CellsSnoc(w: seq<Move>, k: nat)
    requires k < |w|
    ensures Cells(w[..k + 1]) == Cells(w[..k]) + (if w[k].action == Refuel then [] else [w[k].next.position])
  {
    assert w[..k + 1] == w[..k] + [w[k]];
    CellsAppend(w[..k], [w[k]]);
    assert [w[k]][1..] == [];
  }

  /** Moves before the last one do not reach the goal, so no recorded cell
      but the last is the goal; a walk records at most one cell per move. */
  lemma {:induction false} CellsBeforeGoal(goal: Position, w: seq<Move>)
    requires forall i :: 0 <= i < |w| - 1 ==> w[i].next.position != goal
    ensures |Cells(w)| <= |w|
    ensures forall i :: 0 <= i < |Cells(w)| - 1 ==> Cells(w)[i] != goal
    decreases |w|
  {
    if w != [] {
      var rest := w[1..];
      forall i | 0 <= i < |rest| - 1
        ensures rest[i].next.position != goal
      {
        assert rest[i] == w[i + 1];
      }
      CellsBeforeGoal(goal, rest);
      if w[0].action != Refuel {
        var c := Cells(w);
        assert c == [w[0].next.position] + Cells(rest);
        forall i | 0 < i < |c| - 1
          ensures c[i] != goal
        {
          assert c[i] == Cells(rest)[i - 1];
        }
        if |c| > 1 {
          assert |w| > 1;
        }
      }
    }
  }

  /** The agent's way of deciding: with no valid action the replay ends;
      otherwise read every valid action and take the earliest of highest
      value. */
  function GreedyMove(env: Environment): Mover
  {
    (t: QTable, s: State) =>
      var valid := ValidActions(env, s);
      if valid == [] then None
      else
        var a := Greedy(t, StateKey(s), valid);
        Some(Move(a, Next(env, s, a), TouchAll(t, StateKey(s), valid)))
  }

  /** Helper: the greedy decision at one table and state. */
  lemma {:induction false} GreedyMoveAt(env: Environment, t: QTable, s: State)
    ensures var d := GreedyMove(env)(t, s);
            var valid := ValidActions(env, s);
            && (d.Some? <==> valid != [])
            && (d.Some? ==> d.value == Move(Greedy(t, StateKey(s), valid),
                                            Next(env, s, Greedy(t, StateKey(s), valid)),
                                            TouchAll(t, StateKey(s), valid)))
  {
  }

  /** The greedy steps only read and are sound. */
  lemma {:induction false} GreedyMoveIsSound(env: Environment)
    ensures OnlyReads(GreedyMove(env)) && SoundMoves(env, GreedyMove(env))
  {
    forall t, s | GreedyMove(env)(t, s).Some?
      ensures Extends(t, GreedyMove(env)(t, s).value.table)
    {
      GreedyMoveAt(env, t, s);
    }
    forall t: QTable, s: State | InGrid(env, s.position) && GreedyMove(env)(t, s).Some?
      ensures Sound(env, s, GreedyMove(env)(t, s).value)
    {
      GreedyMoveAt(env, t, s);
      ValidActionsAreLegal(env, s);
      var a := Greedy(t, StateKey(s), ValidActions(env, s));
      assert Legal(env, s, a);
    }
  }

  /** The replay of at most the step cap of steps from the start with a full tank. */
  function Replay(env: Environment, t: QTable): seq<Move>
  {
    Walk(env.goal, GreedyMove(env), t, Initial(env), MaxSteps(env))
  }

  /** The optimal path: the start, then the cells the replay records. */
  function GreedyPath(env: Environment, t: QTable): seq<Position>
  {
    [env.start] + Cells(Replay(env, t))
  }

  /** The table after the replay's reads. */
  function ReplayTable(env: Environment, t: QTable): QTable
  {
    TableBefore(t, Replay(env, t), |Replay(env, t)|)
  }

  /** Each move of the replay is the greedy one under the values the table
      held when the replay began: its reads create default entries only and
      so never change a decision. */
  lemma {:induction false} ReplayDecidesOnValues(env: Environment, t: QTable, k: nat)
    requires k < |Replay(env, t)|
    ensures var w := Replay(env, t);
            var s := StateBefore(Initial(env), w, k);
            var valid := ValidActions(env, s);
            && valid != []
            && w[k].action == Greedy(t, StateKey(s), valid)
            && w[k].next == Next(env, s, w[k].action)
  {
    var w := Replay(env, t);
    WalkStopsAtGoal(env.goal, GreedyMove(env), t, Initial(env), MaxSteps(env));
    WalkAt(env.goal, GreedyMove(env), t, Initial(env), MaxSteps(env), k);
    var tk := TableBefore(t, w, k);
    var s := StateBefore(Initial(env), w, k);
    GreedyMoveAt(env, tk, s);
    GreedyMoveIsSound(env);
    WalkExtends(env.goal, GreedyMove(env), t, Initial(env), MaxSteps(env), k);
    ExtendsAgree(t, tk);
    AgreeSameChoice(t, tk, StateKey(s), ValidActions(env, s));
  }

  /** The replay changes no value of the table: it only adds default entries. */
  lemma {:induction false} ReplayKeepsValues(env: Environment, t: QTable)
    ensures Extends(t, ReplayTable(env, t)) && Agree(t, ReplayTable(env, t))
  {
    GreedyMoveIsSound(env);
    WalkExtends(env.goal, GreedyMove(env), t, Initial(env), MaxSteps(env), |Replay(env, t)|);
    ExtendsAgree(t, ReplayTable(env, t));
  }

  /** From a start inside the grid the optimal path is a walk: each cell
      a free cell of the grid next to the one before. */
  lemma {:induction false} GreedyPathIsWalk(env: Environment, t: QTable)
    requires InGrid(env, env.start)
    ensures IsWalk(env, env.start, GreedyPath(env, t)[1..])
  {
    GreedyMoveIsSound(env);
    WalkCellsAreWalk(env, GreedyMove(env), t, Initial(env), MaxSteps(env));
    assert GreedyPath(env, t)[1..] == Cells(Replay(env, t));
  }

  /** The optimal path has at most one cell per step beyond the start, and
      after the start it can reach the goal only at its last cell. */
  lemma {:induction false} GreedyPathStopsAtGoal(env: Environment, t: QTable)
    ensures var p := GreedyPath(env, t);
            && 1 <= |p| <= MaxSteps(env) + 1
            && forall i :: 1 <= i < |p| - 1 ==> p[i] != env.goal
  {
    var w := Replay(env, t);
    WalkStopsAtGoal(env.goal, GreedyMove(env), t, Initial(env), MaxSteps(env));
    CellsBeforeGoal(env.goal, w);
    var p := GreedyPath(env, t);
    forall i | 1 <= i < |p| - 1
      ensures p[i] != env.goal
    {
      assert p[i] == Cells(w)[i - 1];
    }
  }

  /** The first `k` moves of `w`, begun on table `t0` in state `s0` at cell
      `start`, are done: the table, the state and the recorded path are
      those they leave. */
  ghost predicate Recorded(w: seq<Move>, t0: QTable, s0: State, start: Position,
                           k: nat, t: QTable, s: State, path: seq<Position>)
  {
    && k <= |w|
    && t == TableBefore(t0, w, k)
    && s == StateBefore(s0, w, k)
    && path == [start] + Cells(w[..k])
  }

  /** Helper: doing move `k` as well. */
  lemma {:induction false} RecordedAdvances(w: seq<Move>, t0: QTable, s0: State, start: Position,
                                            k: nat, t: QTable, s: State, path: seq<Position>, path': seq<Position>)
    requires Recorded(w, t0, s0, start, k, t, s, path) && k < |w|
    requires path' == path + (if w[k].action == Refuel then [] else [w[k].next.position])
    ensures Recorded(w, t0, s0, start, k + 1, w[k].table, w[k].next, path')
  {
    CellsSnoc(w, k);
    var cell := if w[k].action == Refuel then [] else [w[k].next.position];
    calc {
      path';
      ([start] + Cells(w[..k])) + cell;
      [start] + (Cells(w[..k]) + cell);
      [start] + Cells(w[..k + 1]);
    }
  }

  /** The replay's first `k` moves are done. */
  ghost predicate ReplayedUpTo(env: Environment, t0: QTable, k: nat, t: QTable, s: State, path: seq<Position>)
  {
    Recorded(Replay(env, t0), t0, Initial(env), env.start, k, t, s, path)
  }

  /** ... and the replay goes on: the goal was not reached by them. */
  ghost predicate ReplayedSoFar(env: Environment, t0: QTable, k: nat, t: QTable, s: State, path: seq<Position>)
  {
    ReplayedUpTo(env, t0, k, t, s, path) && (k > 0 ==> s.position != env.goal)
  }

  /** Helper: before the first move. */
  lemma {:induction false} ReplayBegins(env: Environment, t0: QTable)
    ensures ReplayedSoFar(env, t0, 0, t0, Initial(env), [env.start])
  {
    assert Replay(env, t0)[..0] == [];
  }

  /** A greedy step of the loop from table `t` and state `s`: the reads of
      the valid actions, the move by the earliest of highest value, and the
      new cell recorded unless the action was a refuel. */
  ghost predicate GreedyStep(env: Environment, t: QTable, s: State, path: seq<Position>,
                             t': QTable, s': State, path': seq<Position>)
  {
    var valid := ValidActions(env, s);
    && valid != []
    && var a := Greedy(t, StateKey(s), valid);
       && t' == TouchAll(t, StateKey(s), valid) && s' == Next(env, s, a)
       && path' == path + (if a == Refuel then [] else [s'.position])
  }

  /** Helper: where the replay goes on, move `k` is the greedy one. */
  lemma {:induction false} ReplayNextMove(env: Environment, t0: QTable, k: nat, t: QTable, s: State, path: seq<Position>)
    requires ReplayedSoFar(env, t0, k, t, s, path) && k < MaxSteps(env) && ValidActions(env, s) != []
    ensures var w := Replay(env, t0);
            var a := Greedy(t, StateKey(s), ValidActions(env, s));
            k < |w| && w[k] == Move(a, Next(env, s, a), TouchAll(t, StateKey(s), ValidActions(env, s)))
  {
    WalkAt(env.goal, GreedyMove(env), t0, Initial(env), MaxSteps(env), k);
    GreedyMoveAt(env, t, s);
  }

  /** One more move: the greedy step on the table as read so far. */
  lemma {:induction false} ReplayAdvances(env: Environment, t0: QTable, k: nat, t: QTable, s: State, path: seq<Position>,
                                          t': QTable, s': State, path': seq<Position>)
    requires ReplayedSoFar(env, t0, k, t, s, path) && k < MaxSteps(env)
    requires GreedyStep(env, t, s, path, t', s', path')
    ensures ReplayedUpTo(env, t0, k + 1, t', s', path')
  {
    ReplayNextMove(env, t0, k, t, s, path);
    RecordedAdvances(Replay(env, t0), t0, Initial(env), env.start, k, t, s, path, path');
  }

  /** The move that reaches the goal is the last one. */
  lemma {:induction false} ReplayReachesGoal(env: Environment, t0: QTable, k: nat, t: QTable, s: State, path: seq<Position>)
    requires ReplayedUpTo(env, t0, k, t, s, path) && k > 0 && s.position == env.goal
    ensures path == GreedyPath(env, t0) && t == ReplayTable(env, t0)
  {
    var w := Replay(env, t0);
    WalkStopsAtGoal(env.goal, GreedyMove(env), t0, Initial(env), MaxSteps(env));
    assert |w| == k;
    assert w[..k] == w;
  }

  /** With no valid action the replay ends. */
  lemma {:induction false} ReplayStranded(env: Environment, t0: QTable, k: nat, t: QTable, s: State, path: seq<Position>)
    requires ReplayedSoFar(env, t0, k, t, s, path) && k < MaxSteps(env) && ValidActions(env, s) == []
    ensures path == GreedyPath(env, t0) && t == ReplayTable(env, t0)
  {
    var w := Replay(env, t0);
    WalkAt(env.goal, GreedyMove(env), t0, Initial(env), MaxSteps(env), k);
    GreedyMoveAt(env, t, s);
    assert |w| == k;
    assert w[..k] == w;
  }

  /** After the step cap of moves the replay ends. */
  lemma {:induction false} ReplayCapped(env: Environment, t0: QTable, k: nat, t: QTable, s: State, path: seq<Position>)
    requires ReplayedSoFar(env, t0, k, t, s, path) && k == MaxSteps(env)
    ensures path == GreedyPath(env, t0) && t == ReplayTable(env, t0)
  {
    var w := Replay(env, t0);
    WalkStopsAtGoal(env.goal, GreedyMove(env), t0, Initial(env), MaxSteps(env));
    assert |w| == k;
    assert w[..k] == w;
  }
}
