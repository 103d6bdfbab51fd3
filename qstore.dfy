/** The sparse Q-table: a map from a discretised state key to a map from
    action to estimated value. A read materialises a default 0 entry. This
    module holds the table algebra and the greedy (first arg-max) choice. */
module QStore {
  import opened Grid

  /** (x, y, floor(fuel)): states that agree on these share their entries. */
  type Key = (int, int, int)

  type QTable = map<Key, map<Action, real>>

  function StateKey(s: State): Key
  {
    (s.position.x, s.position.y, s.fuel.Floor)
  }

  /** Two states share a key exactly when they agree on the cell and on the
      fuel rounded down. */
  lemma {:induction false} SharedKey(s1: State, s2: State)
    ensures StateKey(s1) == StateKey(s2) <==>
            s1.position == s2.position && s1.fuel.Floor == s2.fuel.Floor
  {
  }

  /** Every fuel level in [n, n + 1) on a cell maps to the same key. */
  lemma {:induction false} FuelBandKey(p: Position, fuel: real, n: int)
    requires n as real <= fuel < n as real + 1.0
    ensures StateKey(State(p, fuel)) == (p.x, p.y, n)
  {
  }

  /** The value a read returns: the stored one, or the default 0. */
  function Lookup(t: QTable, k: Key, a: Action): real
  {
    if k in t && a in t[k] then t[k][a] else 0.0
  }

  function Row(t: QTable, k: Key): map<Action, real>
  {
    if k in t then t[k] else map[]
  }

  /** Every read gives the same answer in both tables. */
  ghost predicate Agree(t: QTable, t': QTable)
  {
    forall k, a :: Lookup(t, k, a) == Lookup(t', k, a)
  }

  /** `t'` keeps every entry of `t` and adds only default 0 entries. */
  ghost predicate Extends(t: QTable, t': QTable)
  {
    && (forall k, a :: k in t && a in t[k] ==> k in t' && a in t'[k] && t'[k][a] == t[k][a])
    && (forall k, a :: k in t' && a in t'[k] && !(k in t && a in t[k]) ==> t'[k][a] == 0.0)
  }

  /** Agreement is transitive. */
  lemma {:induction false} AgreeTrans(t: QTable, t': QTable, t'': QTable)
    requires Agree(t, t') && Agree(t', t'')
    ensures Agree(t, t'')
  {
  }

  /** A table that only gained default entries answers every read as before. */
  lemma {:induction false} ExtendsAgree(t: QTable, t': QTable)
    requires Extends(t, t')
    ensures Agree(t, t')
  {
    forall k, a
      ensures Lookup(t, k, a) == Lookup(t', k, a)
    {
      if !(k in t && a in t[k]) && k in t' && a in t'[k] {
        assert t'[k][a] == 0.0;
      }
    }
  }

  lemma {:induction false} ExtendsTransitive(t1: QTable, t2: QTable, t3: QTable)
    requires Extends(t1, t2) && Extends(t2, t3)
    ensures Extends(t1, t3)
  {
  }

  /** The table after a read of (k, a): an entry is created with 0 when
      missing, nothing else changes. */
  function Touch(t: QTable, k: Key, a: Action): (t': QTable)
    ensures k in t' && a in t'[k]
    ensures Extends(t, t')
  {
    if k in t && a in t[k] then t else t[k := Row(t, k)[a := 0.0]]
  }

  /** The table after reads of every action in `acts`, in order. */
  function TouchAll(t: QTable, k: Key, acts: seq<Action>): (t': QTable)
    ensures forall a :: a in acts ==> k in t' && a in t'[k]
    ensures Extends(t, t')
    decreases |acts|
  {
    if acts == [] then t
    else
      var before := TouchAll(t, k, acts[..|acts| - 1]);
      ExtendsTransitive(t, before, Touch(before, k, acts[|acts| - 1]));
      Touch(before, k, acts[|acts| - 1])
  }

  /** The table after a write: the written entry reads back, all others as before. */
  function Store(t: QTable, k: Key, a: Action, v: real): (t': QTable)
    ensures Lookup(t', k, a) == v
    ensures forall k', b :: (k', b) != (k, a) ==> Lookup(t', k', b) == Lookup(t, k', b)
  {
    t[k := Row(t, k)[a := v]]
  }

  /** The index the greedy scan settles on: it starts at the first action and
      moves only on a strictly higher value. */
  function BestIndex(t: QTable, k: Key, acts: seq<Action>): (i: nat)
    requires acts != []
    ensures i < |acts|
    decreases |acts|
  {
    if |acts| == 1 then 0
    else
      var b := BestIndex(t, k, acts[..|acts| - 1]);
      if Lookup(t, k, acts[|acts| - 1]) > Lookup(t, k, acts[b]) then |acts| - 1 else b
  }

  /** The scan ends on a maximum, and on the earliest one. */
  lemma {:induction false} BestIndexIsEarliestMaximum(t: QTable, k: Key, acts: seq<Action>)
    requires acts != []
    ensures var i := BestIndex(t, k, acts);
            && (forall j :: 0 <= j < |acts| ==> Lookup(t, k, acts[j]) <= Lookup(t, k, acts[i]))
            && (forall j :: 0 <= j < i ==> Lookup(t, k, acts[j]) < Lookup(t, k, acts[i]))
    decreases |acts|
  {
    if |acts| > 1 {
      var init := acts[..|acts| - 1];
      BestIndexIsEarliestMaximum(t, k, init);
      assert forall j :: 0 <= j < |init| ==> init[j] == acts[j];
    }
  }

  /** The earliest maximum is unique, so the two properties above pin the choice down. */
  lemma {:induction false} EarliestMaximumUnique(t: QTable, k: Key, acts: seq<Action>, i: nat)
    requires i < |acts|
    requires forall j :: 0 <= j < |acts| ==> Lookup(t, k, acts[j]) <= Lookup(t, k, acts[i])
    requires forall j :: 0 <= j < i ==> Lookup(t, k, acts[j]) < Lookup(t, k, acts[i])
    ensures i == BestIndex(t, k, acts)
  {
    BestIndexIsEarliestMaximum(t, k, acts);
  }

  /** Helper: reading one more action of a prefix extends the reads. */
  lemma {:induction false} TouchAllSnoc(t: QTable, k: Key, acts: seq<Action>, i: nat)
    requires i < |acts|
    ensures TouchAll(t, k, acts[..i + 1]) == Touch(TouchAll(t, k, acts[..i]), k, acts[i])
  {
    assert acts[..i + 1][..i] == acts[..i];
  }

  /** Helper: one more step of the greedy scan over a prefix. */
  lemma {:induction false} BestIndexSnoc(t: QTable, k: Key, acts: seq<Action>, i: nat)
    requires 0 < i < |acts|
    ensures var b := BestIndex(t, k, acts[..i]);
            BestIndex(t, k, acts[..i + 1]) == if Lookup(t, k, acts[i]) > Lookup(t, k, acts[b]) then i else b
  {
    assert acts[..i + 1][..i] == acts[..i];
  }

  function Greedy(t: QTable, k: Key, acts: seq<Action>): (a: Action)
    requires acts != []
    ensures a in acts
  {
    acts[BestIndex(t, k, acts)]
  }

  function Max(a: real, b: real): real
  {
    if a >= b then a else b
  }

  /** The largest value over a non-empty action list. */
  function MaxQ(t: QTable, k: Key, acts: seq<Action>): (m: real)
    requires acts != []
    ensures forall j :: 0 <= j < |acts| ==> Lookup(t, k, acts[j]) <= m
    ensures exists j :: 0 <= j < |acts| && Lookup(t, k, acts[j]) == m
    decreases |acts|
  {
    if |acts| == 1 then Lookup(t, k, acts[0])
    else
      var m := MaxQ(t, k, acts[..|acts| - 1]);
      Max(m, Lookup(t, k, acts[|acts| - 1]))
  }

  /** The maximum is the value of the greedy choice. */
  lemma {:induction false} MaxQIsGreedyValue(t: QTable, k: Key, acts: seq<Action>)
    requires acts != []
    ensures MaxQ(t, k, acts) == Lookup(t, k, Greedy(t, k, acts))
  {
    var i := BestIndex(t, k, acts);
    BestIndexIsEarliestMaximum(t, k, acts);
    var j :| 0 <= j < |acts| && Lookup(t, k, acts[j]) == MaxQ(t, k, acts);
    assert Lookup(t, k, acts[j]) <= Lookup(t, k, acts[i]);
  }

  /** Tables that answer every read alike make the same greedy choice and
      have the same maximum. */
  lemma {:induction false} AgreeSameChoice(t: QTable, t': QTable, k: Key, acts: seq<Action>)
    requires acts != [] && Agree(t, t')
    ensures BestIndex(t, k, acts) == BestIndex(t', k, acts)
    ensures MaxQ(t, k, acts) == MaxQ(t', k, acts)
  {
    var i := BestIndex(t', k, acts);
    assert forall j :: 0 <= j < |acts| ==> Lookup(t, k, acts[j]) == Lookup(t', k, acts[j]);
    BestIndexIsEarliestMaximum(t', k, acts);
    EarliestMaximumUnique(t, k, acts, i);
    MaxQIsGreedyValue(t, k, acts);
    MaxQIsGreedyValue(t', k, acts);
  }

  /** The bootstrapped target: the best value over the next state's valid
      actions, or 0 when it has none. */
  function MaxNext(env: Environment, t: QTable, next: State): real
  {
    var acts := ValidActions(env, next);
    if acts == [] then 0.0 else MaxQ(t, StateKey(next), acts)
  }

  /** Helper: the maximum over one more action of a prefix. */
  lemma {:induction false} MaxQSnoc(t: QTable, k: Key, acts: seq<Action>, i: nat)
    requires 0 < i < |acts|
    ensures MaxQ(t, k, acts[..i + 1]) == Max(MaxQ(t, k, acts[..i]), Lookup(t, k, acts[i]))
  {
    assert acts[..i + 1][..i] == acts[..i];
  }

  /** Tables that answer every read alike give the same target. */
  lemma {:induction false} MaxNextAgree(env: Environment, t: QTable, t': QTable, next: State)
    requires Agree(t, t')
    ensures MaxNext(env, t, next) == MaxNext(env, t', next)
  {
    if ValidActions(env, next) != [] {
      AgreeSameChoice(t, t', StateKey(next), ValidActions(env, next));
    }
  }

  /** The one-step Q-learning rule. */
  function QUpdate(current: real, reward: real, maxNext: real, learningRate: real, discount: real): real
  {
    current + learningRate * (reward + discount * maxNext - current)
  }

  /** With a rate in [0, 1] the new value lies between the old value and the
      target; rate 0 keeps the old value and rate 1 takes the target. */
  lemma {:induction false} QUpdateInterpolates(current: real, reward: real, maxNext: real, learningRate: real, discount: real)
    requires 0.0 <= learningRate <= 1.0
    ensures var target := reward + discount * maxNext;
            var v := QUpdate(current, reward, maxNext, learningRate, discount);
            && (current <= target ==> current <= v <= target)
            && (target <= current ==> target <= v <= current)
            && (learningRate == 0.0 ==> v == current)
            && (learningRate == 1.0 ==> v == target)
  {
    var target := reward + discount * maxNext;
    var d := target - current;
    assert QUpdate(current, reward, maxNext, learningRate, discount) == current + learningRate * d;
    if d >= 0.0 {
      assert 0.0 <= learningRate * d <= d;
    } else {
      assert d <= learningRate * d <= 0.0;
    }
  }
}
