/** Two-player stochastic games given as arrays, and the tabular form in
    which the example scripts write the same games down.

    A game with `S` states and `A` actions per player holds
      - `payoffs[s][p][a0][a1]`: player `p`'s stage payoff in state `s`,
      - `transitions[s][a0][a1][t]`: probability of moving to state `t`,
      - `deltas[p]`: player `p`'s discount factor.

    A table starts with a `delta` row carrying the discount factors,
    followed by one row per (state, action of player 0, action of player 1)
    in that nested order.  Each such row names the state and both actions
    by label, gives both payoffs, and gives the next state either as one
    probability column per state (`phi_<state>`) or as the label of a
    single target state (`to_state`). */
module GameTables {
  import opened Wrappers
  import opened SeqOps
  import opened Radix

  datatype Game = Game(
    payoffs: seq<seq<seq<seq<real>>>>,
    transitions: seq<seq<seq<seq<real>>>>,
    deltas: seq<real>)

  /** How a profile row gives the next state. */
  datatype Next =
    | Probabilities(phi: seq<real>)
    | Target(name: string)

  datatype Row =
    | DeltaRow(deltas: seq<real>)
    | ProfileRow(state: string, actions: seq<string>, payoffs: seq<real>, next: Next)

  /** `g` has `S` states, two players and `A` actions per player. */
  predicate Shaped(g: Game, S: nat, A: nat)
  {
    |g.payoffs| == S && |g.transitions| == S && |g.deltas| == 2 &&
    (forall s :: 0 <= s < S ==>
      |g.payoffs[s]| == 2 &&
      (forall p :: 0 <= p < 2 ==>
        |g.payoffs[s][p]| == A &&
        forall a0 :: 0 <= a0 < A ==> |g.payoffs[s][p][a0]| == A)) &&
    (forall s :: 0 <= s < S ==>
      |g.transitions[s]| == A &&
      forall a0 :: 0 <= a0 < A ==>
        |g.transitions[s][a0]| == A &&
        forall a1 :: 0 <= a1 < A ==> |g.transitions[s][a0][a1]| == S)
  }

  /** Position of the row for `(s, a0, a1)`, after the delta row. */
  function RowIndex(A: nat, s: nat, a0: nat, a1: nat): nat
  {
    1 + (s * A + a0) * A + a1
  }

  /** Distinct profiles have distinct rows. */
  lemma RowIndexInjective(A: nat, s: nat, a0: nat, a1: nat, s': nat, b0: nat, b1: nat)
    requires a0 < A && a1 < A && b0 < A && b1 < A
    requires RowIndex(A, s, a0, a1) == RowIndex(A, s', b0, b1)
    ensures s == s' && a0 == b0 && a1 == b1
  {
    var x := s * A + a0;
    var y := s' * A + b0;
    assert x * A + a1 == y * A + b1;
    DivModUnique(x * A + a1, A, x, a1);
    DivModUnique(y * A + b1, A, y, b1);
    DivModUnique(x, A, s, a0);
    DivModUnique(y, A, s', b0);
  }

  /** The next-state distribution a row gives, or None when its columns do
      not fit the state labels (wrong number of phi columns, unknown
      target label). */
  function Distribution(next: Next, states: seq<string>): (r: Option<seq<real>>)
    ensures r.Some? ==> |r.value| == |states|
    ensures next.Target? ==>
              (r.Some? <==> next.name in states) &&
              (r.Some? ==> exists t :: 0 <= t < |states| && states[t] == next.name && IsOneHot(r.value, t))
  {
    match next
    case Probabilities(phi) => if |phi| == |states| then Some(phi) else None
    case Target(name) =>
      match IndexOf(states, name)
      case None => None
      case Some(t) => Some(OneHot(|states|, t))
  }

  /** A target row says the same as a phi row that is one-hot at the
      target's position. */
  lemma TargetIsOneHotPhi(name: string, states: seq<string>, phi: seq<real>)
    requires name in states && |phi| == |states|
    ensures Distribution(Target(name), states) == Distribution(Probabilities(phi), states)
            <==> IsOneHot(phi, IndexOf(states, name).value)
  {
    var t := IndexOf(states, name).value;
    if IsOneHot(phi, t) {
      assert phi == OneHot(|states|, t);
    }
  }

  /** A phi row and a target row that give the same distribution agree:
      the phi column holding the 1 is the one of the named state. */
  lemma PhiAgreesWithTarget(phi: seq<real>, name: string, states: seq<string>, t: seq<real>)
    requires Distribution(Probabilities(phi), states) == Some(t)
    requires Distribution(Target(name), states) == Some(t)
    ensures name in states && IsOneHot(phi, IndexOf(states, name).value)
  {
  }

  /** Row `row` is the row of profile `(s, a0, a1)` of `g`. */
  predicate RowMatches(row: Row, states: seq<string>, actions: seq<string>, g: Game,
                       s: nat, a0: nat, a1: nat)
  {
    s < |states| && a0 < |actions| && a1 < |actions| &&
    Shaped(g, |states|, |actions|) &&
    row.ProfileRow? &&
    row.state == states[s] &&
    row.actions == [actions[a0], actions[a1]] &&
    row.payoffs == [g.payoffs[s][0][a0][a1], g.payoffs[s][1][a0][a1]] &&
    Distribution(row.next, states) == Some(g.transitions[s][a0][a1])
  }

  /** The table `rows`, with the given state and action labels, describes
      the game `g`. */
  predicate Describes(rows: seq<Row>, states: seq<string>, actions: seq<string>, g: Game)
  {
    var S := |states|;
    var A := |actions|;
    Shaped(g, S, A) &&
    |rows| == 1 + S * A * A &&
    rows[0] == DeltaRow(g.deltas) &&
    forall s, a0, a1 :: 0 <= s < S && 0 <= a0 < A && 0 <= a1 < A ==>
      RowIndex(A, s, a0, a1) < |rows| &&
      RowMatches(rows[RowIndex(A, s, a0, a1)], states, actions, g, s, a0, a1)
  }

  /** Every profile row gives its next state as probability columns. */
  predicate PhiTable(rows: seq<Row>)
  {
    forall k :: 1 <= k < |rows| ==> rows[k].ProfileRow? && rows[k].next.Probabilities?
  }

  /** Every profile row gives its next state by name. */
  predicate TargetTable(rows: seq<Row>)
  {
    forall k :: 1 <= k < |rows| ==> rows[k].ProfileRow? && rows[k].next.Target?
  }

  /** Every position after the delta row is the row of some profile. */
  lemma RowIndexCovers(S: nat, A: nat, k: nat) returns (s: nat, a0: nat, a1: nat)
    requires 1 <= k < 1 + S * A * A
    ensures s < S && a0 < A && a1 < A && RowIndex(A, s, a0, a1) == k
  {
    assert A > 0;
    BlockSplit(k - 1, S * A, A);
    var x := (k - 1) / A;
    a1 := (k - 1) % A;
    BlockSplit(x, S, A);
    s := x / A;
    a0 := x % A;
  }

  /** A table describes at most one game: two games read off the same table
      agree in payoffs, transitions and discount factors. */
  lemma DescribesDeterminesGame(rows: seq<Row>, states: seq<string>, actions: seq<string>,
                                g1: Game, g2: Game)
    requires Describes(rows, states, actions, g1) && Describes(rows, states, actions, g2)
    ensures g1 == g2
  {
    var S := |states|;
    var A := |actions|;
    forall s | 0 <= s < S
      ensures g1.payoffs[s] == g2.payoffs[s]
    {
      forall p | 0 <= p < 2
        ensures g1.payoffs[s][p] == g2.payoffs[s][p]
      {
        forall a0 | 0 <= a0 < A
          ensures g1.payoffs[s][p][a0] == g2.payoffs[s][p][a0]
        {
          forall a1 | 0 <= a1 < A
            ensures g1.payoffs[s][p][a0][a1] == g2.payoffs[s][p][a0][a1]
          {
            var row := rows[RowIndex(A, s, a0, a1)];
            assert row.payoffs[p] == g1.payoffs[s][p][a0][a1];
          }
        }
      }
    }
    forall s | 0 <= s < S
      ensures g1.transitions[s] == g2.transitions[s]
    {
      forall a0 | 0 <= a0 < A
        ensures g1.transitions[s][a0] == g2.transitions[s][a0]
      {
        forall a1 | 0 <= a1 < A
          ensures g1.transitions[s][a0][a1] == g2.transitions[s][a0][a1]
        {
          assert RowMatches(rows[RowIndex(A, s, a0, a1)], states, actions, g1, s, a0, a1);
        }
      }
    }
    assert g1.deltas == g2.deltas;
  }
}
