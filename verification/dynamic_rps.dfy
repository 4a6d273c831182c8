/** Dynamic rock-paper-scissors: a player who alone played Scissors in the
    previous round wins a Scissors tie in the next round.

    States: 0 `neutral` (both or neither played Scissors last round),
    1 `adv_p0` (only player 0 did), 2 `adv_p1` (only player 1 did).
    Actions: 0 rock, 1 paper, 2 scissors.  The game is written down three
    times: as payoff and transition arrays, as a table with one probability
    column per next state, and as a table naming the next state. */
module DynamicRps {
  import opened Wrappers
  import opened SeqOps
  import opened GameTables

  const Rock: nat := 0
  const Paper: nat := 1
  const Scissors: nat := 2

  const Neutral: nat := 0
  const AdvP0: nat := 1
  const AdvP1: nat := 2

  const NeutralName: string := "neutral"
  const AdvP0Name: string := "adv_p0"
  const AdvP1Name: string := "adv_p1"
  const RockName: string := "rock"
  const PaperName: string := "paper"
  const ScissorsName: string := "scissors"

  const StateLabels: seq<string> := [NeutralName, AdvP0Name, AdvP1Name]
  const ActionLabels: seq<string> := [RockName, PaperName, ScissorsName]

  const CommonDiscount: real := 0.95

  // ---------------------------------------------------------------------
  // The rule
  // ---------------------------------------------------------------------

  /** Whoever alone played Scissors holds the advantage next round. */
  function NextState(a0: nat, a1: nat): nat
  {
    if a0 == Scissors && a1 != Scissors then AdvP0
    else if a1 == Scissors && a0 != Scissors then AdvP1
    else Neutral
  }

  /** Ordinary rock-paper-scissors: `a` beats `b`. */
  predicate Beats(a: nat, b: nat)
  {
    (a == Rock && b == Scissors) || (a == Paper && b == Rock) || (a == Scissors && b == Paper)
  }

  /** Player 0's payoff under the rule in state `s`: win +1, loss -1, tie 0,
      except that a Scissors tie goes to the advantaged player. */
  function RuleOutcome(s: nat, a0: nat, a1: nat): real
  {
    if Beats(a0, a1) then 1.0
    else if Beats(a1, a0) then -1.0
    else if a0 == Scissors && a1 == Scissors && s == AdvP0 then 1.0
    else if a0 == Scissors && a1 == Scissors && s == AdvP1 then -1.0
    else 0.0
  }

  // ---------------------------------------------------------------------
  // The array form
  // ---------------------------------------------------------------------

  /** `payoff_matrices[s][p][a0][a1]`. */
  const Payoffs: seq<seq<seq<seq<real>>>> := [
    [[[0.0, -1.0, 1.0], [1.0, 0.0, -1.0], [-1.0, 1.0, 0.0]],
     [[0.0, 1.0, -1.0], [-1.0, 0.0, 1.0], [1.0, -1.0, 0.0]]],
    [[[0.0, -1.0, 1.0], [1.0, 0.0, -1.0], [-1.0, 1.0, 1.0]],
     [[0.0, 1.0, -1.0], [-1.0, 0.0, 1.0], [1.0, -1.0, -1.0]]],
    [[[0.0, -1.0, 1.0], [1.0, 0.0, -1.0], [-1.0, 1.0, -1.0]],
     [[0.0, 1.0, -1.0], [-1.0, 0.0, 1.0], [1.0, -1.0, 1.0]]]
  ]

  /** The transition array of one state, `[a0][a1][t]`. */
  const StateTransitions: seq<seq<seq<real>>> := [
    [[1.0, 0.0, 0.0], [1.0, 0.0, 0.0], [0.0, 0.0, 1.0]],
    [[1.0, 0.0, 0.0], [1.0, 0.0, 0.0], [0.0, 0.0, 1.0]],
    [[0.0, 1.0, 0.0], [0.0, 1.0, 0.0], [1.0, 0.0, 0.0]]
  ]

  /** `transition_matrices`: the same array for each of the three states. */
  const Transitions: seq<seq<seq<seq<real>>>> := [StateTransitions, StateTransitions, StateTransitions]

  /** The game built from the arrays; the common discount factor applies to
      both players. */
  const ArrayGame: Game := Game(Payoffs, Transitions, [CommonDiscount, CommonDiscount])

  /** The payoff arrays are the rule, and player 1 gets the negation of
      player 0's payoff. */
  lemma PayoffsFollowRule()
    ensures forall s, a0, a1 :: 0 <= s < 3 && 0 <= a0 < 3 && 0 <= a1 < 3 ==>
              Payoffs[s][0][a0][a1] == RuleOutcome(s, a0, a1) &&
              Payoffs[s][1][a0][a1] == -RuleOutcome(s, a0, a1)
  {
    forall s, a0, a1 | 0 <= s < 3 && 0 <= a0 < 3 && 0 <= a1 < 3
      ensures Payoffs[s][0][a0][a1] == RuleOutcome(s, a0, a1)
      ensures Payoffs[s][1][a0][a1] == -RuleOutcome(s, a0, a1)
    {
      assert s == 0 || s == 1 || s == 2;
      assert a0 == 0 || a0 == 1 || a0 == 2;
      assert a1 == 0 || a1 == 1 || a1 == 2;
    }
  }

  /** Every cell of every state is zero-sum. */
  lemma ZeroSum()
    ensures forall s, a0, a1 :: 0 <= s < 3 && 0 <= a0 < 3 && 0 <= a1 < 3 ==>
              Payoffs[s][0][a0][a1] + Payoffs[s][1][a0][a1] == 0.0
  {
    PayoffsFollowRule();
  }

  /** The advantage states differ from the neutral state only at the
      Scissors tie, which the advantaged player wins. */
  lemma AdvantageOnlyAtScissorsTie()
    ensures forall s, p, a0, a1 ::
              0 <= s < 3 && 0 <= p < 2 && 0 <= a0 < 3 && 0 <= a1 < 3 && !(a0 == Scissors && a1 == Scissors)
              ==> Payoffs[s][p][a0][a1] == Payoffs[Neutral][p][a0][a1]
    ensures Payoffs[Neutral][0][Scissors][Scissors] == 0.0 && Payoffs[Neutral][1][Scissors][Scissors] == 0.0
    ensures Payoffs[AdvP0][0][Scissors][Scissors] == 1.0 && Payoffs[AdvP0][1][Scissors][Scissors] == -1.0
    ensures Payoffs[AdvP1][0][Scissors][Scissors] == -1.0 && Payoffs[AdvP1][1][Scissors][Scissors] == 1.0
  {
    PayoffsFollowRule();
  }

  /** Every transition row is one-hot at the rule's next state, so it sums
      to 1 and does not depend on the current state. */
  lemma TransitionsFollowRule()
    ensures forall s, a0, a1 :: 0 <= s < 3 && 0 <= a0 < 3 && 0 <= a1 < 3 ==>
              IsOneHot(Transitions[s][a0][a1], NextState(a0, a1)) &&
              Sum(Transitions[s][a0][a1]) == 1.0
  {
    forall s, a0, a1 | 0 <= s < 3 && 0 <= a0 < 3 && 0 <= a1 < 3
      ensures IsOneHot(Transitions[s][a0][a1], NextState(a0, a1))
      ensures Sum(Transitions[s][a0][a1]) == 1.0
    {
      assert Transitions[s] == StateTransitions;
      assert a0 == 0 || a0 == 1 || a0 == 2;
      assert a1 == 0 || a1 == 1 || a1 == 2;
      assert IsOneHot(StateTransitions[a0][a1], NextState(a0, a1));
      SumOneHot(Transitions[s][a0][a1], NextState(a0, a1));
    }
  }

  /** The arrays have three states and three actions per player. */
  lemma ArrayGameShaped()
    ensures Shaped(ArrayGame, 3, 3)
  {
  }

  // ---------------------------------------------------------------------
  // The two tables
  // ---------------------------------------------------------------------

  /** `game_table`: next states as columns `phi_neutral`, `phi_adv_p0`,
      `phi_adv_p1`. */
  const GameTable: seq<Row> := [
    DeltaRow([0.95, 0.95]),
    ProfileRow(NeutralName, [RockName, RockName], [0.0, 0.0], Probabilities([1.0, 0.0, 0.0])),
    ProfileRow(NeutralName, [RockName, PaperName], [-1.0, 1.0], Probabilities([1.0, 0.0, 0.0])),
    ProfileRow(NeutralName, [RockName, ScissorsName], [1.0, -1.0], Probabilities([0.0, 0.0, 1.0])),
    ProfileRow(NeutralName, [PaperName, RockName], [1.0, -1.0], Probabilities([1.0, 0.0, 0.0])),
    ProfileRow(NeutralName, [PaperName, PaperName], [0.0, 0.0], Probabilities([1.0, 0.0, 0.0])),
    ProfileRow(NeutralName, [PaperName, ScissorsName], [-1.0, 1.0], Probabilities([0.0, 0.0, 1.0])),
    ProfileRow(NeutralName, [ScissorsName, RockName], [-1.0, 1.0], Probabilities([0.0, 1.0, 0.0])),
    ProfileRow(NeutralName, [ScissorsName, PaperName], [1.0, -1.0], Probabilities([0.0, 1.0, 0.0])),
    ProfileRow(NeutralName, [ScissorsName, ScissorsName], [0.0, 0.0], Probabilities([1.0, 0.0, 0.0])),
    ProfileRow(AdvP0Name, [RockName, RockName], [0.0, 0.0], Probabilities([1.0, 0.0, 0.0])),
    ProfileRow(AdvP0Name, [RockName, PaperName], [-1.0, 1.0], Probabilities([1.0, 0.0, 0.0])),
    ProfileRow(AdvP0Name, [RockName, ScissorsName], [1.0, -1.0], Probabilities([0.0, 0.0, 1.0])),
    ProfileRow(AdvP0Name, [PaperName, RockName], [1.0, -1.0], Probabilities([1.0, 0.0, 0.0])),
    ProfileRow(AdvP0Name, [PaperName, PaperName], [0.0, 0.0], Probabilities([1.0, 0.0, 0.0])),
    ProfileRow(AdvP0Name, [PaperName, ScissorsName], [-1.0, 1.0], Probabilities([0.0, 0.0, 1.0])),
    ProfileRow(AdvP0Name, [ScissorsName, RockName], [-1.0, 1.0], Probabilities([0.0, 1.0, 0.0])),
    ProfileRow(AdvP0Name, [ScissorsName, PaperName], [1.0, -1.0], Probabilities([0.0, 1.0, 0.0])),
    ProfileRow(AdvP0Name, [ScissorsName, ScissorsName], [1.0, -1.0], Probabilities([1.0, 0.0, 0.0])),
    ProfileRow(AdvP1Name, [RockName, RockName], [0.0, 0.0], Probabilities([1.0, 0.0, 0.0])),
    ProfileRow(AdvP1Name, [RockName, PaperName], [-1.0, 1.0], Probabilities([1.0, 0.0, 0.0])),
    ProfileRow(AdvP1Name, [RockName, ScissorsName], [1.0, -1.0], Probabilities([0.0, 0.0, 1.0])),
    ProfileRow(AdvP1Name, [PaperName, RockName], [1.0, -1.0], Probabilities([1.0, 0.0, 0.0])),
    ProfileRow(AdvP1Name, [PaperName, PaperName], [0.0, 0.0], Probabilities([1.0, 0.0, 0.0])),
    ProfileRow(AdvP1Name, [PaperName, ScissorsName], [-1.0, 1.0], Probabilities([0.0, 0.0, 1.0])),
    ProfileRow(AdvP1Name, [ScissorsName, RockName], [-1.0, 1.0], Probabilities([0.0, 1.0, 0.0])),
    ProfileRow(AdvP1Name, [ScissorsName, PaperName], [1.0, -1.0], Probabilities([0.0, 1.0, 0.0])),
    ProfileRow(AdvP1Name, [ScissorsName, ScissorsName], [-1.0, 1.0], Probabilities([1.0, 0.0, 0.0]))
  ]

  /** `game_table_2`: next states named in the `to_state` column. */
  const GameTable2: seq<Row> := [
    DeltaRow([0.95, 0.95]),
    ProfileRow(NeutralName, [RockName, RockName], [0.0, 0.0], Target(NeutralName)),
    ProfileRow(NeutralName, [RockName, PaperName], [-1.0, 1.0], Target(NeutralName)),
    ProfileRow(NeutralName, [RockName, ScissorsName], [1.0, -1.0], Target(AdvP1Name)),
    ProfileRow(NeutralName, [PaperName, RockName], [1.0, -1.0], Target(NeutralName)),
    ProfileRow(NeutralName, [PaperName, PaperName], [0.0, 0.0], Target(NeutralName)),
    ProfileRow(NeutralName, [PaperName, ScissorsName], [-1.0, 1.0], Target(AdvP1Name)),
    ProfileRow(NeutralName, [ScissorsName, RockName], [-1.0, 1.0], Target(AdvP0Name)),
    ProfileRow(NeutralName, [ScissorsName, PaperName], [1.0, -1.0], Target(AdvP0Name)),
    ProfileRow(NeutralName, [ScissorsName, ScissorsName], [0.0, 0.0], Target(NeutralName)),
    ProfileRow(AdvP0Name, [RockName, RockName], [0.0, 0.0], Target(NeutralName)),
    ProfileRow(AdvP0Name, [RockName, PaperName], [-1.0, 1.0], Target(NeutralName)),
    ProfileRow(AdvP0Name, [RockName, ScissorsName], [1.0, -1.0], Target(AdvP1Name)),
    ProfileRow(AdvP0Name, [PaperName, RockName], [1.0, -1.0], Target(NeutralName)),
    ProfileRow(AdvP0Name, [PaperName, PaperName], [0.0, 0.0], Target(NeutralName)),
    ProfileRow(AdvP0Name, [PaperName, ScissorsName], [-1.0, 1.0], Target(AdvP1Name)),
    ProfileRow(AdvP0Name, [ScissorsName, RockName], [-1.0, 1.0], Target(AdvP0Name)),
    ProfileRow(AdvP0Name, [ScissorsName, PaperName], [1.0, -1.0], Target(AdvP0Name)),
    ProfileRow(AdvP0Name, [ScissorsName, ScissorsName], [1.0, -1.0], Target(NeutralName)),
    ProfileRow(AdvP1Name, [RockName, RockName], [0.0, 0.0], Target(NeutralName)),
    ProfileRow(AdvP1Name, [RockName, PaperName], [-1.0, 1.0], Target(NeutralName)),
    ProfileRow(AdvP1Name, [RockName, ScissorsName], [1.0, -1.0], Target(AdvP1Name)),
    ProfileRow(AdvP1Name, [PaperName, RockName], [1.0, -1.0], Target(NeutralName)),
    ProfileRow(AdvP1Name, [PaperName, PaperName], [0.0, 0.0], Target(NeutralName)),
    ProfileRow(AdvP1Name, [PaperName, ScissorsName], [-1.0, 1.0], Target(AdvP1Name)),
    ProfileRow(AdvP1Name, [ScissorsName, RockName], [-1.0, 1.0], Target(AdvP0Name)),
    ProfileRow(AdvP1Name, [ScissorsName, PaperName], [1.0, -1.0], Target(AdvP0Name)),
    ProfileRow(AdvP1Name, [ScissorsName, ScissorsName], [-1.0, 1.0], Target(NeutralName))
  ]


  /** Row `row` is the row of profile `(s, a0, a1)` under the rule: it
      names the state and actions, pays the rule's outcome, and leads to the
      rule's next state, as a one-hot phi column or by name. */
  predicate RowFollowsRule(row: Row, s: nat, a0: nat, a1: nat)
    requires s < 3 && a0 < 3 && a1 < 3
  {
    row.ProfileRow? &&
    row.state == StateLabels[s] &&
    row.actions == [ActionLabels[a0], ActionLabels[a1]] &&
    row.payoffs == [RuleOutcome(s, a0, a1), -RuleOutcome(s, a0, a1)] &&
    match row.next
    case Probabilities(phi) => |phi| == 3 && IsOneHot(phi, NextState(a0, a1))
    case Target(name) => name == StateLabels[NextState(a0, a1)]
  }

  /** The `neutral` rows of `game_table` follow the rule. */
  lemma GameTableNeutralRows()
    ensures forall a0, a1 :: 0 <= a0 < 3 && 0 <= a1 < 3 ==>
              RowFollowsRule(GameTable[RowIndex(3, Neutral, a0, a1)], Neutral, a0, a1)
  {
    forall a0, a1 | 0 <= a0 < 3 && 0 <= a1 < 3
      ensures RowFollowsRule(GameTable[RowIndex(3, Neutral, a0, a1)], Neutral, a0, a1)
    {
      assert a0 == 0 || a0 == 1 || a0 == 2;
      assert a1 == 0 || a1 == 1 || a1 == 2;
    }
  }

  /** The `adv_p0` rows of `game_table` follow the rule. */
  lemma GameTableAdvP0Rows()
    ensures forall a0, a1 :: 0 <= a0 < 3 && 0 <= a1 < 3 ==>
              RowFollowsRule(GameTable[RowIndex(3, AdvP0, a0, a1)], AdvP0, a0, a1)
  {
    forall a0, a1 | 0 <= a0 < 3 && 0 <= a1 < 3
      ensures RowFollowsRule(GameTable[RowIndex(3, AdvP0, a0, a1)], AdvP0, a0, a1)
    {
      assert a0 == 0 || a0 == 1 || a0 == 2;
      assert a1 == 0 || a1 == 1 || a1 == 2;
    }
  }

  /** The `adv_p1` rows of `game_table` follow the rule. */
  lemma GameTableAdvP1Rows()
    ensures forall a0, a1 :: 0 <= a0 < 3 && 0 <= a1 < 3 ==>
              RowFollowsRule(GameTable[RowIndex(3, AdvP1, a0, a1)], AdvP1, a0, a1)
  {
    forall a0, a1 | 0 <= a0 < 3 && 0 <= a1 < 3
      ensures RowFollowsRule(GameTable[RowIndex(3, AdvP1, a0, a1)], AdvP1, a0, a1)
    {
      assert a0 == 0 || a0 == 1 || a0 == 2;
      assert a1 == 0 || a1 == 1 || a1 == 2;
    }
  }

  /** The `neutral` rows of `game_table_2` follow the rule. */
  lemma GameTable2NeutralRows()
    ensures forall a0, a1 :: 0 <= a0 < 3 && 0 <= a1 < 3 ==>
              RowFollowsRule(GameTable2[RowIndex(3, Neutral, a0, a1)], Neutral, a0, a1)
  {
    forall a0, a1 | 0 <= a0 < 3 && 0 <= a1 < 3
      ensures RowFollowsRule(GameTable2[RowIndex(3, Neutral, a0, a1)], Neutral, a0, a1)
    {
      assert a0 == 0 || a0 == 1 || a0 == 2;
      assert a1 == 0 || a1 == 1 || a1 == 2;
    }
  }

  /** The `adv_p0` rows of `game_table_2` follow the rule. */
  lemma GameTable2AdvP0Rows()
    ensures forall a0, a1 :: 0 <= a0 < 3 && 0 <= a1 < 3 ==>
              RowFollowsRule(GameTable2[RowIndex(3, AdvP0, a0, a1)], AdvP0, a0, a1)
  {
    forall a0, a1 | 0 <= a0 < 3 && 0 <= a1 < 3
      ensures RowFollowsRule(GameTable2[RowIndex(3, AdvP0, a0, a1)], AdvP0, a0, a1)
    {
      assert a0 == 0 || a0 == 1 || a0 == 2;
      assert a1 == 0 || a1 == 1 || a1 == 2;
    }
  }

  /** The `adv_p1` rows of `game_table_2` follow the rule. */
  lemma GameTable2AdvP1Rows()
    ensures forall a0, a1 :: 0 <= a0 < 3 && 0 <= a1 < 3 ==>
              RowFollowsRule(GameTable2[RowIndex(3, AdvP1, a0, a1)], AdvP1, a0, a1)
  {
    forall a0, a1 | 0 <= a0 < 3 && 0 <= a1 < 3
      ensures RowFollowsRule(GameTable2[RowIndex(3, AdvP1, a0, a1)], AdvP1, a0, a1)
    {
      assert a0 == 0 || a0 == 1 || a0 == 2;
      assert a1 == 0 || a1 == 1 || a1 == 2;
    }
  }

  /** A `to_state` entry resolves to the one-hot vector of the named
      state's position. */
  lemma TargetResolves(t: nat)
    requires t < 3
    ensures Distribution(Target(StateLabels[t]), StateLabels) == Some(OneHot(3, t))
  {
    IndexOfDistinct(StateLabels, t);
  }

  /** A row that follows the rule is the array game's row for its
      profile, whichever way it gives the next state. */
  lemma RuleRowMatchesArrays(row: Row, s: nat, a0: nat, a1: nat)
    requires s < 3 && a0 < 3 && a1 < 3
    requires RowFollowsRule(row, s, a0, a1)
    ensures RowMatches(row, StateLabels, ActionLabels, ArrayGame, s, a0, a1)
  {
    ArrayGameShaped();
    PayoffsFollowRule();
    TransitionsFollowRule();
    var t := NextState(a0, a1);
    match row.next
    case Probabilities(phi) =>
      OneHotUnique(phi, Transitions[s][a0][a1], t);
    case Target(name) =>
      TargetResolves(t);
      OneHotUnique(OneHot(3, t), Transitions[s][a0][a1], t);
  }

  /** `game_table` describes the array game. */
  lemma GameTableDescribesArrays()
    ensures Describes(GameTable, StateLabels, ActionLabels, ArrayGame)
  {
    ArrayGameShaped();
    GameTableNeutralRows();
    GameTableAdvP0Rows();
    GameTableAdvP1Rows();
    forall s, a0, a1 | 0 <= s < 3 && 0 <= a0 < 3 && 0 <= a1 < 3
      ensures RowIndex(3, s, a0, a1) < |GameTable|
      ensures RowMatches(GameTable[RowIndex(3, s, a0, a1)], StateLabels, ActionLabels, ArrayGame, s, a0, a1)
    {
      RuleRowMatchesArrays(GameTable[RowIndex(3, s, a0, a1)], s, a0, a1);
    }
  }

  /** `game_table_2` describes the array game. */
  lemma GameTable2DescribesArrays()
    ensures Describes(GameTable2, StateLabels, ActionLabels, ArrayGame)
  {
    ArrayGameShaped();
    GameTable2NeutralRows();
    GameTable2AdvP0Rows();
    GameTable2AdvP1Rows();
    forall s, a0, a1 | 0 <= s < 3 && 0 <= a0 < 3 && 0 <= a1 < 3
      ensures RowIndex(3, s, a0, a1) < |GameTable2|
      ensures RowMatches(GameTable2[RowIndex(3, s, a0, a1)], StateLabels, ActionLabels, ArrayGame, s, a0, a1)
    {
      RuleRowMatchesArrays(GameTable2[RowIndex(3, s, a0, a1)], s, a0, a1);
    }
  }

  /** Both tables describe the array game and nothing else: any game read
      off either table is the array game. */
  lemma TablesDescribeArrayGame(g: Game, h: Game)
    requires Describes(GameTable, StateLabels, ActionLabels, g)
    requires Describes(GameTable2, StateLabels, ActionLabels, h)
    ensures g == ArrayGame && h == ArrayGame
  {
    GameTableDescribesArrays();
    GameTable2DescribesArrays();
    DescribesDeterminesGame(GameTable, StateLabels, ActionLabels, g, ArrayGame);
    DescribesDeterminesGame(GameTable2, StateLabels, ActionLabels, h, ArrayGame);
  }

  /** `game_table` uses probability columns throughout, `game_table_2`
      names the next state throughout. */
  lemma TableKinds()
    ensures PhiTable(GameTable) && TargetTable(GameTable2)
  {
  }

  /** Row by row the two tables name the same profile with the same
      payoffs, and the phi column holding the 1 in `game_table` is the state
      named in `game_table_2`. */
  lemma TablesAgree()
    ensures |GameTable| == |GameTable2| == 28 && GameTable[0] == GameTable2[0]
    ensures PhiTable(GameTable) && TargetTable(GameTable2)
    ensures forall k :: 1 <= k < 28 ==>
              GameTable[k].state == GameTable2[k].state &&
              GameTable[k].actions == GameTable2[k].actions &&
              GameTable[k].payoffs == GameTable2[k].payoffs &&
              GameTable2[k].next.name in StateLabels &&
              IsOneHot(GameTable[k].next.phi, IndexOf(StateLabels, GameTable2[k].next.name).value)
  {
    GameTableDescribesArrays();
    GameTable2DescribesArrays();
    TableKinds();
    forall k | 1 <= k < 28
      ensures GameTable[k].state == GameTable2[k].state
      ensures GameTable[k].actions == GameTable2[k].actions
      ensures GameTable[k].payoffs == GameTable2[k].payoffs
      ensures GameTable2[k].next.name in StateLabels
      ensures IsOneHot(GameTable[k].next.phi, IndexOf(StateLabels, GameTable2[k].next.name).value)
    {
      var s, a0, a1 := RowIndexCovers(3, 3, k);
      assert RowMatches(GameTable[k], StateLabels, ActionLabels, ArrayGame, s, a0, a1);
      assert RowMatches(GameTable2[k], StateLabels, ActionLabels, ArrayGame, s, a0, a1);
      PhiAgreesWithTarget(GameTable[k].next.phi, GameTable2[k].next.name, StateLabels,
                          Transitions[s][a0][a1]);
    }
  }
}
