# Example games of sgamesolver, modelled in Dafny

sgamesolver computes equilibria of stochastic games. A game is given by:

- one payoff array per state, indexed `[player, a_0, a_1, …]`;
- one transition array per state, indexed `[a_0, a_1, …, next_state]`;
- discount factors.

Its example scripts build such games by hand. Some also write the same game as a table (`SGame.from_table`) and check that the two agree. This project models three of those scripts and proves what they rely on. It does not model the solver.

- **Sequential price competition** (`examples/sequential_price_competition.py`), in module `PriceCompetition`.
  - Firms alternate in setting a price on a grid.
  - A state is the firm about to move plus the prices of all the other firms.
  - States are enumerated mover by mover, with the rivals' prices in `itertools.product` order.
  - The lowest price takes the whole market, and tied lowest prices split it.
  - In every state the payoff array varies only along the mover's axis. The transition moves deterministically to the state of the next mover.
  - The model takes the number of firms, the grid size, the grid's lower bound and step, and the marginal cost as parameters. `PriceCompetition.Script` holds the script's values: 2 firms, 12 prices from 0 in steps of 0.1, marginal cost 0.
  - Prices are exact reals.
  - A state identifier is the mover times `numPrices^(firms-1)` plus the rank of the rivals' price tuple in base `numPrices`. `Radix` proves that this identifier is the state's position in the enumeration.
- **Dynamic rock-paper-scissors** (`examples/dynamic_rock_paper_scissors.py`), in module `DynamicRps`.
  - The game has three states: neutral, advantage to player 0, and advantage to player 1.
  - Each state has a 3x3 zero-sum payoff array, and the transitions are the same in every state.
  - The game is also given as two tables: one with a `phi_<state>` probability column per state, and one with a single `to_state` label.
  - The arrays and both tables are transcribed as literals. Lemmas check every payoff cell, transition vector and table row against one rule (who beats whom, and who wins a Scissors tie), and prove that both tables describe exactly the array game.
- **Stag hunt** (`examples/stag_hunt.py`), in module `StagHunt`.
  - A symmetric one-shot 2x2 game and its table form.
  - The function `f` whose root is the mixed equilibrium (q = 2/3), and the equilibrium values 7 and 7.
  - Both pure equilibria.
  - A characterisation: a symmetric fully mixed profile is an equilibrium exactly when q is that root.
  - The classifier `get_eq`, both as written and as evidently intended (see Findings).

Shared modules:

- `GameTables`: the array form of a two-player game, the row layout of a game table, and what it means for a table to describe a game.
- `SeqOps`: sums, counts, minima, one-hot vectors, `np.insert` and `np.delete`.
- `Radix`: base-k digits and lexicographic order.
- `Wrappers`: `Option` and `Result`.

An array that numpy initialises to NaN is modelled as a sequence of `Option<real>` cells (`Cell`), with `None` standing for NaN.

## Model

| member | source | states |
|---|---|---|
| PriceCompetition.ScriptMarket | examples/sequential_price_competition.py:10-18 | The script's market is valid with a rising grid from 0 to `p_max` = 1.1. It has 24 states, the first being firm 0 facing price index 0 and the last firm 1 facing index 11. |
| PriceCompetition.DemandFalls | examples/sequential_price_competition.py:22-23 | Demand `d(p) = 2 - p` falls as the price rises, and is positive at every price below 2. |
| PriceCompetition.Prices | examples/sequential_price_competition.py:71 | `P[a]` has one price per firm, and each is the grid price of that firm's price index. |
| SeqOps.Min | examples/sequential_price_competition.py:29 | `p.min()` is an entry of the vector and is at most every entry. |
| PriceCompetition.Tied | examples/sequential_price_competition.py:29 | The number of firms at the minimum price is at least 1 and at most the number of firms. |
| PriceCompetition.Shares | examples/sequential_price_competition.py:27-31 | Firms above the minimum price get share 0. Firms at the minimum get 1/N, where N is the number tied there. The shares sum to 1. |
| PriceCompetition.Profits | examples/sequential_price_competition.py:27-32 | There is one profit per firm. |
| PriceCompetition.ProfitIsShareOfMarket | examples/sequential_price_competition.py:31-32 | Each firm's profit is its market share times the profit (p - MC) * d(p) of serving the whole market at the lowest price. |
| PriceCompetition.ZeroShareZeroProfit | examples/sequential_price_competition.py:30-32 | A firm whose price is not the minimum gets share 0 and earns nothing. |
| PriceCompetition.EqualShareEqualProfit | examples/sequential_price_competition.py:30-32 | A firm tied at the minimum earns the market profit divided by the number tied. |
| PriceCompetition.ProfitsAboveMinimum | examples/sequential_price_competition.py:29-32 | Every firm priced above the minimum earns 0. |
| PriceCompetition.ProfitsAtMinimum | examples/sequential_price_competition.py:29-32 | Every firm at the minimum earns an equal 1/N part of the market profit. |
| PriceCompetition.ProfitsSum | examples/sequential_price_competition.py:27-32 | Profits over all firms add up to the profit of serving the whole market at the lowest price: the market is split, never created or lost. |
| PriceCompetition.SoleLowestTakesMarket | examples/sequential_price_competition.py:27-32 | A firm strictly below all the others earns the monopoly profit at its price, and every other firm earns 0. |
| PriceCompetition.IdOfStateAt | examples/sequential_price_competition.py:36-43 | The state at position id is valid, and its identifier is id. |
| PriceCompetition.StateAtIdOf | examples/sequential_price_competition.py:36-43 | Every valid state has an identifier below the number of states, and sits at that position. |
| PriceCompetition.States | examples/sequential_price_competition.py:36-43 | The enumeration has firms * numPrices^(firms-1) entries. Each is valid and sits at the position its identifier names. |
| PriceCompetition.StatesOrdered | examples/sequential_price_competition.py:37-40 | States come in increasing order: by mover first, then lexicographically by the rivals' prices, as the nested loops over `range` and `itertools.product` produce them. |
| PriceCompetition.StateAtOrdered | examples/sequential_price_competition.py:37-40 | A smaller position holds a smaller state in that order. |
| PriceCompetition.StatesComplete | examples/sequential_price_competition.py:36-41 | A state is enumerated exactly when it has a mover in range and firms-1 rival prices on the grid. |
| PriceCompetition.EnumerateStates | examples/sequential_price_competition.py:36-41 | The loop over movers and rival tuples builds exactly the enumeration `States`. |
| PriceCompetition.AppendMoverBlock | examples/sequential_price_competition.py:38-40 | Appending one mover's block of rival tuples keeps every state at its own position. |
| PriceCompetition.StateAtBlock | examples/sequential_price_competition.py:37-40 | Position i * K + r, with K = numPrices^(firms-1), holds the state of mover i whose rival prices are the base-numPrices digits of r. |
| PriceCompetition.AppendNextState | examples/sequential_price_competition.py:40 | Appending the state that belongs at the next position keeps the list positional. |
| PriceCompetition.StatesByPosition | examples/sequential_price_competition.py:36-41 | A full-length list with every state at its position is the enumeration. |
| PriceCompetition.GetState | examples/sequential_price_competition.py:47-48 | A lookup by identifier succeeds exactly for identifiers below the number of states. It returns a valid state carrying that identifier. |
| PriceCompetition.GetStateId | examples/sequential_price_competition.py:51-55 | The search returns None exactly when the state is not in the enumeration. Otherwise it returns that state's identifier. |
| PriceCompetition.GetStateIdOfGetState | examples/sequential_price_competition.py:47-55 | Looking up the state of an identifier and then searching for it returns the identifier. |
| PriceCompetition.GetStateOfGetStateId | examples/sequential_price_competition.py:47-55 | Searching for a valid state finds it, and looking up the identifier found returns the state. |
| PriceCompetition.Successor | examples/sequential_price_competition.py:79-81 | After the mover sets a price, the next firm in turn moves, and the new state holds firms-1 rival prices. |
| PriceCompetition.FullProfile | examples/sequential_price_competition.py:70-79 | The full profile `np.insert(a_not_i, i, a_profile[i])` has one more entry than the rivals, with the mover's chosen price at the mover's position. |
| PriceCompetition.FullProfileRestoresRivals | examples/sequential_price_competition.py:70-79 | Deleting the mover's entry from the full profile gives back the rival prices of the state. |
| PriceCompetition.SuccessorRestoresProfile | examples/sequential_price_competition.py:79-81 | Inserting the next mover's price back into the next state's rival prices gives the full price profile of the move: `np.delete` and `np.insert` are inverse. |
| PriceCompetition.SuccessorValid | examples/sequential_price_competition.py:79-82 | The next state is in the enumeration exactly when the price chosen is on the grid (or there is only one firm, whose next state has no rivals). |
| PriceCompetition.SuccessorTwoFirms | examples/sequential_price_competition.py:79-81 | With two firms, the only rival price in the next state is the price just chosen. |
| PriceCompetition.SuccessorEnumerated | examples/sequential_price_competition.py:79-82 | For a grid price, the search for the next state succeeds. |
| PriceCompetition.TransitionProbs | examples/sequential_price_competition.py:77-85 | When the next state is found, the vector is one-hot at its identifier and sums to 1. When the search returns None, numpy's `probs[None] = 1` sets every entry to 1. |
| SeqOps.OneHot | examples/sequential_price_competition.py:83-84 | `probs = np.zeros(...)` followed by `probs[s_next] = 1` has the requested length, is 1 exactly at `s_next` and 0 elsewhere, and sums to 1. |
| PriceCompetition.TransitionReadsMoverOnly | examples/sequential_price_competition.py:77-79 | Only the mover's entry of the action profile affects the transition. |
| PriceCompetition.ShapeIsMoverPrice | examples/sequential_price_competition.py:63-65 | An index fits the state's array shape exactly when it is the mover's grid price with 0 for every other firm. |
| PriceCompetition.ActionDims | examples/sequential_price_competition.py:63-65 | `a_dims` has one axis per firm: the mover's axis has one entry per grid price, and every other axis has length 1. |
| PriceCompetition.ActionCount | examples/sequential_price_competition.py:63-68 | A state's array shape has exactly `num_prices` cells, so `np.ndindex(a_dims)` visits one action profile per grid price of the mover. |
| SeqOps.ProductOfUnits | examples/sequential_price_competition.py:63-65 | A shape whose axes are all 1 except axis i has as many cells as axis i is long. |
| PriceCompetition.PayoffMatrix | examples/sequential_price_competition.py:58-73 | Every cell of the NaN-initialised array is filled. The cell of firm j and mover price p holds firm j's profit at the full price profile of that move. |
| PriceCompetition.ProfilePrices | examples/sequential_price_competition.py:69-71 | In the price vector of a payoff cell, the mover quotes the chosen grid price, and every other firm quotes the grid price the state records for it. |
| PriceCompetition.PayoffIsShareOfMarket | examples/sequential_price_competition.py:69-72 | The payoff cell `Pi(P[a])[j]` is 0 when firm j's price in the full profile is above the lowest price. When firm j is tied at the lowest price, it is the whole-market profit at that price divided by the number of tied firms. |
| PriceCompetition.PayoffRow | examples/sequential_price_competition.py:67-72 | One firm's row of the payoff array, with every grid price filled with that firm's profit. |
| PriceCompetition.NextId | examples/sequential_price_competition.py:79-82 | The identifier the search finds for a grid move names the successor state. |
| PriceCompetition.GridMoveDistribution | examples/sequential_price_competition.py:77-85 | A grid move yields the vector that is 1 at the successor's identifier and 0 elsewhere. |
| PriceCompetition.TransitionMatrix | examples/sequential_price_competition.py:89-97 | Every cell of the NaN-initialised array is filled. The row for mover price p is the deterministic distribution on the successor state. |
| PriceCompetition.TransitionRow | examples/sequential_price_competition.py:95-96 | One row of the transition array is 1 at the successor's identifier and 0 elsewhere. |
| PriceCompetition.UndercutIsUniqueMinimum | examples/sequential_price_competition.py:13-18 | On an increasing grid, a mover strictly below every rival sets the unique minimum price. |
| PriceCompetition.PriceIncreasing | examples/sequential_price_competition.py:14-18 | With a positive step, a higher grid index gives a higher price. |
| PriceCompetition.UndercutTakesMarket | examples/sequential_price_competition.py:58-73 | In the payoff array, an undercutting mover earns the monopoly profit and every rival earns 0. |
| PriceCompetition.TieSplitsMarket | examples/sequential_price_competition.py:58-73 | When the mover matches a price that every rival charges, each firm earns 1/firms of the monopoly profit. |
| DynamicRps.PayoffsFollowRule | examples/dynamic_rock_paper_scissors.py:10-43 | Every payoff in the arrays follows the rule: the winner gets 1, the loser -1, and a tie 0. In the advantage states, the player with the advantage wins a Scissors tie. |
| DynamicRps.ZeroSum | examples/dynamic_rock_paper_scissors.py:23-43 | In every state and profile, the two payoffs sum to 0. |
| DynamicRps.AdvantageOnlyAtScissorsTie | examples/dynamic_rock_paper_scissors.py:30-43 | The three states differ only at (Scissors, Scissors). There the neutral state pays 0/0, adv_p0 pays 1/-1 and adv_p1 pays -1/1. |
| DynamicRps.TransitionsFollowRule | examples/dynamic_rock_paper_scissors.py:17-54 | Each transition vector is one-hot at the rule's next state and sums to 1. The next state is neutral when both or neither played Scissors, and otherwise the advantage goes to the Scissors player. |
| DynamicRps.ArrayGameShaped | examples/dynamic_rock_paper_scissors.py:23-60 | The arrays give a game with 3 states, 2 players and 3 actions each. |
| DynamicRps.GameTableNeutralRows | examples/dynamic_rock_paper_scissors.py:69-77 | The phi table's neutral rows carry the rule's labels, payoffs and next-state column. |
| DynamicRps.GameTableAdvP0Rows | examples/dynamic_rock_paper_scissors.py:79-87 | The phi table's adv_p0 rows follow the rule. |
| DynamicRps.GameTableAdvP1Rows | examples/dynamic_rock_paper_scissors.py:89-97 | The phi table's adv_p1 rows follow the rule. |
| DynamicRps.GameTable2NeutralRows | examples/dynamic_rock_paper_scissors.py:107-115 | The to_state table's neutral rows follow the rule. |
| DynamicRps.GameTable2AdvP0Rows | examples/dynamic_rock_paper_scissors.py:117-125 | The to_state table's adv_p0 rows follow the rule. |
| DynamicRps.GameTable2AdvP1Rows | examples/dynamic_rock_paper_scissors.py:127-135 | The to_state table's adv_p1 rows follow the rule. |
| DynamicRps.TargetResolves | examples/dynamic_rock_paper_scissors.py:106-136 | A `to_state` label names the one-hot distribution on that state. |
| DynamicRps.RuleRowMatchesArrays | examples/dynamic_rock_paper_scissors.py:23-54 | A row that follows the rule is the row of that profile of the array game. |
| DynamicRps.GameTableDescribesArrays | examples/dynamic_rock_paper_scissors.py:68-103 | The phi table describes the array game, including the discount 0.95 of both players. |
| DynamicRps.GameTable2DescribesArrays | examples/dynamic_rock_paper_scissors.py:106-140 | The to_state table describes the array game. |
| DynamicRps.TablesDescribeArrayGame | examples/dynamic_rock_paper_scissors.py:101-103 | Any game either table describes is the array game, so both equality assertions hold. |
| DynamicRps.TableKinds | examples/dynamic_rock_paper_scissors.py:68-136 | The first table gives phi columns on every row, and the second gives a to_state label on every row. |
| DynamicRps.TablesAgree | examples/dynamic_rock_paper_scissors.py:68-136 | The two tables have 28 rows and share the delta row, labels and payoffs row by row. Each phi row is one-hot at the state the matching to_state row names. |
| GameTables.Distribution | examples/dynamic_rock_paper_scissors.py:106-136 | A target label gives a distribution exactly when it names a known state, and then it is one-hot there. |
| GameTables.TargetIsOneHotPhi | examples/dynamic_rock_paper_scissors.py:68-136 | A target row and a phi row give the same distribution exactly when the phi row is one-hot at the target. |
| GameTables.PhiAgreesWithTarget | examples/dynamic_rock_paper_scissors.py:68-136 | A phi row and a target row with the same distribution name the same state. |
| GameTables.RowIndexInjective | examples/dynamic_rock_paper_scissors.py:68-99 | Distinct (state, action 0, action 1) profiles occupy distinct rows of a table. |
| GameTables.RowIndexCovers | examples/dynamic_rock_paper_scissors.py:68-99 | Every row after the delta row belongs to some profile. |
| GameTables.DescribesDeterminesGame | examples/dynamic_rock_paper_scissors.py:101-103 | A table describes at most one game, so two games read from one table are equal. |
| Radix.Digits | examples/sequential_price_competition.py:38-39 | The rival tuple of rank r has firms-1 entries, each a valid price index. |
| Radix.RankOfDigits | examples/sequential_price_competition.py:38-39 | Ranking the digits of r gives r back. |
| Radix.DigitsOfRank | examples/sequential_price_competition.py:38-39 | Taking the digits of a tuple's rank gives the tuple back. |
| Radix.RankBound | examples/sequential_price_competition.py:38-39 | The rank of a tuple of length n is below k^n. |
| Radix.LexRank | examples/sequential_price_competition.py:38-39 | A lexicographically smaller tuple has a smaller rank. |
| Radix.DigitsLexOrdered | examples/sequential_price_competition.py:38-39 | Smaller ranks give lexicographically smaller tuples, matching `itertools.product` order. |
| SeqOps.IndexOf | examples/sequential_price_competition.py:52-55 | The first-match search returns None exactly when the item is absent. Otherwise it returns a position holding the item, with no earlier position holding it. |
| SeqOps.Insert | examples/sequential_price_competition.py:70 | `np.insert(xs, i, v)` has one more entry, `v` at position `i`, the entries before `i` unchanged and the rest shifted up by one. |
| SeqOps.Delete | examples/sequential_price_competition.py:81 | `np.delete(xs, j)` has one entry fewer, the entries before `j` unchanged and the rest shifted down by one. |
| SeqOps.InsertDelete | examples/sequential_price_competition.py:79-81 | Deleting an entry that was just inserted gives the original sequence. |
| SeqOps.DeleteInsert | examples/sequential_price_competition.py:79-81 | Re-inserting a deleted entry at its position gives the original sequence. |
| SeqOps.UniqueMinimum | examples/sequential_price_competition.py:29 | An entry strictly below all the others is the minimum, and only it attains the minimum. |
| SeqOps.SumIndicator | examples/sequential_price_competition.py:30 | A vector that is c where p equals x and 0 elsewhere sums to (count of x in p) * c. |
| StagHunt.Symmetric | examples/stag_hunt.py:19-25 | Player 1's payoffs are player 0's with the actions swapped. |
| StagHunt.ExpectedSymmetric | examples/stag_hunt.py:19-25 | Player 1's expected payoff equals player 0's with the strategies swapped. |
| StagHunt.Mix | examples/stag_hunt.py:97-98 | (q, 1-q) is a mixed strategy when 0 <= q <= 1. |
| StagHunt.Pure | examples/stag_hunt.py:19-22 | A pure strategy is a mixed strategy that puts weight 1 on its action. |
| StagHunt.PureAgainstMix | examples/stag_hunt.py:90-91 | Against (q, 1-q), Stag earns 9q+1 and Hare earns 3q+5. |
| StagHunt.F | examples/stag_hunt.py:90-91 | f(q) = 6q - 4. |
| SeqOps.Dot2 | examples/stag_hunt.py:91 | `np.dot` of two length-2 vectors is `u0*v0 + u1*v1`. |
| StagHunt.FIsPayoffDifference | examples/stag_hunt.py:90-91 | f is Stag's expected payoff minus Hare's against (q, 1-q). |
| StagHunt.IndifferenceRoot | examples/stag_hunt.py:94-95 | The root found on the bracket is a zero of f strictly between 0 and 1, as the assertion demands. |
| StagHunt.BracketHasUniqueRoot | examples/stag_hunt.py:94 | f changes sign on [1e-9, 1-1e-9], and 2/3 is its only root. |
| StagHunt.MixedValues | examples/stag_hunt.py:97-107 | At the mixed profile, both players expect 7. |
| StagHunt.PureDeviations | examples/stag_hunt.py:103 | A profile is a Nash equilibrium (no gain from any mixed deviation) exactly when neither player gains by switching to either pure action. |
| StagHunt.ExpectedLinear | examples/stag_hunt.py:90-91 | A player's expected payoff from a mix is the weighted sum of the payoffs of the two pure actions. |
| StagHunt.PureBoundsMixes | examples/stag_hunt.py:103 | When neither pure action earns more than a bound against a strategy, no mixed strategy does. |
| StagHunt.StagStagIsNash | examples/stag_hunt.py:117-121 | (Stag, Stag) is an equilibrium with values 10 and 10. |
| StagHunt.HareHareIsNash | examples/stag_hunt.py:81-85 | (Hare, Hare) is an equilibrium with values 5 and 5. |
| StagHunt.MixAverages | examples/stag_hunt.py:90-91 | Playing (q, 1-q) against itself earns the q-weighted average of the two pure payoffs. |
| StagHunt.SymmetricMixIsNashIff | examples/stag_hunt.py:90-103 | A symmetric fully mixed profile (q, 1-q) is an equilibrium exactly when q is the root of f. |
| StagHunt.OneShot | examples/stag_hunt.py:27 | The one-shot game has one state, the given payoffs, discount 0 and no continuation. |
| StagHunt.GameTableDescribesOneShot | examples/stag_hunt.py:35-45 | The table describes the one-shot game of the payoff array, and no other game. |
| StagHunt.Flatten | examples/stag_hunt.py:143 | The flattened profile lists player 0's strategy, then player 1's. |
| StagHunt.ProfileOf | examples/stag_hunt.py:148-156 | Each equilibrium name stands for a profile of four entries whose two halves are mixed strategies of the two players. |
| StagHunt.GetEqAsWritten | examples/stag_hunt.py:148-156 | As written: 'hare' and 'stag' exactly for their vectors. A length other than 1 or 4 is a shape error. Any other vector reaches the one-argument `allclose` call and raises, so 'mixed' is never returned. |
| StagHunt.GetEq | examples/stag_hunt.py:148-156 | As intended: each name is returned exactly for its own vector. A shape error is returned exactly for lengths other than 1 and 4, and 'unknown equilibrium' for every other vector. |
| StagHunt.NamedProfilesAreEquilibria | examples/stag_hunt.py:148-156 | Every profile the corrected classifier names is a Nash equilibrium. |
| StagHunt.MixedVectorIsMisclassified | examples/stag_hunt.py:153 | The flattened mixed equilibrium is named 'mixed' by the corrected classifier, but makes the classifier as written raise. |

## Left out

- The solver itself is not part of this model: `SGame`, its homotopies (`QRE`, `LogTracing`), `solve_game`, `sigma_V_t_to_y` and `H`. So are the random-prior sweep of the stag hunt and the QRE plots.
- `SGame.from_table` and `SGame.one_shot_game` are library code and are not part of this model. Instead, `GameTables.Describes` reads a table by position: a delta row, then one row per (state, a_0, a_1) in that nested order. `StagHunt.OneShot` states what a one-shot game is: one state, discount 0, no transitions.
- `assert_games_equal` (examples/_helpers.py:14-17) compares payoffs, transitions (`phi`) and discount factors with `np.allclose`. It is modelled as exact equality of two `GameTables.Game` values, the game built from arrays and the game a table describes.
- `check_equilibrium` and `get_values` are library code. `StagHunt.IsNash` is the equilibrium condition: no player gains by any mixed deviation. `StagHunt.PureDeviations` proves that comparing with the two pure replies, as a best-reply check does, decides it. `StagHunt.Expected` is the value `get_values` computes.
- Printing, plotting and the timing helpers are not modelled.
- Floating point is not modelled. Prices, payoffs and probabilities are exact reals. The grid `np.linspace(p_min, p_max, num_prices)` becomes `pMin + k * pStep`, and `num_prices` is a parameter rather than the result of `int(1 + (p_max-p_min)/p_step)`. In floating point that expression yields 12, which `PriceCompetition.Script` records.
- `scipy.optimize.brentq` is replaced by the exact root 2/3 of f. `np.allclose` and `round(4)` become exact equality.
- PriceCompetition.GetStateId: the comparison `state_ == state` compares a Python int and a numpy array inside tuples. Its truth value is that of the elementwise comparison of the price arrays, so it behaves as state equality only with exactly one rival, that is, with two firms as in the script. With more firms numpy raises, because the truth value of a longer array is ambiguous. With one firm the script never reaches `get_stateID`: it stops at line 100 while building the payoff matrices (see the `PriceCompetition.PayoffMatrix` line below), before `transition_probs` is ever called. Had it got there, the empty rival arrays would compare as false (or raise, in recent numpy), and the search would never find `(0, [])`. The model instead compares whole states: with one firm it finds state 0, and `PriceCompetition.SuccessorValid` relies on that for its one-firm case.
- PriceCompetition.PayoffMatrix: with one firm the source raises and the model does not. `itertools.product(..., repeat=0)` yields the empty tuple, so `np.array(())` is an empty float array (line 40), and `np.insert` (line 70) gives a float index array. Indexing `P[a]` at line 71 with it raises IndexError, so the list at line 100 is never built. The model takes price indices as natural numbers whatever the number of firms, and returns the profits of the single firm. This one-firm error path is not modelled.
- The price game is not assembled into a `GameTables.Game`, so its common discount factor 0.95 (line 102), which `SGame` broadcasts to every firm, is not part of the model.
- PriceCompetition.PayoffMatrix: the array of shape `(firms,) + a_dims` is flattened to one row per firm, indexed by the mover's price. `PriceCompetition.ShapeIsMoverPrice` proves that this loses nothing, because every index of that shape is the mover's price with 0 for the dummy actions.
- PriceCompetition.TransitionMatrix: the array of shape `a_dims + (num_states,)` is likewise flattened to one row per mover price, indexed `[p][t]`. The dummy axes of the other firms, each of length 1, are dropped (see `PriceCompetition.ShapeIsMoverPrice`).
- PriceCompetition.Profits: its own contract gives only the length. The economic content is in the lemmas beside it (`ProfitIsShareOfMarket`, `ProfitsSum`, `ProfitsAboveMinimum`, `ProfitsAtMinimum`, `SoleLowestTakesMarket`).
- The integer payoffs of the rock-paper-scissors and stag hunt arrays are modelled as reals, like every other number in the game arrays.

## Findings

| source | as written | input that shows it | evidently intended | confidence | as-written member | corrected member |
|---|---|---|---|---|---|---|
| examples/stag_hunt.py:153 | The third branch of `get_eq` calls `np.allclose` with only one argument. Any vector that is neither the hare nor the stag profile raises a `TypeError` instead of being compared with the mixed profile. | any length-4 vector other than the hare and stag profiles. Examples are the exact mixed profile `[2/3, 1/3, 2/3, 1/3]`, and the rounded `[0.6667, 0.3333, 0.6667, 0.3333]` that line 143 would give for a run ending at the mixed equilibrium | compare `strat` with the mixed profile `[2/3, 1/3, 2/3, 1/3]` and return 'mixed' on a match. With the default `allclose` tolerances even the fixed line would reject the 4-digit rounded vector, so it also needs a looser tolerance | not executed | StagHunt.GetEqAsWritten (counterexample: StagHunt.MixedVectorIsMisclassified) | StagHunt.GetEq (property: StagHunt.NamedProfilesAreEquilibria) |
