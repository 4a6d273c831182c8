/** Alternating-move price competition (examples/sequential_price_competition.py).

    Firms take turns setting a price on a common grid.  A state records whose
    turn it is and the price indices of the other firms; the firm to move
    picks a price, earns its stage profit against the standing prices, and
    the turn passes to the next firm.  Demand is `2 - p` and is shared equally
    among the firms quoting the lowest price. */
module PriceCompetition {
  import opened Wrappers
  import opened SeqOps
  import opened Radix

  /** Number of firms, size of the price grid, the grid's first price and
      spacing, and the marginal cost. */
  datatype Market = Market(firms: nat, numPrices: nat, pMin: real, pStep: real, mc: real)

  predicate ValidMarket(m: Market)
  {
    m.firms >= 1 && m.numPrices >= 1
  }

  /** The script's market: two firms, zero marginal cost and the twelve
      prices 0, 0.1, ..., 1.1. */
  const Script: Market := Market(2, 12, 0.0, 0.1, 0.0)

  /** The script's market: prices 0 to `p_max` = 1.1 on a rising grid, 24
      states, running from firm 0 facing price 0 to firm 1 facing 1.1. */
  lemma ScriptMarket()
    ensures ValidMarket(Script) && Script.pStep > 0.0
    ensures Price(Script, 0) == 0.0 && Price(Script, Script.numPrices - 1) == 1.1
    ensures NumStates(Script) == 24
    ensures StateAt(Script, 0) == State(0, [0])
    ensures StateAt(Script, 23) == State(1, [11])
  {
  }

  /** The grid price with index `a`. */
  function Price(m: Market, a: nat): real
  {
    m.pMin + a as real * m.pStep
  }

  /** The price vector for a vector of price indices (numpy's `P[a]`). */
  function Prices(m: Market, a: seq<nat>): (r: seq<real>)
    ensures |r| == |a|
    ensures forall j :: 0 <= j < |a| ==> r[j] == Price(m, a[j])
  {
    seq(|a|, j requires 0 <= j < |a| => Price(m, a[j]))
  }

  /** Market demand at price `p`. */
  function Demand(p: real): real
  {
    2.0 - p
  }

  /** Demand falls as the price rises and is positive below a price of 2,
      so every price on the script's grid sells. */
  lemma DemandFalls(p: real, q: real)
    ensures p < q ==> Demand(q) < Demand(p)
    ensures p < 2.0 ==> Demand(p) > 0.0
  {
  }

  // ---------------------------------------------------------------------
  // Stage profits
  // ---------------------------------------------------------------------

  /** Number of firms quoting the lowest price (`N`). */
  function Tied(p: seq<real>): (n: nat)
    requires |p| > 0
    ensures 1 <= n <= |p|
  {
    CountPositive(p, Min(p));
    Count(p, Min(p))
  }

  /** Market shares: the firms at the lowest price split the market
      equally, every other firm sells nothing. */
  function Shares(p: seq<real>): (s: seq<real>)
    requires |p| > 0
    ensures |s| == |p|
    ensures forall j :: 0 <= j < |p| && p[j] > Min(p) ==> s[j] == 0.0
    ensures forall j :: 0 <= j < |p| && p[j] == Min(p) ==> s[j] == 1.0 / Tied(p) as real
    ensures Sum(s) == 1.0
  {
    var lo := Min(p);
    var c := 1.0 / Tied(p) as real;
    var s := seq(|p|, j requires 0 <= j < |p| => if p[j] == lo then c else 0.0);
    ReciprocalCancels(Tied(p) as real, c);
    SumIndicatorUnit(p, lo, c, s);
    s
  }

  lemma ReciprocalCancels(n: real, c: real)
    requires n != 0.0 && c == 1.0 / n
    ensures n * c == 1.0
  {
  }

  /** Stage profit of every firm for the price vector `p` (`Pi`): margin
      times the firm's share of demand. */
  function Profits(m: Market, p: seq<real>): (r: seq<real>)
    requires |p| > 0
    ensures |r| == |p|
  {
    var s := Shares(p);
    seq(|p|, j requires 0 <= j < |p| => (p[j] - m.mc) * (s[j] * Demand(p[j])))
  }

  /** The profit of a firm that serves the whole market at price `q`. */
  function Monopoly(m: Market, q: real): real
  {
    (q - m.mc) * Demand(q)
  }

  /** The profit a single firm would make serving the whole market at the
      lowest quoted price. */
  function MarketProfit(m: Market, p: seq<real>): real
    requires |p| > 0
  {
    Monopoly(m, Min(p))
  }

  lemma Reassociate(a: real, x: real, d: real)
    ensures a * (x * d) == (a * d) * x
  {
  }

  lemma MulZero(a: real, x: real)
    requires x == 0.0
    ensures a * x == 0.0
  {
  }

  lemma MulReciprocal(a: real, x: real, n: real)
    requires n != 0.0 && x == 1.0 / n
    ensures a * x == a / n
  {
  }

  /** Every firm's profit is its share of the market profit. */
  lemma ProfitIsShareOfMarket(m: Market, p: seq<real>, j: nat)
    requires j < |p|
    ensures Profits(m, p)[j] == MarketProfit(m, p) * Shares(p)[j]
  {
    var s := Shares(p);
    var lo := Min(p);
    assert Profits(m, p)[j] == (p[j] - m.mc) * (s[j] * Demand(p[j]));
    if p[j] == lo {
      Reassociate(lo - m.mc, s[j], Demand(lo));
    } else {
      assert s[j] == 0.0;
    }
  }

  /** A firm priced above the minimum has no share and earns nothing. */
  lemma ZeroShareZeroProfit(m: Market, p: seq<real>, j: nat)
    requires j < |p| && p[j] != Min(p)
    ensures Profits(m, p)[j] == 0.0
  {
    var share := Shares(p)[j];
    assert share == 0.0;
    ProfitIsShareOfMarket(m, p, j);
    MulZero(MarketProfit(m, p), share);
  }

  /** A firm holding an equal share of the tie earns that part of the
      market profit. */
  lemma EqualShareEqualProfit(m: Market, p: seq<real>, j: nat)
    requires j < |p| && Shares(p)[j] == 1.0 / Tied(p) as real
    ensures Profits(m, p)[j] == MarketProfit(m, p) / Tied(p) as real
  {
    ProfitIsShareOfMarket(m, p, j);
    MulReciprocal(MarketProfit(m, p), Shares(p)[j], Tied(p) as real);
  }

  /** A firm priced above the lowest price earns nothing. */
  lemma ProfitsAboveMinimum(m: Market, p: seq<real>)
    requires |p| > 0
    ensures forall j :: 0 <= j < |p| && p[j] > Min(p) ==> Profits(m, p)[j] == 0.0
  {
    forall j | 0 <= j < |p| && p[j] > Min(p)
      ensures Profits(m, p)[j] == 0.0
    {
      ZeroShareZeroProfit(m, p, j);
    }
  }

  /** The firms at the lowest price split the market profit equally. */
  lemma ProfitsAtMinimum(m: Market, p: seq<real>)
    requires |p| > 0
    ensures forall j :: 0 <= j < |p| && p[j] == Min(p) ==>
              Profits(m, p)[j] == MarketProfit(m, p) / Tied(p) as real
  {
    forall j | 0 <= j < |p| && p[j] == Min(p)
      ensures Profits(m, p)[j] == MarketProfit(m, p) / Tied(p) as real
    {
      EqualShareEqualProfit(m, p, j);
    }
  }

  /** Industry profit equals the market profit at the lowest price: the
      shares add up to one. */
  lemma ProfitsSum(m: Market, p: seq<real>)
    requires |p| > 0
    ensures Sum(Profits(m, p)) == MarketProfit(m, p)
  {
    var s, r, c := Shares(p), Profits(m, p), MarketProfit(m, p);
    forall j | 0 <= j < |p|
      ensures r[j] == c * s[j]
    {
      ProfitIsShareOfMarket(m, p, j);
    }
    SumScale(s, c, r);
  }

  /** A firm quoting strictly below every other firm earns the monopoly
      profit at its price and every other firm earns nothing. */
  lemma SoleLowestTakesMarket(m: Market, v: seq<real>, k: nat)
    requires k < |v|
    requires forall j :: 0 <= j < |v| && j != k ==> v[j] > v[k]
    ensures Profits(m, v)[k] == Monopoly(m, v[k])
    ensures forall j :: 0 <= j < |v| && j != k ==> Profits(m, v)[j] == 0.0
  {
    UniqueMinimum(v, k);
    assert Tied(v) == 1;
    assert Shares(v)[k] == 1.0;
    ProfitIsShareOfMarket(m, v, k);
    forall j | 0 <= j < |v| && j != k
      ensures Profits(m, v)[j] == 0.0
    {
      assert v[j] > Min(v);
      ZeroShareZeroProfit(m, v, j);
    }
  }

  // ---------------------------------------------------------------------
  // State space
  // ---------------------------------------------------------------------

  /** A state: the firm to move and the price indices of the other firms,
      in firm order with the mover left out. */
  datatype State = State(mover: nat, rivals: seq<nat>)

  predicate ValidState(m: Market, st: State)
  {
    st.mover < m.firms && |st.rivals| == m.firms - 1 && AllBelow(st.rivals, m.numPrices)
  }

  /** Number of rival price tuples, `numPrices^(firms - 1)`. */
  function RivalTuples(m: Market): nat
    requires ValidMarket(m)
  {
    Pow(m.numPrices, m.firms - 1)
  }

  function NumStates(m: Market): nat
    requires ValidMarket(m)
  {
    m.firms * RivalTuples(m)
  }

  /** The state with id `id`: ids count through the rival tuples of firm 0,
      then those of firm 1, and so on, each block in the order of
      `itertools.product`. */
  function StateAt(m: Market, id: nat): State
    requires ValidMarket(m) && id < NumStates(m)
  {
    var K := RivalTuples(m);
    State(id / K, Digits(id % K, m.numPrices, m.firms - 1))
  }

  /** The id of a valid state, in closed form. */
  function IdOf(m: Market, st: State): nat
    requires ValidMarket(m) && ValidState(m, st)
  {
    st.mover * RivalTuples(m) + Rank(st.rivals, m.numPrices)
  }

  lemma IdOfStateAt(m: Market, id: nat)
    requires ValidMarket(m) && id < NumStates(m)
    ensures ValidState(m, StateAt(m, id))
    ensures IdOf(m, StateAt(m, id)) == id
  {
    var K := RivalTuples(m);
    BlockSplit(id, m.firms, K);
    RankOfDigits(id % K, m.numPrices, m.firms - 1);
  }

  lemma StateAtIdOf(m: Market, st: State)
    requires ValidMarket(m) && ValidState(m, st)
    ensures IdOf(m, st) < NumStates(m)
    ensures StateAt(m, IdOf(m, st)) == st
  {
    DigitsOfRank(st.rivals, m.numPrices);
    BlockJoin(st.mover, Rank(st.rivals, m.numPrices), m.firms, RivalTuples(m));
  }

  /** The enumerated state space; position `id` holds the state with id `id`. */
  function States(m: Market): (r: seq<State>)
    requires ValidMarket(m)
    ensures |r| == NumStates(m)
    ensures forall id :: 0 <= id < |r| ==> ValidState(m, r[id]) && IdOf(m, r[id]) == id
  {
    var r := seq(NumStates(m), id requires 0 <= id < NumStates(m) => StateAt(m, id));
    assert forall id :: 0 <= id < |r| ==> ValidState(m, r[id]) && IdOf(m, r[id]) == id by {
      forall id | 0 <= id < |r|
        ensures ValidState(m, r[id]) && IdOf(m, r[id]) == id
      {
        IdOfStateAt(m, id);
      }
    }
    r
  }

  /** Order of the enumeration: by mover, then lexicographically by the
      rivals' prices. */
  predicate StateLess(a: State, b: State)
  {
    a.mover < b.mover || (a.mover == b.mover && LexLess(a.rivals, b.rivals))
  }

  /** The enumeration is strictly increasing, hence free of duplicates. */
  lemma StatesOrdered(m: Market)
    requires ValidMarket(m)
    ensures forall a, b :: 0 <= a < b < |States(m)| ==> StateLess(States(m)[a], States(m)[b])
  {
    forall a, b | 0 <= a < b < |States(m)|
      ensures StateLess(States(m)[a], States(m)[b])
    {
      StateAtOrdered(m, a, b);
    }
  }

  lemma StateAtOrdered(m: Market, a: nat, b: nat)
    requires ValidMarket(m) && a < b < NumStates(m)
    ensures StateLess(StateAt(m, a), StateAt(m, b))
  {
    var K := RivalTuples(m);
    DivMonotone(a, b, K);
    if a / K == b / K {
      assert a % K != b % K;
      DigitsLexOrdered(a % K, b % K, m.numPrices, m.firms - 1);
    }
  }

  /** Exactly the valid states are enumerated. */
  lemma StatesComplete(m: Market, st: State)
    requires ValidMarket(m)
    ensures st in States(m) <==> ValidState(m, st)
  {
    if ValidState(m, st) {
      StateAtIdOf(m, st);
      assert States(m)[IdOf(m, st)] == st;
    }
  }

  /** The state-building loop: for each mover, for each rival tuple in
      product order, append the state. */
  method EnumerateStates(m: Market) returns (states: seq<State>)
    requires ValidMarket(m)
    ensures states == States(m)
  {
    var K := RivalTuples(m);
    states := [];
    for i := 0 to m.firms
      invariant |states| == i * K
      invariant Positional(m, states)
    {
      states := AppendMoverBlock(m, i, states);
      assert i * K + K == (i + 1) * K;
    }
    StatesByPosition(m, states);
  }

  /** Every position `id` of `s` holds `StateAt(m, id)`. */
  predicate Positional(m: Market, s: seq<State>)
    requires ValidMarket(m)
  {
    forall id :: 0 <= id < |s| ==> id < NumStates(m) && s[id] == StateAt(m, id)
  }

  /** The inner loop: append the states of mover `i`, one per rival tuple
      in product order. */
  method AppendMoverBlock(m: Market, i: nat, prefix: seq<State>) returns (states: seq<State>)
    requires ValidMarket(m) && i < m.firms
    requires |prefix| == i * RivalTuples(m) && Positional(m, prefix)
    ensures |states| == |prefix| + RivalTuples(m) && Positional(m, states)
  {
    var K := RivalTuples(m);
    var base := |prefix|;
    states := prefix;
    for r := 0 to K
      invariant |states| == base + r && Positional(m, states)
    {
      var st := State(i, Digits(r, m.numPrices, m.firms - 1));
      StateAtBlock(m, i, r);
      AppendNextState(m, states, st);
      states := states + [st];
    }
  }

  /** Position `r` of mover `i`'s block holds the `r`-th rival tuple. */
  lemma StateAtBlock(m: Market, i: nat, r: nat)
    requires ValidMarket(m) && i < m.firms && r < RivalTuples(m)
    ensures i * RivalTuples(m) + r < NumStates(m)
    ensures StateAt(m, i * RivalTuples(m) + r) == State(i, Digits(r, m.numPrices, m.firms - 1))
  {
    BlockJoin(i, r, m.firms, RivalTuples(m));
  }

  /** Appending the state of the next id keeps a listing positional. */
  lemma AppendNextState(m: Market, states: seq<State>, st: State)
    requires ValidMarket(m) && |states| < NumStates(m) && Positional(m, states)
    requires st == StateAt(m, |states|)
    ensures Positional(m, states + [st])
  {
  }

  /** A positional listing of full length is the enumeration. */
  lemma StatesByPosition(m: Market, s: seq<State>)
    requires ValidMarket(m) && |s| == NumStates(m) && Positional(m, s)
    ensures s == States(m)
  {
  }

  /** `get_state`: the dictionary lookup from id to state; an id outside
      the enumeration is a missing key. */
  function GetState(m: Market, id: int): (r: Option<State>)
    requires ValidMarket(m)
    ensures r.Some? <==> 0 <= id < NumStates(m)
    ensures r.Some? ==> ValidState(m, r.value) && IdOf(m, r.value) == id
  {
    if 0 <= id < NumStates(m) then Some(States(m)[id]) else None
  }

  /** `get_stateID`: linear search of the enumeration for `st`. */
  function GetStateId(m: Market, st: State): (r: Option<nat>)
    requires ValidMarket(m)
    ensures r.None? <==> !ValidState(m, st)
    ensures r.Some? ==> ValidState(m, st) && r.value == IdOf(m, st)
  {
    StatesComplete(m, st);
    var r := IndexOf(States(m), st);
    assert ValidState(m, st) ==> r == Some(IdOf(m, st)) by {
      if ValidState(m, st) {
        StateAtIdOf(m, st);
      }
    }
    r
  }

  /** Looking a state up by id and then searching for it returns the id. */
  lemma GetStateIdOfGetState(m: Market, id: int)
    requires ValidMarket(m) && 0 <= id < NumStates(m)
    ensures GetStateId(m, GetState(m, id).value) == Some(id)
  {
  }

  /** Searching for a valid state and then looking its id up returns it. */
  lemma GetStateOfGetStateId(m: Market, st: State)
    requires ValidMarket(m) && ValidState(m, st)
    ensures GetStateId(m, st).Some?
    ensures GetState(m, GetStateId(m, st).value) == Some(st)
  {
    StateAtIdOf(m, st);
  }

  // ---------------------------------------------------------------------
  // Moves
  // ---------------------------------------------------------------------

  /** The full vector of price indices once the mover has picked `price`. */
  function FullProfile(st: State, price: nat): (a: seq<nat>)
    requires st.mover <= |st.rivals|
    ensures |a| == |st.rivals| + 1
    ensures a[st.mover] == price
  {
    Insert(st.rivals, st.mover, price)
  }

  /** Dropping the mover's entry from the full profile gives back the
      rival prices the state recorded. */
  lemma FullProfileRestoresRivals(st: State, price: nat)
    requires st.mover <= |st.rivals|
    ensures Delete(FullProfile(st, price), st.mover) == st.rivals
  {
    InsertDelete(st.rivals, st.mover, price);
  }

  /** The state after the mover of `st` picks `price`: the turn passes to
      the next firm, whose own entry is dropped from the full profile. */
  function Successor(m: Market, st: State, price: nat): (next: State)
    requires ValidMarket(m) && ValidState(m, st)
    ensures next.mover == (st.mover + 1) % m.firms
    ensures |next.rivals| == m.firms - 1
  {
    var a := FullProfile(st, price);
    var i' := (st.mover + 1) % m.firms;
    State(i', Delete(a, i'))
  }

  /** Putting the new mover's standing price back into the successor's
      rivals at its own position recovers the full price profile. */
  lemma SuccessorRestoresProfile(m: Market, st: State, price: nat)
    requires ValidMarket(m) && ValidState(m, st)
    ensures var next := Successor(m, st, price);
            Insert(next.rivals, next.mover, FullProfile(st, price)[next.mover]) == FullProfile(st, price)
  {
    DeleteInsert(FullProfile(st, price), Successor(m, st, price).mover);
  }

  /** A grid price leads to a valid state; with two or more firms an
      off-grid price leads to an invalid one, because the price chosen
      stays among the next mover's rivals. */
  lemma SuccessorValid(m: Market, st: State, price: nat)
    requires ValidMarket(m) && ValidState(m, st)
    ensures ValidState(m, Successor(m, st, price)) <==> price < m.numPrices || m.firms == 1
  {
    var a := FullProfile(st, price);
    var next := Successor(m, st, price);
    if price < m.numPrices {
      assert AllBelow(a, m.numPrices);
    }
    if m.firms == 1 {
      assert next.rivals == [];
    } else {
      var at := if st.mover < next.mover then st.mover else st.mover - 1;
      assert next.rivals[at] == price;
    }
  }

  /** With two firms the next mover's only rival price is the one just
      chosen. */
  lemma SuccessorTwoFirms(m: Market, st: State, price: nat)
    requires ValidMarket(m) && m.firms == 2 && ValidState(m, st)
    ensures Successor(m, st, price).rivals == [price]
  {
    var next := Successor(m, st, price);
    if st.mover == 0 {
      assert next.mover == 1;
    } else {
      assert next.mover == 0;
    }
  }

  /** `transition_probs`: the distribution over next states when the action
      profile `a` is played in the state with id `id`; only the mover's
      entry of `a` is read.  When the successor is missing from the
      enumeration the search yields None and numpy's `probs[None] = 1`
      writes 1 into every entry. */
  function TransitionProbs(m: Market, id: nat, a: seq<nat>): (probs: seq<real>)
    requires ValidMarket(m) && id < NumStates(m) && |a| == m.firms
    ensures |probs| == NumStates(m)
    ensures var next := Successor(m, States(m)[id], a[States(m)[id].mover]);
            ValidState(m, next) ==> IsOneHot(probs, IdOf(m, next)) && Sum(probs) == 1.0
    ensures var next := Successor(m, States(m)[id], a[States(m)[id].mover]);
            !ValidState(m, next) ==> forall t :: 0 <= t < |probs| ==> probs[t] == 1.0
  {
    var st := States(m)[id];
    var next := Successor(m, st, a[st.mover]);
    match GetStateId(m, next)
    case None => seq(NumStates(m), t => 1.0)
    case Some(t) =>
      StateAtIdOf(m, next);
      OneHot(NumStates(m), t)
  }

  /** The successor of a grid move is always enumerated, so the None case of
      `transition_probs` never arises from a valid action profile. */
  lemma SuccessorEnumerated(m: Market, id: nat, price: nat)
    requires ValidMarket(m) && id < NumStates(m) && price < m.numPrices
    ensures GetStateId(m, Successor(m, States(m)[id], price)).Some?
    ensures Successor(m, States(m)[id], price) in States(m)
  {
    StatesComplete(m, Successor(m, States(m)[id], price));
  }

  /** Only the mover's entry of the action profile matters. */
  lemma TransitionReadsMoverOnly(m: Market, id: nat, a: seq<nat>, b: seq<nat>)
    requires ValidMarket(m) && id < NumStates(m) && |a| == m.firms && |b| == m.firms
    requires a[States(m)[id].mover] == b[States(m)[id].mover]
    ensures TransitionProbs(m, id, a) == TransitionProbs(m, id, b)
  {
  }

  // ---------------------------------------------------------------------
  // Action profiles and the per-state matrices
  // ---------------------------------------------------------------------

  /** `a_dims` in state with mover `i`: the mover has one action per grid
      price, every other firm a single dummy action. */
  function ActionDims(m: Market, i: nat): (dims: seq<nat>)
    ensures |dims| == m.firms
    ensures i < m.firms ==> dims[i] == m.numPrices
    ensures forall j :: 0 <= j < m.firms && j != i ==> dims[j] == 1
  {
    seq(m.firms, j => if j == i then m.numPrices else 1)
  }

  /** The state's array shape has one cell per grid price of the mover,
      so `np.ndindex(a_dims)` visits `num_prices` action profiles. */
  lemma ActionCount(m: Market, i: nat)
    requires i < m.firms
    ensures Product(ActionDims(m, i)) == m.numPrices
  {
    ProductOfUnits(ActionDims(m, i), i);
  }

  /** `a` is an index tuple of an array of shape `dims` (as from `np.ndindex`). */
  predicate InShape(a: seq<nat>, dims: seq<nat>)
  {
    |a| == |dims| && forall j :: 0 <= j < |a| ==> a[j] < dims[j]
  }

  /** The action profile in which the mover `i` picks `p` and everybody else
      plays the dummy action 0. */
  function UnitProfile(n: nat, i: nat, p: nat): seq<nat>
  {
    seq(n, j => if j == i then p else 0)
  }

  /** The index tuples of shape `a_dims` are exactly the unit profiles with
      a grid price for the mover, so the matrices can be indexed by that
      price alone. */
  lemma ShapeIsMoverPrice(m: Market, i: nat, a: seq<nat>)
    requires i < m.firms
    ensures InShape(a, ActionDims(m, i)) <==>
              |a| == m.firms && a[i] < m.numPrices && a == UnitProfile(m.firms, i, a[i])
  {
    if |a| == m.firms && a[i] < m.numPrices && a == UnitProfile(m.firms, i, a[i]) {
      assert forall j :: 0 <= j < |a| ==> a[j] < ActionDims(m, i)[j];
    }
  }

  /** An entry of a matrix built over a NaN placeholder; None is NaN. */
  type Cell = Option<real>

  /** Firm `j`'s stage profit in state `st` when the mover picks grid
      price `p`. */
  function Payoff(m: Market, st: State, j: nat, p: nat): real
    requires ValidMarket(m) && ValidState(m, st) && j < m.firms
  {
    Profits(m, Prices(m, FullProfile(st, p)))[j]
  }

  /** The price vector behind a payoff cell: the mover quotes grid price
      `p` and every rival keeps the price the state records for it. */
  lemma ProfilePrices(m: Market, st: State, p: nat)
    requires ValidMarket(m) && ValidState(m, st)
    ensures |Prices(m, FullProfile(st, p))| == m.firms
    ensures Prices(m, FullProfile(st, p))[st.mover] == Price(m, p)
    ensures forall l :: 0 <= l < m.firms && l != st.mover ==>
              Prices(m, FullProfile(st, p))[l] == Price(m, st.rivals[if l < st.mover then l else l - 1])
  {
    var a := FullProfile(st, p);
    forall l | 0 <= l < m.firms && l != st.mover
      ensures a[l] == st.rivals[if l < st.mover then l else l - 1]
    {
    }
  }

  /** Firm `j`'s payoff is its share of the market at the lowest price of
      the full profile: nothing when it is priced above that minimum, and
      an equal part of the market profit when it is tied at it. */
  lemma PayoffIsShareOfMarket(m: Market, st: State, j: nat, p: nat)
    requires ValidMarket(m) && ValidState(m, st) && j < m.firms
    ensures var v := Prices(m, FullProfile(st, p));
            (v[j] != Min(v) ==> Payoff(m, st, j, p) == 0.0) &&
            (v[j] == Min(v) ==> Payoff(m, st, j, p) == MarketProfit(m, v) / Tied(v) as real)
  {
    var v := Prices(m, FullProfile(st, p));
    if v[j] == Min(v) {
      EqualShareEqualProfit(m, v, j);
    } else {
      ZeroShareZeroProfit(m, v, j);
    }
  }

  /** `payoff_matrix`: entry `[j][p]` is firm `j`'s stage profit when the
      mover picks grid price `p`; every NaN placeholder is overwritten. */
  method PayoffMatrix(m: Market, id: nat) returns (matrix: seq<seq<Cell>>)
    requires ValidMarket(m) && id < NumStates(m)
    ensures |matrix| == m.firms
    ensures forall j :: 0 <= j < m.firms ==> |matrix[j]| == m.numPrices
    ensures forall j, p :: 0 <= j < m.firms && 0 <= p < m.numPrices ==>
              matrix[j][p] == Some(Payoff(m, States(m)[id], j, p))
  {
    var st := States(m)[id];
    matrix := seq(m.firms, j => seq(m.numPrices, p => None));
    for j := 0 to m.firms
      invariant |matrix| == m.firms
      invariant forall j' :: 0 <= j' < m.firms ==> |matrix[j']| == m.numPrices
      invariant forall j', p :: 0 <= j' < j && 0 <= p < m.numPrices ==>
                  matrix[j'][p] == Some(Payoff(m, st, j', p))
    {
      var row := PayoffRow(m, st, j, matrix[j]);
      matrix := matrix[j := row];
    }
  }

  /** The inner loop of `payoff_matrix`: overwrite firm `j`'s entry for
      every grid price of the mover. */
  method PayoffRow(m: Market, st: State, j: nat, init: seq<Cell>) returns (row: seq<Cell>)
    requires ValidMarket(m) && ValidState(m, st) && j < m.firms && |init| == m.numPrices
    ensures |row| == m.numPrices
    ensures forall p :: 0 <= p < m.numPrices ==> row[p] == Some(Payoff(m, st, j, p))
  {
    row := init;
    for p := 0 to m.numPrices
      invariant |row| == m.numPrices
      invariant forall p' :: 0 <= p' < p ==> row[p'] == Some(Payoff(m, st, j, p'))
    {
      row := row[p := Some(Payoff(m, st, j, p))];
    }
  }

  /** The id at which the enumeration lists the state reached when the
      mover of state `id` picks grid price `p`. */
  function NextId(m: Market, id: nat, p: nat): (t: nat)
    requires ValidMarket(m) && id < NumStates(m) && p < m.numPrices
    ensures t < NumStates(m) && States(m)[t] == Successor(m, States(m)[id], p)
  {
    var next := Successor(m, States(m)[id], p);
    SuccessorValid(m, States(m)[id], p);
    StateAtIdOf(m, next);
    IdOf(m, next)
  }

  /** The distribution `transition_probs` gives for the action profile in
      which the mover picks grid price `p`: all mass on the successor. */
  lemma GridMoveDistribution(m: Market, id: nat, p: nat)
    requires ValidMarket(m) && id < NumStates(m) && p < m.numPrices
    ensures var st := States(m)[id];
            var probs := TransitionProbs(m, id, UnitProfile(m.firms, st.mover, p));
            |probs| == NumStates(m) &&
            forall t :: 0 <= t < |probs| ==>
              probs[t] == if t == NextId(m, id, p) then 1.0 else 0.0
  {
    var st := States(m)[id];
    var a := UnitProfile(m.firms, st.mover, p);
    assert a[st.mover] == p;
  }

  /** `transition_matrix`: row `p` is the next-state distribution when the
      mover picks grid price `p`; every row is one-hot at the successor's id
      and every NaN placeholder is overwritten. */
  method TransitionMatrix(m: Market, id: nat) returns (matrix: seq<seq<Cell>>)
    requires ValidMarket(m) && id < NumStates(m)
    ensures |matrix| == m.numPrices
    ensures forall p :: 0 <= p < m.numPrices ==> |matrix[p]| == NumStates(m)
    ensures forall p, t :: 0 <= p < m.numPrices && 0 <= t < NumStates(m) ==>
              matrix[p][t] == Some(if t == NextId(m, id, p) then 1.0 else 0.0)
  {
    var st := States(m)[id];
    var S := NumStates(m);
    matrix := seq(m.numPrices, p => seq(S, t => None));
    for p := 0 to m.numPrices
      invariant |matrix| == m.numPrices
      invariant forall p' :: 0 <= p' < m.numPrices ==> |matrix[p']| == S
      invariant forall p', t :: 0 <= p' < p && 0 <= t < S ==>
                  matrix[p'][t] == Some(if t == NextId(m, id, p') then 1.0 else 0.0)
    {
      var row := TransitionRow(m, id, p);
      matrix := matrix[p := row];
    }
  }

  /** One assignment of `transition_matrix`: the row for the mover's grid
      price `p`, copied from `transition_probs`. */
  method TransitionRow(m: Market, id: nat, p: nat) returns (row: seq<Cell>)
    requires ValidMarket(m) && id < NumStates(m) && p < m.numPrices
    ensures |row| == NumStates(m)
    ensures forall t :: 0 <= t < NumStates(m) ==>
              row[t] == Some(if t == NextId(m, id, p) then 1.0 else 0.0)
  {
    var st := States(m)[id];
    var probs := TransitionProbs(m, id, UnitProfile(m.firms, st.mover, p));
    GridMoveDistribution(m, id, p);
    row := seq(|probs|, t requires 0 <= t < |probs| => Some(probs[t]));
  }

  // ---------------------------------------------------------------------
  // Consequences for the stage game
  // ---------------------------------------------------------------------

  /** A mover who strictly undercuts every rival quotes the unique lowest
      price. */
  lemma UndercutIsUniqueMinimum(m: Market, st: State, p: nat)
    requires ValidMarket(m) && ValidState(m, st) && m.pStep > 0.0
    requires forall j :: 0 <= j < |st.rivals| ==> p < st.rivals[j]
    ensures var v := Prices(m, FullProfile(st, p));
            Min(v) == Price(m, p) && Tied(v) == 1 &&
            forall j :: 0 <= j < |v| && j != st.mover ==> v[j] > Min(v)
  {
    var a := FullProfile(st, p);
    var v := Prices(m, a);
    var k := st.mover;
    forall j | 0 <= j < |v| && j != k
      ensures v[j] > v[k]
    {
      var r := if j < k then j else j - 1;
      assert a[j] == st.rivals[r] && a[k] == p;
      PriceIncreasing(m, p, a[j]);
    }
    UniqueMinimum(v, k);
  }

  /** A higher grid index is a strictly higher price. */
  lemma PriceIncreasing(m: Market, a: nat, b: nat)
    requires m.pStep > 0.0 && a < b
    ensures Price(m, a) < Price(m, b)
  {
    assert Price(m, b) - Price(m, a) == (b - a) as real * m.pStep;
  }

  /** A mover who strictly undercuts every rival takes the whole market and
      the rivals earn nothing. */
  lemma UndercutTakesMarket(m: Market, st: State, p: nat)
    requires ValidMarket(m) && ValidState(m, st) && m.pStep > 0.0
    requires forall j :: 0 <= j < |st.rivals| ==> p < st.rivals[j]
    ensures Payoff(m, st, st.mover, p) == Monopoly(m, Price(m, p))
    ensures forall j :: 0 <= j < m.firms && j != st.mover ==> Payoff(m, st, j, p) == 0.0
  {
    var v := Prices(m, FullProfile(st, p));
    UndercutIsUniqueMinimum(m, st, p);
    SoleLowestTakesMarket(m, v, st.mover);
  }

  /** When every firm quotes the same price the firms split the monopoly
      profit at that price equally. */
  lemma TieSplitsMarket(m: Market, st: State, p: nat)
    requires ValidMarket(m) && ValidState(m, st)
    requires forall j :: 0 <= j < |st.rivals| ==> st.rivals[j] == p
    ensures forall j :: 0 <= j < m.firms ==>
              Payoff(m, st, j, p) == Monopoly(m, Price(m, p)) / m.firms as real
  {
    var a := FullProfile(st, p);
    var v := Prices(m, a);
    forall j | 0 <= j < |v|
      ensures v[j] == Price(m, p)
    {
      var r := if j < st.mover then j else j - 1;
      assert j != st.mover ==> a[j] == st.rivals[r];
    }
    assert Min(v) == Price(m, p) by {
      assert Min(v) in v;
    }
    CountAll(v, Price(m, p));
    assert Tied(v) == m.firms;
    forall j | 0 <= j < m.firms
      ensures Payoff(m, st, j, p) == Monopoly(m, Price(m, p)) / m.firms as real
    {
      assert v[j] == Min(v);
      EqualShareEqualProfit(m, v, j);
    }
  }
}
