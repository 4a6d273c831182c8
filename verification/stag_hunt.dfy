/** The stag hunt: a symmetric one-shot game with two pure equilibria,
    (stag, stag) and (hare, hare), and one mixed equilibrium in which both
    players hunt stag with probability 2/3.  Also the classifier that names
    the equilibrium a strategy vector represents. */
module StagHunt {
  import opened Wrappers
  import opened SeqOps
  import opened GameTables

  const Stag: nat := 0
  const Hare: nat := 1

  /** `payoff_matrix[p][a0][a1]`. */
  const PayoffMatrix: seq<seq<seq<real>>> := [
    [[10.0, 1.0], [8.0, 5.0]],
    [[10.0, 8.0], [1.0, 5.0]]
  ]

  /** A strategy over the two actions. */
  predicate IsMix(x: seq<real>)
  {
    |x| == 2 && x[0] >= 0.0 && x[1] >= 0.0 && x[0] + x[1] == 1.0
  }

  /** Stag with probability `q`, hare with `1 - q`. */
  function Mix(q: real): (x: seq<real>)
    ensures 0.0 <= q <= 1.0 ==> IsMix(x)
  {
    [q, 1.0 - q]
  }

  /** The pure strategy playing action `a`. */
  function Pure(a: nat): (x: seq<real>)
    requires a < 2
    ensures IsMix(x) && x[a] == 1.0
  {
    if a == Stag then [1.0, 0.0] else [0.0, 1.0]
  }

  /** The game is symmetric: player 1's payoffs are player 0's with the
      roles of the actions swapped. */
  lemma Symmetric()
    ensures forall a0, a1 :: 0 <= a0 < 2 && 0 <= a1 < 2 ==>
              PayoffMatrix[1][a0][a1] == PayoffMatrix[0][a1][a0]
  {
    forall a0, a1 | 0 <= a0 < 2 && 0 <= a1 < 2
      ensures PayoffMatrix[1][a0][a1] == PayoffMatrix[0][a1][a0]
    {
      assert a0 == 0 || a0 == 1;
      assert a1 == 0 || a1 == 1;
    }
  }

  // ---------------------------------------------------------------------
  // Expected payoffs
  // ---------------------------------------------------------------------

  /** Player `p`'s expected payoff when player 0 plays `x` and player 1
      plays `y`. */
  function Expected(p: nat, x: seq<real>, y: seq<real>): real
    requires p < 2 && |x| == 2 && |y| == 2
  {
    x[0] * Dot(PayoffMatrix[p][0], y) + x[1] * Dot(PayoffMatrix[p][1], y)
  }

  /** Player 1's expected payoff is player 0's with the strategies swapped,
      so a symmetric profile gives both players the same value. */
  lemma ExpectedSymmetric(x: seq<real>, y: seq<real>)
    requires |x| == 2 && |y| == 2
    ensures Expected(1, x, y) == Expected(0, y, x)
  {
    Dot2(PayoffMatrix[1][0], y);
    Dot2(PayoffMatrix[1][1], y);
    Dot2(PayoffMatrix[0][0], x);
    Dot2(PayoffMatrix[0][1], x);
  }

  /** Player 0's expected payoff against `Mix(q)` from each pure action. */
  lemma PureAgainstMix(q: real)
    ensures Expected(0, Pure(Stag), Mix(q)) == 9.0 * q + 1.0
    ensures Expected(0, Pure(Hare), Mix(q)) == 3.0 * q + 5.0
  {
    Dot2(PayoffMatrix[0][0], Mix(q));
    Dot2(PayoffMatrix[0][1], Mix(q));
  }

  // ---------------------------------------------------------------------
  // The indifference condition
  // ---------------------------------------------------------------------

  /** `f`: player 0's payoff from stag minus that from hare when the
      opponent hunts stag with probability `q`. */
  function F(q: real): (r: real)
    ensures r == 6.0 * q - 4.0
  {
    Dot2(PayoffMatrix[0][0], Mix(q));
    Dot2(PayoffMatrix[0][1], Mix(q));
    Dot(PayoffMatrix[0][0], Mix(q)) - Dot(PayoffMatrix[0][1], Mix(q))
  }

  /** `f` is the difference of the expected payoffs of the two pure
      actions. */
  lemma FIsPayoffDifference(q: real)
    ensures F(q) == Expected(0, Pure(Stag), Mix(q)) - Expected(0, Pure(Hare), Mix(q))
  {
    PureAgainstMix(q);
  }

  /** The root `brentq` finds, in closed form. */
  function IndifferenceRoot(): (q: real)
    ensures F(q) == 0.0 && 0.0 < q < 1.0
  {
    2.0 / 3.0
  }

  /** `f` changes sign over the bracket `[1e-9, 1 - 1e-9]` handed to the
      root finder, and has no other root, so the root found is 2/3. */
  lemma BracketHasUniqueRoot(q: real)
    ensures F(0.000000001) < 0.0 && F(1.0 - 0.000000001) > 0.0
    ensures F(q) == 0.0 <==> q == IndifferenceRoot()
  {
  }

  /** The mixed profile at the root. */
  function MixedProfile(): seq<real>
  {
    Mix(IndifferenceRoot())
  }

  /** `get_values` for the mixed profile: both players expect 7. */
  lemma MixedValues()
    ensures Expected(0, MixedProfile(), MixedProfile()) == 7.0
    ensures Expected(1, MixedProfile(), MixedProfile()) == 7.0
  {
    var x := MixedProfile();
    Dot2(PayoffMatrix[0][0], x);
    Dot2(PayoffMatrix[0][1], x);
    ExpectedSymmetric(x, x);
  }

  // ---------------------------------------------------------------------
  // Equilibria
  // ---------------------------------------------------------------------

  /** No player gains by switching to any other mixed strategy. */
  ghost predicate IsNash(x: seq<real>, y: seq<real>)
    requires IsMix(x) && IsMix(y)
  {
    (forall z :: IsMix(z) ==> Expected(0, z, y) <= Expected(0, x, y)) &&
    (forall z :: IsMix(z) ==> Expected(1, x, z) <= Expected(1, x, y))
  }

  /** Multiplying by a non-negative weight keeps an inequality. */
  lemma ScaleBelow(c: real, a: real, b: real)
    requires c >= 0.0 && a <= b
    ensures c * a <= c * b
  {
  }

  /** A convex combination of two values that are at most `e` is at most
      `e`. */
  lemma ConvexBelow(w0: real, w1: real, a: real, b: real, e: real)
    requires w0 >= 0.0 && w1 >= 0.0 && w0 + w1 == 1.0
    requires a <= e && b <= e
    ensures w0 * a + w1 * b <= e
  {
    ScaleBelow(w0, a, e);
    ScaleBelow(w1, b, e);
    assert w1 * e == e - w0 * e by {
      assert w1 == 1.0 - w0;
    }
    var wa, we, wb, we' := w0 * a, w0 * e, w1 * b, w1 * e;
    assert wa <= we && wb <= we' && we + we' == e;
  }

  /** Player 0's payoff is linear in their own strategy: a mix earns the
      weighted average of what the two pure actions earn. */
  lemma ExpectedLinear(z: seq<real>, y: seq<real>)
    requires |z| == 2 && |y| == 2
    ensures Expected(0, z, y) ==
              z[0] * Expected(0, Pure(Stag), y) + z[1] * Expected(0, Pure(Hare), y)
  {
  }

  /** When neither pure action earns more than `e` against `y`, no mix
      does. */
  lemma PureBoundsMixes(y: seq<real>, e: real)
    requires IsMix(y)
    requires Expected(0, Pure(Stag), y) <= e && Expected(0, Pure(Hare), y) <= e
    ensures forall z :: IsMix(z) ==> Expected(0, z, y) <= e
  {
    forall z | IsMix(z)
      ensures Expected(0, z, y) <= e
    {
      ExpectedLinear(z, y);
      ConvexBelow(z[0], z[1], Expected(0, Pure(Stag), y), Expected(0, Pure(Hare), y), e);
    }
  }

  /** `check_equilibrium` compares each player's value with the best pure
      reply; that is enough, because no mixed deviation does better than
      the best pure one. */
  lemma PureDeviations(x: seq<real>, y: seq<real>)
    requires IsMix(x) && IsMix(y)
    ensures IsNash(x, y) <==>
              Expected(0, Pure(Stag), y) <= Expected(0, x, y) &&
              Expected(0, Pure(Hare), y) <= Expected(0, x, y) &&
              Expected(1, x, Pure(Stag)) <= Expected(1, x, y) &&
              Expected(1, x, Pure(Hare)) <= Expected(1, x, y)
  {
    if Expected(0, Pure(Stag), y) <= Expected(0, x, y) &&
       Expected(0, Pure(Hare), y) <= Expected(0, x, y) &&
       Expected(1, x, Pure(Stag)) <= Expected(1, x, y) &&
       Expected(1, x, Pure(Hare)) <= Expected(1, x, y)
    {
      PureBoundsMixes(y, Expected(0, x, y));
      ExpectedSymmetric(x, Pure(Stag));
      ExpectedSymmetric(x, Pure(Hare));
      PureBoundsMixes(x, Expected(1, x, y));
      forall z | IsMix(z)
        ensures Expected(1, x, z) <= Expected(1, x, y)
      {
        ExpectedSymmetric(x, z);
      }
    }
  }

  /** Both players hunting stag is an equilibrium worth 10 to each. */
  lemma StagStagIsNash()
    ensures IsNash(Pure(Stag), Pure(Stag))
    ensures Expected(0, Pure(Stag), Pure(Stag)) == 10.0 && Expected(1, Pure(Stag), Pure(Stag)) == 10.0
  {
    var x := Pure(Stag);
    Dot2(PayoffMatrix[0][0], x);
    Dot2(PayoffMatrix[0][1], x);
    Dot2(PayoffMatrix[1][0], x);
    Dot2(PayoffMatrix[1][1], x);
    Dot2(PayoffMatrix[1][0], Pure(Hare));
    Dot2(PayoffMatrix[1][1], Pure(Hare));
    PureDeviations(x, x);
  }

  /** Both players hunting hare is an equilibrium worth 5 to each. */
  lemma HareHareIsNash()
    ensures IsNash(Pure(Hare), Pure(Hare))
    ensures Expected(0, Pure(Hare), Pure(Hare)) == 5.0 && Expected(1, Pure(Hare), Pure(Hare)) == 5.0
  {
    var x := Pure(Hare);
    Dot2(PayoffMatrix[0][0], x);
    Dot2(PayoffMatrix[0][1], x);
    Dot2(PayoffMatrix[1][0], x);
    Dot2(PayoffMatrix[1][1], x);
    Dot2(PayoffMatrix[1][0], Pure(Stag));
    Dot2(PayoffMatrix[1][1], Pure(Stag));
    PureDeviations(x, x);
  }

  /** A positive factor does not change the sign of a product. */
  lemma PositiveFactor(x: real, y: real)
    requires x > 0.0 && x * y >= 0.0
    ensures y >= 0.0
  {
  }

  /** How far a convex combination lies above each end point. */
  lemma SplitConvex(q: real, a: real, b: real)
    ensures q * a + (1.0 - q) * b - a == (1.0 - q) * (b - a)
    ensures q * a + (1.0 - q) * b - b == q * (a - b)
  {
  }

  /** A convex combination of `a` and `b` with weights strictly inside
      (0, 1) is at least both only when they are equal. */
  lemma ConvexAboveBoth(q: real, e: real, a: real, b: real)
    requires 0.0 < q < 1.0
    requires e == q * a + (1.0 - q) * b
    requires e >= a && e >= b
    ensures a == b
  {
    SplitConvex(q, a, b);
    PositiveFactor(1.0 - q, b - a);
    PositiveFactor(q, a - b);
  }

  /** Against `Mix(q)` player 0's payoff from `Mix(q)` averages the payoffs
      of the two pure actions. */
  lemma MixAverages(q: real)
    ensures Expected(0, Mix(q), Mix(q)) ==
              q * Expected(0, Pure(Stag), Mix(q)) + (1.0 - q) * Expected(0, Pure(Hare), Mix(q))
  {
  }

  /** A symmetric profile that mixes strictly is an equilibrium exactly
      when the opponent's stag probability is the root of `f`. */
  lemma SymmetricMixIsNashIff(q: real)
    requires 0.0 < q < 1.0
    ensures IsNash(Mix(q), Mix(q)) <==> q == IndifferenceRoot()
  {
    var x := Mix(q);
    var stag := Expected(0, Pure(Stag), x);
    var hare := Expected(0, Pure(Hare), x);
    MixAverages(q);
    FIsPayoffDifference(q);
    ExpectedSymmetric(x, x);
    ExpectedSymmetric(x, Pure(Stag));
    ExpectedSymmetric(x, Pure(Hare));
    PureDeviations(x, x);
    if IsNash(x, x) {
      ConvexAboveBoth(q, Expected(0, x, x), stag, hare);
      assert F(q) == 0.0;
    }
    if q == IndifferenceRoot() {
      assert stag == hare;
      assert Expected(0, x, x) == stag;
    }
  }

  // ---------------------------------------------------------------------
  // The table form
  // ---------------------------------------------------------------------

  /** A one-shot game: a single state, zero discount factors and no
      continuation (every transition column is zero). */
  function OneShot(u: seq<seq<seq<real>>>): (g: Game)
    requires |u| == 2 && forall p :: 0 <= p < 2 ==> |u[p]| == 2 && |u[p][0]| == 2 && |u[p][1]| == 2
    ensures Shaped(g, 1, 2)
    ensures g.payoffs[0] == u && g.deltas == [0.0, 0.0]
    ensures forall a0, a1 :: 0 <= a0 < 2 && 0 <= a1 < 2 ==> Sum(g.transitions[0][a0][a1]) == 0.0
  {
    var none := [[[0.0], [0.0]], [[0.0], [0.0]]];
    assert forall a0, a1 :: 0 <= a0 < 2 && 0 <= a1 < 2 ==> none[a0][a1] == [0.0];
    Game([u], [none], [0.0, 0.0])
  }

  /** `game_table`: the one-shot game as a table with a single state. */
  const GameTable: seq<Row> := [
    DeltaRow([0.0, 0.0]),
    ProfileRow("state0", ["stag", "stag"], [10.0, 10.0], Probabilities([0.0])),
    ProfileRow("state0", ["stag", "hare"], [1.0, 8.0], Probabilities([0.0])),
    ProfileRow("state0", ["hare", "stag"], [8.0, 1.0], Probabilities([0.0])),
    ProfileRow("state0", ["hare", "hare"], [5.0, 5.0], Probabilities([0.0]))
  ]

  /** The table describes the one-shot game of the payoff matrix, and no
      other game. */
  lemma GameTableDescribesOneShot(g: Game)
    ensures Describes(GameTable, ["state0"], ["stag", "hare"], OneShot(PayoffMatrix))
    ensures Describes(GameTable, ["state0"], ["stag", "hare"], g) ==> g == OneShot(PayoffMatrix)
  {
    var h := OneShot(PayoffMatrix);
    forall s, a0, a1 | 0 <= s < 1 && 0 <= a0 < 2 && 0 <= a1 < 2
      ensures RowIndex(2, s, a0, a1) < |GameTable|
      ensures RowMatches(GameTable[RowIndex(2, s, a0, a1)], ["state0"], ["stag", "hare"], h, s, a0, a1)
    {
      assert a0 == 0 || a0 == 1;
      assert a1 == 0 || a1 == 1;
    }
    if Describes(GameTable, ["state0"], ["stag", "hare"], g) {
      DescribesDeterminesGame(GameTable, ["state0"], ["stag", "hare"], g, h);
    }
  }

  // ---------------------------------------------------------------------
  // Naming the equilibrium
  // ---------------------------------------------------------------------

  datatype Equilibrium = BothHare | BothStag | Mixed

  /** Why the classifier gives no name: the vector cannot be broadcast
      against a length-4 profile, the `np.allclose` call that lacks its
      second argument raises, or the vector matches nothing. */
  datatype ClassifyError = ShapeMismatch | MissingArgument | UnknownEquilibrium

  /** `np.allclose` broadcasts a length-1 vector against the length-4
      profiles and rejects every other length but 4. */
  predicate Broadcastable(strat: seq<real>)
  {
    |strat| == 1 || |strat| == 4
  }

  /** The flattened strategies of the single state: player 0's mix, then
      player 1's. */
  function Flatten(x: seq<real>, y: seq<real>): (v: seq<real>)
    requires |x| == 2 && |y| == 2
    ensures |v| == 4 && v[..2] == x && v[2..] == y
  {
    x + y
  }

  const HareVector: seq<real> := [0.0, 1.0, 0.0, 1.0]
  const StagVector: seq<real> := [1.0, 0.0, 1.0, 0.0]
  const MixedVector: seq<real> := [2.0 / 3.0, 1.0 / 3.0, 2.0 / 3.0, 1.0 / 3.0]

  /** The profile an equilibrium name stands for. */
  function ProfileOf(e: Equilibrium): (v: seq<real>)
    ensures |v| == 4 && IsMix(v[..2]) && IsMix(v[2..])
  {
    match e
    case BothHare => Flatten(Pure(Hare), Pure(Hare))
    case BothStag => Flatten(Pure(Stag), Pure(Stag))
    case Mixed => Flatten(MixedProfile(), MixedProfile())
  }

  /** `get_eq` as written: the third test calls `np.allclose` with a single
      argument, which raises before any comparison is made. */
  function GetEqAsWritten(strat: seq<real>): (r: Result<Equilibrium, ClassifyError>)
    ensures r == Success(BothHare) <==> strat == HareVector
    ensures r == Success(BothStag) <==> strat == StagVector
    ensures r.Success? ==> r.value != Mixed
    ensures r == Failure(ShapeMismatch) <==> !Broadcastable(strat)
    ensures r.Failure? && Broadcastable(strat) ==> r.error == MissingArgument
  {
    if !Broadcastable(strat) then Failure(ShapeMismatch)
    else if strat == HareVector then Success(BothHare)
    else if strat == StagVector then Success(BothStag)
    else Failure(MissingArgument)
  }

  /** `get_eq` as intended: the third test compares `strat` with the mixed
      profile (2/3, 1/3, 2/3, 1/3). */
  function GetEq(strat: seq<real>): (r: Result<Equilibrium, ClassifyError>)
    ensures forall e :: r == Success(e) <==> strat == ProfileOf(e)
    ensures r.Failure? <==> strat !in {HareVector, StagVector, MixedVector}
    ensures r == Failure(ShapeMismatch) <==> !Broadcastable(strat)
    ensures r.Failure? && Broadcastable(strat) ==> r.error == UnknownEquilibrium
  {
    assert ProfileOf(BothHare) == HareVector;
    assert ProfileOf(BothStag) == StagVector;
    assert ProfileOf(Mixed) == MixedVector;
    if !Broadcastable(strat) then Failure(ShapeMismatch)
    else if strat == HareVector then Success(BothHare)
    else if strat == StagVector then Success(BothStag)
    else if strat == MixedVector then Success(Mixed)
    else Failure(UnknownEquilibrium)
  }

  /** Every name the corrected classifier gives belongs to an equilibrium
      of the game. */
  lemma NamedProfilesAreEquilibria(x: seq<real>, y: seq<real>)
    requires IsMix(x) && IsMix(y)
    requires GetEq(Flatten(x, y)).Success?
    ensures IsNash(x, y)
  {
    var e := GetEq(Flatten(x, y)).value;
    assert Flatten(x, y) == ProfileOf(e);
    assert x == ProfileOf(e)[..2] && y == ProfileOf(e)[2..];
    match e
    case BothHare => HareHareIsNash();
    case BothStag => StagStagIsNash();
    case Mixed =>
      SymmetricMixIsNashIff(IndifferenceRoot());
  }

  /** The mixed equilibrium's vector shows the difference: the corrected
      classifier names it, the classifier as written raises on it. */
  lemma MixedVectorIsMisclassified()
    ensures MixedVector == Flatten(MixedProfile(), MixedProfile())
    ensures GetEq(MixedVector) == Success(Mixed)
    ensures GetEqAsWritten(MixedVector) == Failure(MissingArgument)
  {
  }
}
