/** Sequence helpers used by the game models: sums of real vectors, the
    minimum and its multiplicity, one-hot vectors, first-match search, and
    numpy's `insert`/`delete` of one element. */
module SeqOps {
  import opened Wrappers

  /** Sum of a real vector. */
  function Sum(v: seq<real>): real
  {
    if |v| == 0 then 0.0 else v[0] + Sum(v[1..])
  }

  /** Dot product of two real vectors of the same length (numpy's `dot`). */
  function Dot(u: seq<real>, v: seq<real>): real
    requires |u| == |v|
  {
    if |u| == 0 then 0.0 else u[0] * v[0] + Dot(u[1..], v[1..])
  }

  /** The dot product of two vectors of length two, written out. */
  lemma Dot2(u: seq<real>, v: seq<real>)
    requires |u| == 2 && |v| == 2
    ensures Dot(u, v) == u[0] * v[0] + u[1] * v[1]
  {
    assert Dot(u[1..], v[1..]) == u[1] * v[1] + Dot(u[1..][1..], v[1..][1..]);
    assert u[1..][1..] == [] && v[1..][1..] == [];
  }

  /** Product of a vector of dimensions: the number of cells of an array
      of that shape. */
  function Product(dims: seq<nat>): nat
  {
    if |dims| == 0 then 1 else dims[0] * Product(dims[1..])
  }

  /** A shape whose dimensions are all 1 has a single cell. */
  lemma {:induction false} ProductOfOnes(dims: seq<nat>)
    requires forall j :: 0 <= j < |dims| ==> dims[j] == 1
    ensures Product(dims) == 1
  {
    if |dims| > 0 {
      ProductOfOnes(dims[1..]);
    }
  }

  /** A shape that is 1 everywhere except at axis `i` has as many cells as
      that axis is long. */
  lemma {:induction false} ProductOfUnits(dims: seq<nat>, i: nat)
    requires i < |dims|
    requires forall j :: 0 <= j < |dims| && j != i ==> dims[j] == 1
    ensures Product(dims) == dims[i]
  {
    if i == 0 {
      ProductOfOnes(dims[1..]);
    } else {
      ProductOfUnits(dims[1..], i - 1);
    }
  }

  /** Number of entries of `v` equal to `x`. */
  function Count<T(==)>(v: seq<T>, x: T): (n: nat)
    ensures n <= |v|
  {
    if |v| == 0 then 0 else (if v[0] == x then 1 else 0) + Count(v[1..], x)
  }

  /** An entry that occurs is counted at least once. */
  lemma {:induction false} CountPositive<T>(v: seq<T>, x: T)
    requires x in v
    ensures Count(v, x) > 0
  {
    if v[0] != x {
      assert x in v[1..];
      CountPositive(v[1..], x);
    }
  }

  /** An entry that occurs at exactly one position is counted once. */
  lemma {:induction false} CountOnce<T>(v: seq<T>, i: nat)
    requires i < |v|
    requires forall j :: 0 <= j < |v| && j != i ==> v[j] != v[i]
    ensures Count(v, v[i]) == 1
  {
    var v' := v[1..];
    assert forall j :: 0 <= j < |v'| ==> v'[j] == v[j + 1];
    if i == 0 {
      assert Count(v', v[i]) == 0 by {
        if Count(v', v[i]) > 0 {
          CountZero(v', v[i]);
        }
      }
    } else {
      CountOnce(v', i - 1);
    }
  }

  /** An entry strictly below all others is the minimum and occurs once. */
  lemma UniqueMinimum(v: seq<real>, k: nat)
    requires k < |v|
    requires forall j :: 0 <= j < |v| && j != k ==> v[j] > v[k]
    ensures Min(v) == v[k] && Count(v, Min(v)) == 1
  {
    CountOnce(v, k);
  }

  /** In a constant vector every entry is counted. */
  lemma {:induction false} CountAll<T>(v: seq<T>, x: T)
    requires forall j :: 0 <= j < |v| ==> v[j] == x
    ensures Count(v, x) == |v|
  {
    if |v| > 0 {
      CountAll(v[1..], x);
    }
  }

  /** Only an entry that occurs is counted. */
  lemma {:induction false} CountZero<T>(v: seq<T>, x: T)
    requires Count(v, x) > 0
    ensures x in v
  {
    if v[0] != x {
      CountZero(v[1..], x);
    }
  }

  /** The smallest entry of a non-empty real vector (numpy's `min`). */
  function Min(v: seq<real>): (m: real)
    requires |v| > 0
    ensures m in v
    ensures forall j :: 0 <= j < |v| ==> m <= v[j]
  {
    if |v| == 1 then v[0]
    else
      var rest := Min(v[1..]);
      assert forall j :: 1 <= j < |v| ==> v[j] == v[1..][j - 1];
      if v[0] <= rest then v[0] else rest
  }

  /** `v` has a 1 at position `k` and 0 everywhere else. */
  predicate IsOneHot(v: seq<real>, k: nat)
  {
    k < |v| && forall j :: 0 <= j < |v| ==> v[j] == (if j == k then 1.0 else 0.0)
  }

  /** The one-hot vector of length `len` with its 1 at position `k`. */
  function OneHot(len: nat, k: nat): (v: seq<real>)
    requires k < len
    ensures |v| == len
    ensures IsOneHot(v, k)
    ensures Sum(v) == 1.0
  {
    var v := seq(len, j => if j == k then 1.0 else 0.0);
    SumOneHot(v, k);
    v
  }

  /** A one-hot vector is determined by its length and its hot position. */
  lemma OneHotUnique(v: seq<real>, w: seq<real>, k: nat)
    requires IsOneHot(v, k) && IsOneHot(w, k) && |v| == |w|
    ensures v == w
  {
    assert forall j :: 0 <= j < |v| ==> v[j] == w[j];
  }

  /** A vector of zeros sums to zero. */
  lemma {:induction false} SumZeros(v: seq<real>)
    requires forall j :: 0 <= j < |v| ==> v[j] == 0.0
    ensures Sum(v) == 0.0
  {
    if |v| > 0 {
      assert forall j :: 0 <= j < |v| - 1 ==> v[1..][j] == v[j + 1];
      SumZeros(v[1..]);
    }
  }

  /** A one-hot vector sums to one; in particular its 1 is the only
      non-zero entry, so exactly one entry is 1. */
  lemma {:induction false} SumOneHot(v: seq<real>, k: nat)
    requires IsOneHot(v, k)
    ensures Sum(v) == 1.0
  {
    assert forall j :: 0 <= j < |v| - 1 ==> v[1..][j] == v[j + 1];
    if k == 0 {
      SumZeros(v[1..]);
    } else {
      SumOneHot(v[1..], k - 1);
    }
  }

  /** `n` copies of `c` added up. */
  function Times(n: nat, c: real): real
  {
    if n == 0 then 0.0 else c + Times(n - 1, c)
  }

  /** Repeated addition is multiplication. */
  lemma {:induction false} TimesIsProduct(n: nat, c: real)
    ensures Times(n, c) == n as real * c
  {
    if n > 0 {
      TimesIsProduct(n - 1, c);
      SuccTimes((n - 1) as real, c);
    }
  }

  lemma SuccTimes(r: real, c: real)
    ensures (r + 1.0) * c == c + r * c
  {
  }

  /** The entries of `v` are `c` where `p` equals `x` and 0 elsewhere:
      the sum is `c` added once per occurrence of `x` in `p`. */
  lemma {:induction false} SumIndicatorTimes(p: seq<real>, x: real, c: real, v: seq<real>)
    requires |v| == |p|
    requires forall j :: 0 <= j < |p| ==> v[j] == (if p[j] == x then c else 0.0)
    ensures Sum(v) == Times(Count(p, x), c)
  {
    if |p| > 0 {
      var p', v' := p[1..], v[1..];
      forall j | 0 <= j < |p'|
        ensures v'[j] == (if p'[j] == x then c else 0.0)
      {
        assert v'[j] == v[j + 1] && p'[j] == p[j + 1];
      }
      SumIndicatorTimes(p', x, c, v');
    }
  }

  /** The same sum as a product: `c` times the multiplicity of `x`. */
  lemma SumIndicator(p: seq<real>, x: real, c: real, v: seq<real>)
    requires |v| == |p|
    requires forall j :: 0 <= j < |p| ==> v[j] == (if p[j] == x then c else 0.0)
    ensures Sum(v) == Count(p, x) as real * c
  {
    SumIndicatorTimes(p, x, c, v);
    TimesIsProduct(Count(p, x), c);
  }

  /** When the indicator's weight is the reciprocal of the number of hits,
      the weights add up to one. */
  lemma SumIndicatorUnit(p: seq<real>, x: real, c: real, v: seq<real>)
    requires |v| == |p| && Count(p, x) as real * c == 1.0
    requires forall j :: 0 <= j < |p| ==> v[j] == (if p[j] == x then c else 0.0)
    ensures Sum(v) == 1.0
  {
    SumIndicator(p, x, c, v);
  }

  /** Scaling every entry scales the sum. */
  lemma {:induction false} SumScale(v: seq<real>, c: real, w: seq<real>)
    requires |w| == |v|
    requires forall j :: 0 <= j < |v| ==> w[j] == c * v[j]
    ensures Sum(w) == c * Sum(v)
  {
    if |v| > 0 {
      assert forall j :: 0 <= j < |v| - 1 ==> v[1..][j] == v[j + 1] && w[1..][j] == w[j + 1];
      SumScale(v[1..], c, w[1..]);
    }
  }

  /** Position of the first entry equal to `x`, or None when there is none
      (a linear search that returns on the first match). */
  function IndexOf<T(==)>(xs: seq<T>, x: T): (r: Option<nat>)
    ensures r.None? <==> x !in xs
    ensures r.Some? ==> r.value < |xs| && xs[r.value] == x
    ensures r.Some? ==> forall j :: 0 <= j < r.value ==> xs[j] != x
  {
    if |xs| == 0 then None
    else if xs[0] == x then Some(0)
    else
      match IndexOf(xs[1..], x)
      case None => None
      case Some(j) => Some(j + 1)
  }

  /** In a sequence without repeated entries the search finds the entry's
      own position. */
  lemma IndexOfDistinct<T>(xs: seq<T>, k: nat)
    requires k < |xs|
    requires forall a, b :: 0 <= a < b < |xs| ==> xs[a] != xs[b]
    ensures IndexOf(xs, xs[k]) == Some(k)
  {
  }

  /** numpy `insert(xs, i, v)`: `v` placed at position `i`. */
  function Insert<T>(xs: seq<T>, i: nat, v: T): (r: seq<T>)
    requires i <= |xs|
    ensures |r| == |xs| + 1
    ensures r[i] == v
    ensures forall j :: 0 <= j < i ==> r[j] == xs[j]
    ensures forall j :: i < j < |r| ==> r[j] == xs[j - 1]
  {
    xs[..i] + [v] + xs[i..]
  }

  /** numpy `delete(xs, j)`: the entry at position `j` removed. */
  function Delete<T>(xs: seq<T>, j: nat): (r: seq<T>)
    requires j < |xs|
    ensures |r| == |xs| - 1
    ensures forall l :: 0 <= l < j ==> r[l] == xs[l]
    ensures forall l :: j <= l < |r| ==> r[l] == xs[l + 1]
  {
    xs[..j] + xs[j + 1..]
  }

  /** Deleting what was just inserted gives the original back, and
      re-inserting what was just deleted does too. */
  lemma InsertDelete<T>(xs: seq<T>, i: nat, v: T)
    requires i <= |xs|
    ensures Delete(Insert(xs, i, v), i) == xs
  {
  }

  lemma DeleteInsert<T>(xs: seq<T>, j: nat)
    requires j < |xs|
    ensures Insert(Delete(xs, j), j, xs[j]) == xs
  {
  }
}
