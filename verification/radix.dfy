/** The order in which `itertools.product(range(k), repeat=len)` lists
    tuples: the tuple at position `x` holds the base-`k` digits of `x`, most
    significant first, so the listing is lexicographic and complete. */
module Radix {

  /** `k` to the power `e`: the number of tuples of length `e`. */
  function Pow(k: nat, e: nat): (r: nat)
    ensures k >= 1 ==> r >= 1
  {
    if e == 0 then 1 else k * Pow(k, e - 1)
  }

  lemma MulMonotone(a: int, b: int, d: int)
    requires a <= b && d >= 0
    ensures a * d <= b * d
  {
    assert b * d - a * d == (b - a) * d;
  }

  /** Euclidean division is determined by any quotient/remainder pair. */
  lemma DivModUnique(x: int, d: int, q: int, r: int)
    requires d > 0 && 0 <= r < d && x == q * d + r
    ensures x / d == q && x % d == r
  {
    var q', r' := x / d, x % d;
    assert x == q' * d + r';
    if q' < q {
      MulMonotone(q' + 1, q, d);
      assert false;
    } else if q < q' {
      MulMonotone(q + 1, q', d);
      assert false;
    }
  }

  /** A position below `n * K` lies in block `id / K` at offset `id % K`. */
  lemma BlockSplit(id: nat, n: nat, K: nat)
    requires K > 0 && id < n * K
    ensures id / K < n && id == (id / K) * K + id % K && id % K < K
  {
    if id / K >= n {
      MulMonotone(n, id / K, K);
    }
  }

  /** Offset `r` of block `i` is position `i * K + r`, below `n * K`. */
  lemma BlockJoin(i: nat, r: nat, n: nat, K: nat)
    requires i < n && r < K
    ensures i * K + r < n * K
    ensures (i * K + r) / K == i && (i * K + r) % K == r
  {
    MulMonotone(i + 1, n, K);
    DivModUnique(i * K + r, K, i, r);
  }

  lemma DivMonotone(a: int, b: int, d: int)
    requires 0 <= a <= b && d > 0
    ensures a / d <= b / d
    ensures a / d == b / d ==> a % d <= b % d
  {
    if a / d > b / d {
      MulMonotone(b / d + 1, a / d, d);
    }
  }

  /** Every entry of `t` is a digit below `k`. */
  predicate AllBelow(t: seq<nat>, k: nat)
  {
    forall j :: 0 <= j < |t| ==> t[j] < k
  }

  /** The number whose base-`k` digits, most significant first, are `t`:
      the position of `t` in the product listing. */
  function Rank(t: seq<nat>, k: nat): nat
  {
    if |t| == 0 then 0 else t[0] * Pow(k, |t| - 1) + Rank(t[1..], k)
  }

  /** The tuple at position `x` of the product listing of length-`len`
      tuples over `range(k)`. */
  function Digits(x: nat, k: nat, len: nat): (t: seq<nat>)
    requires k >= 1 && x < Pow(k, len)
    ensures |t| == len
    ensures AllBelow(t, k)
    decreases len
  {
    if len == 0 then []
    else
      var p := Pow(k, len - 1);
      LeadingDigit(x, k, len);
      [x / p] + Digits(x % p, k, len - 1)
  }

  /** Reading the digits back gives the position: the tuple at position
      `x` has rank `x`. */
  lemma {:induction false} RankOfDigits(x: nat, k: nat, len: nat)
    requires k >= 1 && x < Pow(k, len)
    ensures Rank(Digits(x, k, len), k) == x
    decreases len
  {
    if len > 0 {
      var p := Pow(k, len - 1);
      LeadingDigit(x, k, len);
      var rest := Digits(x % p, k, len - 1);
      assert Digits(x, k, len) == [x / p] + rest;
      RankOfDigits(x % p, k, len - 1);
      RankCons(x / p, rest, k, p);
    }
  }

  /** The leading digit of `x < k^len` is below `k`, and the remainder is
      the number the other digits spell. */
  lemma LeadingDigit(x: nat, k: nat, len: nat)
    requires k >= 1 && len > 0 && x < Pow(k, len)
    ensures var p := Pow(k, len - 1);
            x / p < k && x % p < p && x == (x / p) * p + x % p
  {
    var p := Pow(k, len - 1);
    assert Pow(k, len) == k * p;
    if x / p >= k {
      MulMonotone(k, x / p, p);
    }
  }

  /** Rank of a tuple with a leading digit prepended. */
  lemma RankCons(q: nat, rest: seq<nat>, k: nat, p: nat)
    requires p == Pow(k, |rest|)
    ensures Rank([q] + rest, k) == q * p + Rank(rest, k)
  {
    var t := [q] + rest;
    assert t[0] == q && t[1..] == rest;
  }

  /** Ranks of length-`|t|` digit tuples lie below `k^|t|`. */
  lemma {:induction false} RankBound(t: seq<nat>, k: nat)
    requires k >= 1 && AllBelow(t, k)
    ensures Rank(t, k) < Pow(k, |t|)
  {
    if |t| > 0 {
      var p := Pow(k, |t| - 1);
      RankBound(t[1..], k);
      MulMonotone(t[0], k - 1, p);
      assert (k - 1) * p + p == k * p;
    }
  }

  /** Every digit tuple occurs in the listing, at position `Rank(t, k)`. */
  lemma {:induction false} DigitsOfRank(t: seq<nat>, k: nat)
    requires k >= 1 && AllBelow(t, k)
    ensures Rank(t, k) < Pow(k, |t|)
    ensures Digits(Rank(t, k), k, |t|) == t
  {
    RankBound(t, k);
    if |t| > 0 {
      var p := Pow(k, |t| - 1);
      RankBound(t[1..], k);
      DivModUnique(Rank(t, k), p, t[0], Rank(t[1..], k));
      DigitsOfRank(t[1..], k);
      assert t == [t[0]] + t[1..];
    }
  }

  /** Strict lexicographic order on tuples of equal, positive length. */
  predicate LexLess(a: seq<nat>, b: seq<nat>)
  {
    |a| == |b| && |a| > 0 &&
    (a[0] < b[0] || (a[0] == b[0] && LexLess(a[1..], b[1..])))
  }

  /** Two different tuples of equal length are ordered one way or the other. */
  lemma {:induction false} LexTotal(a: seq<nat>, b: seq<nat>)
    requires |a| == |b| && a != b
    ensures LexLess(a, b) || LexLess(b, a)
  {
    if a[0] == b[0] {
      assert a == [a[0]] + a[1..] && b == [b[0]] + b[1..];
      LexTotal(a[1..], b[1..]);
    }
  }

  /** The rank is strictly monotone in the lexicographic order. */
  lemma {:induction false} LexRank(a: seq<nat>, b: seq<nat>, k: nat)
    requires k >= 1 && AllBelow(a, k) && AllBelow(b, k)
    requires LexLess(a, b)
    ensures Rank(a, k) < Rank(b, k)
  {
    var p := Pow(k, |a| - 1);
    assert Rank(a, k) == a[0] * p + Rank(a[1..], k);
    assert Rank(b, k) == b[0] * p + Rank(b[1..], k);
    if a[0] < b[0] {
      RankBound(a[1..], k);
      HeadDecides(a[0], b[0], Rank(a[1..], k), Rank(b[1..], k), p);
    } else {
      LexRank(a[1..], b[1..], k);
    }
  }

  /** A smaller leading digit outweighs any lower-order remainder. */
  lemma HeadDecides(x: nat, y: nat, rx: nat, ry: nat, p: nat)
    requires x < y && rx < p
    ensures x * p + rx < y * p + ry
  {
    MulMonotone(x + 1, y, p);
    assert (x + 1) * p == x * p + p;
  }

  /** The product listing is strictly increasing in lexicographic order:
      earlier positions hold lexicographically smaller tuples. */
  lemma DigitsLexOrdered(x: nat, y: nat, k: nat, len: nat)
    requires k >= 1 && x < y < Pow(k, len)
    ensures LexLess(Digits(x, k, len), Digits(y, k, len))
  {
    var a, b := Digits(x, k, len), Digits(y, k, len);
    RankOfDigits(x, k, len);
    RankOfDigits(y, k, len);
    LexTotal(a, b);
    if LexLess(b, a) {
      LexRank(b, a, k);
    }
  }
}
