/** Dot products and row combinations over GF(2^8). */
module LinearAlgebra {
  import opened Gf256

  type Vec = seq<bv8>
  type Matrix = seq<seq<bv8>>

  /** Total access; entries outside the vector read as zero. */
  function At(v: Vec, i: int): (r: bv8) {
    if 0 <= i < |v| then v[i] else 0
  }

  function Entry(m: Matrix, i: int, j: int): (r: bv8) {
    if 0 <= i < |m| then At(m[i], j) else 0
  }

  function Column(m: Matrix, n: nat, j: int): (r: Vec) {
    seq(n, k => Entry(m, k, j))
  }

  /** u[0]*v[0] + .. + u[n-1]*v[n-1]. */
  function Dot(u: Vec, v: Vec, n: nat): (r: bv8) {
    if n == 0 then 0 else Add(Dot(u, v, n - 1), Mul(At(u, n - 1), At(v, n - 1)))
  }

  /** Entry `j` of the row combination c[0]*m[0] + .. + c[n-1]*m[n-1]. */
  function Combine(c: Vec, m: Matrix, n: nat, j: int): (r: bv8) {
    Dot(c, Column(m, n, j), n)
  }

  function CombineRow(c: Vec, m: Matrix, n: nat, w: nat): (r: Vec) {
    seq(w, j => Combine(c, m, n, j))
  }

  function Delta(i: int, j: int): (r: bv8) {
    if i == j then 1 else 0
  }

  ghost predicate IsSquare(m: Matrix) {
    forall i | 0 <= i < |m| :: |m[i]| == |m|
  }

  /** `e` times `m` is the identity of size `n`. */
  ghost predicate IsLeftInverse(e: Matrix, m: Matrix, n: nat) {
    && |e| == n
    && (forall i | 0 <= i < n :: |e[i]| == n)
    && forall i, j | 0 <= i < n && 0 <= j < n :: Combine(e[i], m, n, j) == Delta(i, j)
  }

  /** The column vector `v` is in the kernel of the first `n` rows of `m`. */
  ghost predicate Kills(m: Matrix, v: Vec, n: nat) {
    n <= |m| && forall i | 0 <= i < n :: Dot(m[i], v, n) == 0
  }

  ghost predicate IsZero(v: Vec) {
    forall k | 0 <= k < |v| :: v[k] == 0
  }

  ghost predicate Nonsingular(m: Matrix) {
    forall v: Vec | |v| == |m| && Kills(m, v, |m|) :: IsZero(v)
  }

  // ---------------------------------------------------------------- dot products

  lemma {:induction false} DotEq(u: Vec, u': Vec, v: Vec, v': Vec, n: nat)
    requires forall k | 0 <= k < n :: Mul(At(u, k), At(v, k)) == Mul(At(u', k), At(v', k))
    ensures Dot(u, v, n) == Dot(u', v', n)
  {
    hide Add, Mul;
    if n > 0 {
      DotEq(u, u', v, v', n - 1);
    }
  }

  lemma DotComm(u: Vec, v: Vec, n: nat)
    ensures Dot(u, v, n) == Dot(v, u, n)
  {
    hide Add, Mul;
    forall k | 0 <= k < n ensures Mul(At(u, k), At(v, k)) == Mul(At(v, k), At(u, k)) {
      MulComm(At(u, k), At(v, k));
    }
    DotEq(u, v, v, u, n);
  }

  lemma {:induction false} DotZero(u: Vec, v: Vec, n: nat)
    requires forall k | 0 <= k < n :: At(u, k) == 0 || At(v, k) == 0
    ensures Dot(u, v, n) == 0
  {
    hide Add, Mul;
    AddZero(0);
    if n > 0 {
      DotZero(u, v, n - 1);
      MulZeroOne(At(u, n - 1)); MulZeroLeft(At(v, n - 1));
    }
  }

  /** A sum with one term that may be nonzero. */
  lemma {:induction false} DotSingle(u: Vec, v: Vec, n: nat, p: int)
    requires 0 <= p < n
    requires forall k | 0 <= k < n && k != p :: At(u, k) == 0 || At(v, k) == 0
    ensures Dot(u, v, n) == Mul(At(u, p), At(v, p))
  {
    hide Add, Mul;
    AddZero(Mul(At(u, p), At(v, p)));
    if p == n - 1 {
      DotZero(u, v, n - 1);
    } else {
      DotSingle(u, v, n - 1, p);
      MulZeroOne(At(u, n - 1)); MulZeroLeft(At(v, n - 1));
    }
  }

  /** The dot product is linear in its left argument. */
  lemma {:induction false} DotLinear(x: Vec, u: Vec, f: bv8, w: Vec, v: Vec, n: nat)
    requires forall k | 0 <= k < n :: At(x, k) == Add(At(u, k), Mul(f, At(w, k)))
    ensures Dot(x, v, n) == Add(Dot(u, v, n), Mul(f, Dot(w, v, n)))
  {
    hide Add, Mul;
    if n == 0 {
      MulZeroOne(f); AddZero(0);
    } else {
      DotLinear(x, u, f, w, v, n - 1);
      var a, b, c := At(u, n - 1), At(w, n - 1), At(v, n - 1);
      MulAddLeft(a, Mul(f, b), c); MulAssoc(f, b, c);
      MulAddRight(f, Dot(w, v, n - 1), Mul(b, c));
      AddSwap(Dot(u, v, n - 1), Mul(f, Dot(w, v, n - 1)), Mul(a, c), Mul(f, Mul(b, c)));
    }
  }

  // ---------------------------------------------------------------- row combinations

  /**
   * Combining combined rows is combining with the combined coefficients, (c*m)*v == c*(m*v):
   * `mv` holds the products of the rows of `m` with `v`.
   */
  lemma {:induction false} CombineAssoc(c: Vec, m: Matrix, v: Vec, mv: Vec, k: nat, n: nat)
    requires k <= |m|
    requires forall i | 0 <= i < k :: At(mv, i) == Dot(m[i], v, n)
    ensures Dot(c, mv, k) == Dot(CombineRow(c, m, k, n), v, n)
  {
    hide Add, Mul;
    var row := CombineRow(c, m, k, n);
    if k == 0 {
      DotZero(row, v, n);
    } else {
      var row' := CombineRow(c, m, k - 1, n);
      CombineAssoc(c, m, v, mv, k - 1, n);
      forall j | 0 <= j < n ensures At(row, j) == Add(At(row', j), Mul(At(c, k - 1), At(m[k - 1], j))) {
        DotEq(c, c, Column(m, k, j), Column(m, k - 1, j), k - 1);
      }
      DotLinear(row, row', At(c, k - 1), m[k - 1], v, n);
    }
  }

  /** A matrix with a left inverse has a trivial kernel. */
  lemma LeftInverseNonsingular(e: Matrix, m: Matrix)
    requires IsSquare(m) && IsLeftInverse(e, m, |m|)
    ensures Nonsingular(m)
  {
    hide Add, Mul;
    var n := |m|;
    forall v: Vec | |v| == n && Kills(m, v, n)
      ensures IsZero(v)
    {
      var zeros := seq(n, i => 0 as bv8);
      forall i | 0 <= i < n
        ensures v[i] == 0
      {
        CombineAssoc(e[i], m, v, zeros, n, n);
        DotZero(e[i], zeros, n);
        var row := CombineRow(e[i], m, n, n);
        assert forall j | 0 <= j < n :: At(row, j) == Combine(e[i], m, n, j);
        DotSingle(row, v, n, i);
        MulOneLeft(v[i]);
      }
    }
  }
}
