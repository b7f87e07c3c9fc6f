/** In-place Gauss-Jordan inversion of the coding matrix. */
module GaussJordan {
  import opened Gf256
  import opened LinearAlgebra
  import opened Results

  /** The sentinel errors of the chunk engine. */
  datatype ChunkError = Invalid | Checksum | CacheLimit | Unrecoverable

  /** Rows of the augmented matrix [a | b]. */
  ghost predicate Augmented(aug: Matrix, n: nat) {
    |aug| == n && forall i | 0 <= i < n :: |aug[i]| == 2 * n
  }

  /** The right half records the row operations: b * m == a. */
  ghost predicate Tracks(aug: Matrix, m: Matrix, n: nat)
    requires Augmented(aug, n)
  {
    forall i, j | 0 <= i < n && 0 <= j < n :: RowTracks(aug[i], m, n, j)
  }

  ghost predicate RowTracks(row: Vec, m: Matrix, n: nat, j: int)
    requires |row| == 2 * n
  {
    At(row, j) == Combine(row[n..], m, n, j)
  }

  /** No row operation enlarged the kernel. */
  ghost predicate KeepsKernel(aug: Matrix, m: Matrix, n: nat) {
    forall v: Vec | |v| == n && Kills(aug, v, n) :: Kills(m, v, n)
  }

  /** The first `col` columns already are those of the identity. */
  ghost predicate Reduced(aug: Matrix, n: nat, col: int)
    requires Augmented(aug, n)
  {
    forall i, c | 0 <= i < n && 0 <= c < col && c < n :: Entry(aug, i, c) == Delta(i, c)
  }

  ghost predicate Progress(aug: Matrix, m: Matrix, n: nat, col: int) {
    Augmented(aug, n) && Tracks(aug, m, n) && KeepsKernel(aug, m, n) && Reduced(aug, n, col)
  }

  function ScaledRow(row: Vec, f: bv8): (r: Vec) {
    seq(|row|, j requires 0 <= j < |row| => Mul(row[j], f))
  }

  function ReducedRow(row: Vec, f: bv8, pivot: Vec): (r: Vec)
    requires |pivot| == |row|
  {
    seq(|row|, j requires 0 <= j < |row| => Add(row[j], Mul(f, pivot[j])))
  }

  // ---------------------------------------------------------------- row operations

  lemma SwapKeeps(aug: Matrix, m: Matrix, n: nat, col: int, p: int, aug': Matrix)
    requires Progress(aug, m, n, col)
    requires 0 <= col <= p < n
    requires aug' == aug[p := aug[col]][col := aug[p]]
    ensures Progress(aug', m, n, col)
  {
    hide Dot, Combine;
    forall v: Vec | |v| == n && Kills(aug', v, n)
      ensures Kills(m, v, n)
    {
      assert Dot(aug'[p], v, n) == 0 && Dot(aug'[col], v, n) == 0;
      forall i | 0 <= i < n ensures Dot(aug[i], v, n) == 0 {
        assert Dot(aug'[i], v, n) == 0;
      }
      assert Kills(aug, v, n);
    }
    forall i, c | 0 <= i < n && 0 <= c < col && c < n
      ensures Entry(aug', i, c) == Delta(i, c)
    {
      assert Entry(aug, i, c) == Delta(i, c) && Entry(aug, p, c) == 0 && Entry(aug, col, c) == 0;
    }
    forall i, j | 0 <= i < n && 0 <= j < n
      ensures RowTracks(aug'[i], m, n, j)
    {
      assert RowTracks(aug[i], m, n, j) && RowTracks(aug[p], m, n, j) && RowTracks(aug[col], m, n, j);
    }
  }

  /** A row replaced by u + f*w of two tracked rows stays tracked, and its products are linear. */
  lemma LinearRowTracks(row: Vec, u: Vec, f: bv8, w: Vec, m: Matrix, n: nat, j: int)
    requires |row| == |u| == |w| == 2 * n && 0 <= j < n
    requires forall k | 0 <= k < 2 * n :: row[k] == Add(u[k], Mul(f, w[k]))
    requires RowTracks(u, m, n, j) && RowTracks(w, m, n, j)
    ensures RowTracks(row, m, n, j)
  {
    hide Add, Mul, Dot;
    DotLinear(row[n..], u[n..], f, w[n..], Column(m, n, j), n);
  }

  lemma ScaleKeeps(aug: Matrix, m: Matrix, n: nat, col: int, f: bv8, aug': Matrix)
    requires Progress(aug, m, n, col) && 0 <= col < n
    requires f != 0
    requires aug' == aug[col := ScaledRow(aug[col], f)]
    ensures Progress(aug', m, n, col)
  {
    hide Add, Mul, Dot, Combine;
    var row, zero := aug[col], seq(2 * n, i => 0 as bv8);
    forall k | 0 <= k < 2 * n
      ensures aug'[col][k] == Add(zero[k], Mul(f, row[k]))
    {
      AddZero(Mul(f, row[k])); MulComm(f, row[k]);
    }
    forall v: Vec | |v| == n && Kills(aug', v, n)
      ensures Kills(m, v, n)
    {
      DotLinear(aug'[col], zero, f, row, v, n);
      DotZero(zero, v, n); AddZero(Mul(f, Dot(row, v, n)));
      NoZeroDivisors(f, Dot(row, v, n));
      assert Dot(aug'[col], v, n) == 0;
      forall i | 0 <= i < n ensures Dot(aug[i], v, n) == 0 {
        assert i != col ==> Dot(aug'[i], v, n) == 0;
      }
      assert Kills(aug, v, n);
    }
    forall i, j | 0 <= i < n && 0 <= j < n
      ensures RowTracks(aug'[i], m, n, j)
    {
      assert RowTracks(aug[i], m, n, j) && RowTracks(row, m, n, j);
      ZeroTracks(zero, m, n, j);
      LinearRowTracks(aug'[col], zero, f, row, m, n, j);
    }
    forall i, c | 0 <= i < n && 0 <= c < col && c < n
      ensures Entry(aug', i, c) == Delta(i, c)
    {
      assert Entry(aug, i, c) == Delta(i, c);
      MulZeroLeft(f);
    }
  }

  lemma ZeroTracks(zero: Vec, m: Matrix, n: nat, j: int)
    requires |zero| == 2 * n && IsZero(zero) && 0 <= j < n
    ensures RowTracks(zero, m, n, j)
  {
    DotZero(zero[n..], Column(m, n, j), n);
  }

  lemma ReduceKeeps(aug: Matrix, m: Matrix, n: nat, col: int, p: int, r: int, f: bv8, aug': Matrix)
    requires Progress(aug, m, n, col)
    requires 0 <= col <= p < n && 0 <= r < n && r != p && p == col
    requires aug' == aug[r := ReducedRow(aug[r], f, aug[p])]
    ensures Progress(aug', m, n, col)
  {
    hide Add, Mul, Dot, Combine;
    forall v: Vec | |v| == n && Kills(aug', v, n)
      ensures Kills(m, v, n)
    {
      DotLinear(aug'[r], aug[r], f, aug[p], v, n);
      assert Dot(aug'[r], v, n) == 0 && Dot(aug'[p], v, n) == 0;
      MulZeroOne(f); AddZero(Dot(aug[r], v, n));
      forall i | 0 <= i < n ensures Dot(aug[i], v, n) == 0 {
        assert i != r ==> Dot(aug'[i], v, n) == 0;
      }
      assert Kills(aug, v, n);
    }
    forall i, j | 0 <= i < n && 0 <= j < n
      ensures RowTracks(aug'[i], m, n, j)
    {
      assert RowTracks(aug[i], m, n, j) && RowTracks(aug[p], m, n, j) && RowTracks(aug[r], m, n, j);
      LinearRowTracks(aug'[r], aug[r], f, aug[p], m, n, j);
    }
    forall i, c | 0 <= i < n && 0 <= c < col && c < n
      ensures Entry(aug', i, c) == Delta(i, c)
    {
      assert Entry(aug, i, c) == Delta(i, c) && Entry(aug, p, c) == 0;
      MulZeroOne(f); AddZero(Entry(aug, i, c));
    }
  }

  // ---------------------------------------------------------------- start, failure and success

  lemma StartProgress(aug: Matrix, m: Matrix, n: nat)
    requires |m| == n && IsSquare(m) && Augmented(aug, n)
    requires forall i, j | 0 <= i < n && 0 <= j < n :: Entry(aug, i, j) == m[i][j]
    requires forall i, j | 0 <= i < n && 0 <= j < n :: Entry(aug, i, n + j) == Delta(i, j)
    ensures Progress(aug, m, n, 0)
  {
    hide Add, Mul;
    forall v: Vec | |v| == n && Kills(aug, v, n)
      ensures Kills(m, v, n)
    {
      forall i | 0 <= i < n ensures Dot(m[i], v, n) == 0 {
        assert forall k | 0 <= k < n :: At(aug[i], k) == Entry(aug, i, k);
        DotEq(aug[i], m[i], v, v, n);
      }
    }
    forall i, j | 0 <= i < n && 0 <= j < n
      ensures RowTracks(aug[i], m, n, j)
    {
      var c, col := aug[i][n..], Column(m, n, j);
      forall k | 0 <= k < n ensures At(c, k) == Delta(i, k) {
        assert Entry(aug, i, n + k) == Delta(i, k);
      }
      DotSingle(c, col, n, i);
      MulOneLeft(m[i][j]);
      assert Entry(aug, i, j) == m[i][j];
    }
  }

  /** A column without a pivot yields a nonzero kernel vector. */
  lemma NoPivotSingular(aug: Matrix, m: Matrix, n: nat, col: int)
    requires |m| == n && Progress(aug, m, n, col) && 0 <= col < n
    requires forall i | col <= i < n :: Entry(aug, i, col) == 0
    ensures !Nonsingular(m)
  {
    hide Add, Mul, Dot;
    var e := seq(n, k => Delta(k, col));
    var w := seq(n, k => if k < col then Entry(aug, k, col) else 0);
    var v := seq(n, k => if k < col then Entry(aug, k, col) else Delta(k, col));
    forall i | 0 <= i < n
      ensures Dot(aug[i], v, n) == 0
    {
      assert forall c | 0 <= c < col :: At(aug[i], c) == Entry(aug, i, c) == Delta(i, c);
      assert At(aug[i], col) == Entry(aug, i, col);
      if col <= i {
        DotZero(aug[i], v, n);
      } else {
        var x := Entry(aug, i, col);
        forall k | 0 <= k < n ensures At(v, k) == Add(At(w, k), Mul(1, At(e, k))) {
          MulZeroOne(1); AddZero(At(v, k));
        }
        DotComm(aug[i], v, n);
        DotLinear(v, w, 1, e, aug[i], n);
        DotSingle(w, aug[i], n, i); DotSingle(e, aug[i], n, col);
        MulZeroOne(x); MulOneLeft(x); AddZero(x);
      }
    }
    assert Kills(aug, v, n) && v[col] == 1;
  }

  lemma IdentityReached(aug: Matrix, m: Matrix, n: nat, e: Matrix)
    requires |m| == n && IsSquare(m) && Progress(aug, m, n, n)
    requires |e| == n && forall i | 0 <= i < n :: e[i] == aug[i][n..]
    ensures IsLeftInverse(e, m, n)
  {
    hide Dot;
    forall i, j | 0 <= i < n && 0 <= j < n
      ensures Combine(e[i], m, n, j) == Delta(i, j)
    {
      assert RowTracks(aug[i], m, n, j);
      assert Entry(aug, i, j) == Delta(i, j);
    }
  }

  // ---------------------------------------------------------------- the algorithm

  /** Multiplies `row` by `f` from column `col` on; the columns to the left must be zero to be skipped. */
  method ScaleFrom(row0: Vec, f: bv8, col: nat) returns (row: Vec)
    requires col <= |row0|
    requires forall k | 0 <= k < col :: row0[k] == 0
    ensures row == ScaledRow(row0, f)
  {
    hide Mul;
    MulZeroLeft(f);
    row := row0;
    for j := col to |row0|
      invariant |row| == |row0|
      invariant forall k | 0 <= k < j :: row[k] == Mul(row0[k], f)
      invariant forall k | j <= k < |row0| :: row[k] == row0[k]
    {
      var x := GfMul(row[j], f);
      row := row[j := x];
    }
  }

  /** Adds `f` times the pivot row from column `col` on. */
  method ReduceFrom(row0: Vec, f: bv8, pivot: Vec, col: nat) returns (row: Vec)
    requires col <= |row0| == |pivot|
    requires forall k | 0 <= k < col :: pivot[k] == 0
    ensures row == ReducedRow(row0, f, pivot)
  {
    hide Mul, Add;
    row := row0;
    forall k | 0 <= k < col ensures Add(row0[k], Mul(f, pivot[k])) == row0[k] {
      MulZeroOne(f); AddZero(row0[k]);
    }
    for j := col to |row0|
      invariant |row| == |row0|
      invariant forall k | 0 <= k < j :: row[k] == Add(row0[k], Mul(f, pivot[k]))
      invariant forall k | j <= k < |row0| :: row[k] == row0[k]
    {
      var x := GfMul(f, pivot[j]);
      row := row[j := Add(row[j], x)];
    }
  }

  method FindPivot(aug: array<Vec>, n: nat, col: nat) returns (pivot: int)
    requires Augmented(aug[..], n) && col < n
    ensures pivot == -1 || col <= pivot < n
    ensures pivot == -1 ==> forall i | col <= i < n :: Entry(aug[..], i, col) == 0
    ensures pivot != -1 ==> Entry(aug[..], pivot, col) != 0
    ensures pivot != -1 ==> forall i | col <= i < pivot :: Entry(aug[..], i, col) == 0
  {
    pivot := -1;
    for row := col to n
      invariant pivot == -1
      invariant forall i | col <= i < row :: Entry(aug[..], i, col) == 0
    {
      assert aug[..][row] == aug[row];
      if aug[row][col] != 0 {
        return row;
      }
    }
  }

  /** One round: bring a pivot to row `col`, make it 1 and clear the rest of the column. */
  method EliminateColumn(aug: array<Vec>, ghost m: Matrix, n: nat, col: nat, pivot: nat)
    requires |m| == n && aug.Length == n && Progress(aug[..], m, n, col)
    requires col <= pivot < n && Entry(aug[..], pivot, col) != 0
    modifies aug
    ensures Progress(aug[..], m, n, col + 1)
  {
    hide Add, Mul, Inv, Tracks, KeepsKernel;
    ghost var a0 := aug[..];
    if pivot != col {
      aug[pivot], aug[col] := aug[col], aug[pivot];
    }
    ghost var a1 := aug[..];
    assert a1 == a0[pivot := a0[col]][col := a0[pivot]];
    SwapKeeps(a0, m, n, col, pivot, a1);
    assert forall k | 0 <= k < col :: Entry(a1, col, k) == 0;
    assert aug[col] == a1[col];

    var p := aug[col][col];
    var invPivot := GfInv(p);
    InvNonzero(p);
    assert forall k | 0 <= k < col :: aug[col][k] == Entry(a1, col, k);
    aug[col] := ScaleFrom(aug[col], invPivot, col);
    ghost var a2 := aug[..];
    assert a2 == a1[col := ScaledRow(a1[col], invPivot)];
    ScaleKeeps(a1, m, n, col, invPivot, a2);
    assert Entry(a2, col, col) == 1;

    for row := 0 to n
      invariant Progress(aug[..], m, n, col)
      invariant Entry(aug[..], col, col) == 1
      invariant forall i | 0 <= i < row && i != col :: Entry(aug[..], i, col) == 0
    {
      ghost var b := aug[..];
      assert b[row] == aug[row] && b[col] == aug[col];
      assert forall k | 0 <= k < col :: aug[col][k] == Entry(b, col, k) == 0;
      if row != col && aug[row][col] != 0 {
        var factor := aug[row][col];
        aug[row] := ReduceFrom(aug[row], factor, aug[col], col);
        assert aug[..] == b[row := ReducedRow(b[row], factor, b[col])];
        ReduceKeeps(b, m, n, col, col, row, factor, aug[..]);
        MulZeroOne(factor); AddZero(factor);
        assert b[col][col] == Entry(b, col, col) == 1;
        assert Entry(aug[..], row, col) == 0;
        assert forall i | 0 <= i < n && i != row :: Entry(aug[..], i, col) == Entry(b, i, col);
      }
    }
    assert Reduced(aug[..], n, col + 1);
  }

  /**
   * Inverts a square matrix, or reports it unrecoverable. The inverse is a left inverse, and the
   * failure is reported exactly for the matrices that have a nonzero kernel vector.
   */
  method InvertMatrix(m: Matrix) returns (r: Result<Matrix, ChunkError>)
    ensures |m| == 0 || !IsSquare(m) ==> r == Err(Invalid)
    ensures |m| > 0 && IsSquare(m) ==> (r.Ok? <==> Nonsingular(m))
    ensures |m| > 0 && IsSquare(m) && !Nonsingular(m) ==> r == Err(Unrecoverable)
    ensures r.Ok? ==> IsLeftInverse(r.value, m, |m|)
  {
    hide Add, Mul, Dot;
    var n := |m|;
    if n == 0 {
      return Err(Invalid);
    }
    var aug := new Vec[n](i => []);
    for i := 0 to n
      invariant forall k | 0 <= k < i :: |m[k]| == n && |aug[k]| == 2 * n
      invariant forall k, j | 0 <= k < i && 0 <= j < n :: aug[k][j] == m[k][j] && aug[k][n + j] == Delta(k, j)
    {
      if |m[i]| != n {
        return Err(Invalid);
      }
      var row := m[i] + seq(n, j => 0 as bv8);
      aug[i] := row[n + i := 1];
    }
    StartProgress(aug[..], m, n);
    for col := 0 to n
      invariant Progress(aug[..], m, n, col)
    {
      var pivot := FindPivot(aug, n, col);
      if pivot < 0 {
        NoPivotSingular(aug[..], m, n, col);
        return Err(Unrecoverable);
      }
      EliminateColumn(aug, m, n, col, pivot);
    }
    var out := seq(n, i requires 0 <= i < n => []);
    for i := 0 to n
      invariant |out| == n
      invariant forall k | 0 <= k < i :: out[k] == aug[..][k][n..]
    {
      out := out[i := aug[i][n..]];
    }
    IdentityReached(aug[..], m, n, out);
    LeftInverseNonsingular(out, m);
    return Ok(out);
  }
}
