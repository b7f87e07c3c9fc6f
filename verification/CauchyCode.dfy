/** The coding matrix: identity rows for data shards, Cauchy rows for parity shards. */
module CauchyCode {
  import opened Gf256
  import opened LinearAlgebra
  import opened Sorting

  const MAX_SHARD_COUNT := 255

  function FromBits(b0: bool, b1: bool, b2: bool, b3: bool, b4: bool, b5: bool, b6: bool, b7: bool): (r: bv8) {
    (if b0 then 0x01 else 0) | (if b1 then 0x02 else 0) | (if b2 then 0x04 else 0) | (if b3 then 0x08 else 0) |
    (if b4 then 0x10 else 0) | (if b5 then 0x20 else 0) | (if b6 then 0x40 else 0) | (if b7 then 0x80 else 0)
  }

  /** The conversion byte(i), which keeps the low eight bits. */
  function ByteOf(i: int): (r: bv8) {
    var (i1, i2, i3, i4, i5, i6, i7) := Halves(i);
    FromBits(Odd(i), Odd(i1), Odd(i2), Odd(i3), Odd(i4), Odd(i5), Odd(i6), Odd(i7))
  }

  function Halves(i: int): (r: (int, int, int, int, int, int, int)) {
    var i1 := Half(i); var i2 := Half(i1); var i3 := Half(i2);
    var i4 := Half(i3); var i5 := Half(i4); var i6 := Half(i5);
    (i1, i2, i3, i4, i5, i6, Half(i6))
  }

  function Half(i: int): (r: int) {
    i / 2
  }

  function Odd(i: int): (r: bool) {
    i % 2 == 1
  }

  /** The abscissa of parity shard `index` and the ordinate of column `col`. */
  function X(index: int, n: nat): (r: bv8) {
    ByteOf(index - n + 1)
  }

  function Y(col: int): (r: bv8) {
    ByteOf(128 + col)
  }

  function CauchyEntry(index: int, n: nat, col: int): (r: bv8) {
    Inv(Add(X(index, n), Y(col)))
  }

  function CodingRow(index: int, n: nat): (r: Vec) {
    if index < n then seq(n, col => Delta(col, index))
    else seq(n, col => CauchyEntry(index, n, col))
  }

  method BuildCodingRow(index: nat, n: nat) returns (row: Vec)
    ensures row == CodingRow(index, n)
  {
    hide Add, Inv;
    row := seq(n, col => 0 as bv8);
    if index < n {
      row := row[index := 1];
      return;
    }
    var x := ByteOf(index - n + 1);
    for col := 0 to n
      invariant |row| == n
      invariant forall k | 0 <= k < col :: row[k] == CauchyEntry(index, n, k)
    {
      var y := ByteOf(128 + col);
      var e := GfInv(Add(x, y));
      row := row[col := e];
    }
  }

  /** The rows of the chunks with the given indices. */
  function CodingMatrix(indices: seq<int>, n: nat): (r: Matrix) {
    seq(|indices|, k requires 0 <= k < |indices| => CodingRow(indices[k], n))
  }

  /** `n` distinct chunk indices of an (n, p) encoding. */
  ghost predicate Selection(indices: seq<int>, n: nat, p: nat) {
    && |indices| == n
    && (forall k | 0 <= k < n :: 0 <= indices[k] < n + p)
    && forall k, l | 0 <= k < l < n :: indices[k] != indices[l]
  }

  // ---------------------------------------------------------------- bytes

  lemma FromBitsInjective(b0: bool, b1: bool, b2: bool, b3: bool, b4: bool, b5: bool, b6: bool, b7: bool,
                          c0: bool, c1: bool, c2: bool, c3: bool, c4: bool, c5: bool, c6: bool, c7: bool)
    requires FromBits(b0, b1, b2, b3, b4, b5, b6, b7) == FromBits(c0, c1, c2, c3, c4, c5, c6, c7)
    ensures b0 == c0 && b1 == c1 && b2 == c2 && b3 == c3 && b4 == c4 && b5 == c5 && b6 == c6 && b7 == c7
  {
  }

  lemma HalfLaws(i: int, k: int)
    ensures i == (if Odd(i) then 1 else 0) + 2 * Half(i)
    ensures 0 <= i < 2 * k ==> 0 <= Half(i) < k
    ensures Half(i + 2 * k) == Half(i) + k && Odd(i + 2 * k) == Odd(i)
  {
  }

  lemma ByteInjective(i: int, j: int)
    requires 0 <= i < 256 && 0 <= j < 256 && ByteOf(i) == ByteOf(j)
    ensures i == j
  {
    hide FromBits, Odd, Half;
    var (i1, i2, i3, i4, i5, i6, i7) := Halves(i);
    var (j1, j2, j3, j4, j5, j6, j7) := Halves(j);
    FromBitsInjective(Odd(i), Odd(i1), Odd(i2), Odd(i3), Odd(i4), Odd(i5), Odd(i6), Odd(i7),
                      Odd(j), Odd(j1), Odd(j2), Odd(j3), Odd(j4), Odd(j5), Odd(j6), Odd(j7));
    HalvesLaws(i); HalvesLaws(j);
  }

  lemma HalvesLaws(i: int)
    requires 0 <= i < 256
    ensures var (i1, i2, i3, i4, i5, i6, i7) := Halves(i);
      && i == (if Odd(i) then 1 else 0) + 2 * i1 && i1 == (if Odd(i1) then 1 else 0) + 2 * i2
      && i2 == (if Odd(i2) then 1 else 0) + 2 * i3 && i3 == (if Odd(i3) then 1 else 0) + 2 * i4
      && i4 == (if Odd(i4) then 1 else 0) + 2 * i5 && i5 == (if Odd(i5) then 1 else 0) + 2 * i6
      && i6 == (if Odd(i6) then 1 else 0) + 2 * i7 && i7 == (if Odd(i7) then 1 else 0)
  {
    hide Odd, Half;
    var (i1, i2, i3, i4, i5, i6, i7) := Halves(i);
    HalfLaws(i, 128); HalfLaws(i1, 64); HalfLaws(i2, 32); HalfLaws(i3, 16);
    HalfLaws(i4, 8); HalfLaws(i5, 4); HalfLaws(i6, 2); HalfLaws(i7, 1);
  }

  lemma ByteWrap(i: int)
    ensures ByteOf(i + 256) == ByteOf(i)
  {
    hide FromBits, Odd, Half;
    var (i1, i2, i3, i4, i5, i6, i7) := Halves(i);
    HalfLaws(i, 128); HalfLaws(i1, 64); HalfLaws(i2, 32); HalfLaws(i3, 16);
    HalfLaws(i4, 8); HalfLaws(i5, 4); HalfLaws(i6, 2); HalfLaws(i7, 1);
  }

  /** Within 127 parity shards and 129 data shards all abscissas and ordinates differ. */
  lemma Separated(i: int, i': int, c: int, c': int, n: nat)
    requires n <= i < n + 127 && n <= i' < n + 127 && 0 <= c < n && 0 <= c' < n && n <= 129
    ensures X(i, n) != Y(c)
    ensures i != i' ==> X(i, n) != X(i', n)
    ensures c != c' ==> Y(c) != Y(c')
  {
    hide ByteOf;
    ByteWrap(0);
    var x, x' := i - n + 1, i' - n + 1;
    var y, y' := (128 + c) % 256, (128 + c') % 256;
    assert Y(c) == ByteOf(y) && Y(c') == ByteOf(y');
    if ByteOf(x) == ByteOf(y) {
      ByteInjective(x, y);
      assert false;
    }
    if ByteOf(x) == ByteOf(x') {
      ByteInjective(x, x');
    }
    if ByteOf(y) == ByteOf(y') {
      ByteInjective(y, y');
    }
  }

  // ---------------------------------------------------------------- the Cauchy kernel

  /** The partial-fraction identity behind one elimination step on a Cauchy block. */
  lemma EliminationIdentity(x: bv8, x': bv8, y: bv8, yc: bv8, v: bv8)
    requires x != y && x' != y && x != x'
    ensures var p, q := Inv(Add(x', y)), Inv(Add(x, y));
      var k := Mul(Add(x', yc), Inv(Add(x', x)));
      Mul(p, Mul(Mul(v, q), Add(y, yc))) == Mul(Add(q, Mul(k, Add(p, q))), v)
  {
    hide Add, Mul, Inv;
    var a, b, c, d, e := Add(x', y), Add(x, y), Add(y, yc), Add(x', x), Add(x', yc);
    var p, q, k := Inv(a), Inv(b), Mul(e, Inv(d));
    AddCancel(x, y); AddCancel(x', y); AddCancel(x', x);
    MulInv(a); MulInv(b); MulInv(d);
    var pq := Mul(p, q);
    assert d == Add(a, b) by {
      AddSwap(x', y, x, y); AddZero(y); AddZero(Add(x', x));
    }
    assert e == Add(a, c) by {
      AddAssoc(x', y, Add(y, yc)); AddAssoc(y, y, yc); AddZero(y); AddZero(yc);
    }
    assert Mul(a, pq) == q by {
      MulAssoc(a, p, q); MulOneLeft(q);
    }
    assert Mul(b, pq) == p by {
      MulComm(p, q); MulAssoc(b, q, p); MulOneLeft(p);
    }
    assert Mul(d, pq) == Add(p, q) by {
      MulAddLeft(a, b, pq); AddComm(p, q);
    }
    assert Mul(k, Add(p, q)) == Add(q, Mul(c, pq)) by {
      MulAssoc(e, Inv(d), Mul(d, pq)); MulAssoc(Inv(d), d, pq); MulComm(d, Inv(d)); MulOneLeft(pq);
      MulAddLeft(a, c, pq);
    }
    assert Add(q, Mul(k, Add(p, q))) == Mul(c, pq) by {
      AddAssoc(q, q, Mul(c, pq)); AddZero(q); AddZero(Mul(c, pq));
    }
    calc {
      Mul(p, Mul(Mul(v, q), c));
      { MulComm(Mul(v, q), c); MulComm(v, q); MulAssoc(c, q, v); }
      Mul(p, Mul(Mul(c, q), v));
      { MulAssoc(p, Mul(c, q), v); MulAssoc(p, c, q); MulComm(p, c); MulAssoc(c, p, q); }
      Mul(Mul(c, pq), v);
    }
  }

  ghost function Support(v: Vec): (r: set<int>) {
    set j | 0 <= j < |v| && v[j] != 0
  }

  /**
   * A vector that is killed by at least as many Cauchy rows as it has nonzero entries is zero.
   * Clearing entry `c` with row `i` turns the remaining equations into those of the smaller vector `u`.
   */
  lemma {:induction false} CauchyKernel(rows: set<int>, n: nat, v: Vec)
    requires n <= 129 && |v| == n
    requires forall i | i in rows :: n <= i < n + 127
    requires forall i | i in rows :: Dot(CodingRow(i, n), v, n) == 0
    requires |Support(v)| <= |rows|
    ensures IsZero(v)
    decreases rows
  {
    hide Add, Mul, Inv, Dot, X, Y, CodingRow;
    if c :| c in Support(v) {
      var i := AnyRow(rows);
      var q := CodingRow(i, n);
      var u := seq(n, j requires 0 <= j < n => Mul(Mul(v[j], At(q, j)), Add(Y(j), Y(c))));
      forall i' | i' in rows - {i}
        ensures Dot(CodingRow(i', n), u, n) == 0
      {
        ClearedEquation(i, i', n, c, v, u);
      }
      ClearedSupport(i, n, c, v, u);
      assert Support(u) <= Support(v) - {c};
      SubsetSize(Support(u), Support(v) - {c});
      CauchyKernel(rows - {i}, n, u);
      OnlyOneLeft(i, n, c, v, u);
      assert false;
    }
    assert forall k | 0 <= k < n :: v[k] == 0 || k in Support(v);
  }

  lemma AnyRow<T>(rows: set<T>) returns (i: T)
    requires rows != {}
    ensures i in rows
  {
    i :| i in rows;
  }

  lemma ParityRow(i: int, n: nat, j: int)
    requires n <= i && 0 <= j < n
    ensures At(CodingRow(i, n), j) == CauchyEntry(i, n, j)
  {
    hide Inv, Add, X, Y;
  }

  /** Row `i'` kills the cleared vector `u` because it and row `i` kill `v`. */
  lemma ClearedEquation(i: int, i': int, n: nat, c: int, v: Vec, u: Vec)
    requires n <= 129 && |v| == |u| == n && 0 <= c < n
    requires n <= i < n + 127 && n <= i' < n + 127 && i != i'
    requires Dot(CodingRow(i, n), v, n) == 0 && Dot(CodingRow(i', n), v, n) == 0
    requires forall j | 0 <= j < n :: u[j] == Mul(Mul(v[j], At(CodingRow(i, n), j)), Add(Y(j), Y(c)))
    ensures Dot(CodingRow(i', n), u, n) == 0
  {
    hide Add, Mul, Inv, Dot, X, Y, CodingRow;
    var q, p := CodingRow(i, n), CodingRow(i', n);
    var k := Mul(Add(X(i', n), Y(c)), Inv(Add(X(i', n), X(i, n))));
    var s := seq(n, j => Add(At(p, j), At(q, j)));
    var r := seq(n, j => Add(At(q, j), Mul(k, At(s, j))));
    forall j | 0 <= j < n ensures At(s, j) == Add(At(p, j), Mul(1, At(q, j))) {
      MulOneLeft(At(q, j));
    }
    DotLinear(s, p, 1, q, v, n);
    DotLinear(r, q, k, s, v, n);
    MulZeroOne(1); MulZeroOne(k); AddZero(0);
    forall j | 0 <= j < n ensures Mul(At(p, j), At(u, j)) == Mul(At(r, j), At(v, j)) {
      Separated(i, i', j, c, n); Separated(i', i, j, c, n);
      ParityRow(i, n, j); ParityRow(i', n, j);
      EliminationIdentity(X(i, n), X(i', n), Y(j), Y(c), v[j]);
    }
    DotEq(p, r, u, v, n);
  }

  lemma ClearedSupport(i: int, n: nat, c: int, v: Vec, u: Vec)
    requires |v| == |u| == n && 0 <= c < n
    requires forall j | 0 <= j < n :: u[j] == Mul(Mul(v[j], At(CodingRow(i, n), j)), Add(Y(j), Y(c)))
    ensures Support(u) <= Support(v) - {c}
  {
    hide Add, Mul, Inv, Y, CodingRow;
    forall j | 0 <= j < n && (j == c || v[j] == 0) ensures u[j] == 0 {
      var q := At(CodingRow(i, n), j);
      AddZero(Y(c)); MulZeroOne(Mul(v[j], q)); MulZeroLeft(q); MulZeroLeft(Add(Y(j), Y(c)));
    }
  }

  lemma OnlyOneLeft(i: int, n: nat, c: int, v: Vec, u: Vec)
    requires n <= 129 && |v| == |u| == n && 0 <= c < n && n <= i < n + 127
    requires forall j | 0 <= j < n :: u[j] == Mul(Mul(v[j], At(CodingRow(i, n), j)), Add(Y(j), Y(c)))
    requires IsZero(u) && Dot(CodingRow(i, n), v, n) == 0
    ensures v[c] == 0
  {
    hide Add, Mul, Inv, X, Y, Dot, CodingRow;
    var q := CodingRow(i, n);
    forall j | 0 <= j < n ensures At(q, j) != 0 {
      Separated(i, i, j, c, n); ParityRow(i, n, j);
      AddCancel(X(i, n), Y(j)); InvNonzero(Add(X(i, n), Y(j)));
    }
    forall j | 0 <= j < n && j != c ensures v[j] == 0 {
      Separated(i, i, j, c, n);
      NoZeroDivisors(Mul(v[j], At(q, j)), Add(Y(j), Y(c)));
      AddCancel(Y(j), Y(c));
      NoZeroDivisors(v[j], At(q, j));
    }
    DotSingle(q, v, n, c);
    NoZeroDivisors(At(q, c), v[c]);
  }

  // ---------------------------------------------------------------- which selections can be decoded

  ghost function Range(n: nat): (r: set<int>)
    ensures forall i :: i in r <==> 0 <= i < n
    ensures |r| == n
  {
    if n == 0 then {} else Range(n - 1) + {n - 1}
  }

  /** Within the safe range any `n` distinct chunks determine the data. */
  lemma SafeRange(indices: seq<int>, n: nat, p: nat)
    requires n <= 129 && p <= 127 && Selection(indices, n, p)
    ensures Nonsingular(CodingMatrix(indices, n))
  {
    hide Dot;
    var m := CodingMatrix(indices, n);
    var all, data, parity := set x | x in indices, set x | x in indices && x < n, set x | x in indices && n <= x;
    DistinctSize(indices);
    assert all == data + parity;
    forall v: Vec | |v| == n && Kills(m, v, n)
      ensures IsZero(v)
    {
      forall i | i in all
        ensures Dot(CodingRow(i, n), v, n) == 0
      {
        var k :| 0 <= k < n && indices[k] == i;
        assert m[k] == CodingRow(i, n);
      }
      forall i | i in data
        ensures i !in Support(v)
      {
        UnitRow(i, n, v);
      }
      var cols := Range(n);
      assert Support(v) <= cols - data;
      SubsetSize(Support(v), cols - data);
      assert data <= cols;
      assert cols == data + (cols - data);
      CauchyKernel(parity, n, v);
    }
  }

  lemma UnitRow(i: int, n: nat, v: Vec)
    requires 0 <= i < n == |v|
    ensures Dot(CodingRow(i, n), v, n) == v[i]
  {
    hide Mul;
    DotSingle(CodingRow(i, n), v, n, i);
    MulOneLeft(v[i]);
  }

  /** Replacing data shard `c` by a parity shard whose entry at `c` vanished leaves column `c` undetermined. */
  lemma VanishedEntry(i: int, c: int, n: nat, p: nat) returns (indices: seq<int>)
    requires n <= i < n + p && 0 <= c < n
    requires X(i, n) == Y(c)
    ensures Selection(indices, n, p)
    ensures !Nonsingular(CodingMatrix(indices, n))
  {
    hide Mul, Add, X, Y, Dot;
    indices := seq(n, k => if k == c then i else k);
    var m := CodingMatrix(indices, n);
    var e := seq(n, k => Delta(k, c));
    forall k | 0 <= k < n
      ensures Dot(m[k], e, n) == 0
    {
      if k == c {
        AddZero(X(i, n));
        ParityRow(i, n, c);
      }
      DotZero(m[k], e, n);
    }
    assert Kills(m, e, n) && e[c] == 1;
  }

  /** Every choice of `n` chunks can be decoded exactly when n <= 129 and p <= 127. */
  lemma SafeRangeIsExact(n: nat, p: nat)
    requires n >= 1 && p >= 1 && n + p <= MAX_SHARD_COUNT
    ensures (forall indices | Selection(indices, n, p) :: Nonsingular(CodingMatrix(indices, n)))
            <==> n <= 129 && p <= 127
  {
    hide ByteOf, Nonsingular, CodingMatrix, CodingRow;
    if n <= 129 && p <= 127 {
      forall indices | Selection(indices, n, p) ensures Nonsingular(CodingMatrix(indices, n)) {
        SafeRange(indices, n, p);
      }
    } else if p > 127 {
      var indices := VanishedEntry(n + 127, 0, n, p);
    } else {
      ByteWrap(1);
      var indices := VanishedEntry(n, 129, n, p);
    }
  }
}
