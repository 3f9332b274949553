/**
 * Exact power-of-two matrix balancing: the integer-exponent `balance` of a square
 * matrix and the four routines that apply a vector of base-2 exponents to the rows
 * or the columns of a matrix, or undo it. `ldexp(x, e)` is `x * 2^e` on reals.
 */
module MatBalance {
  import opened Wrappers
  import opened PowersOfTwo

  /** The `std::range_error` the routines throw, with its message. */
  datatype BalanceError = RangeError(message: string)

  const NotSquare := RangeError("Matrix balancing is only possible on a square matrix!")
  const FactorMismatch := RangeError("Matrix balancing factor does not match the dimension of the matrix!")

  /** `std::numeric_limits<double>::epsilon()`, 2^-52. */
  const Epsilon: real := 1.0 / 4503599627370496.0

  // ---------------------------------------------------------------------------
  // Applying balance exponents.
  // ---------------------------------------------------------------------------

  /** The entries of a matrix, row by row. */
  ghost function Entries(A: array2<real>): (m: seq<seq<real>>)
    reads A
    ensures |m| == A.Length0
    ensures forall i :: 0 <= i < |m| ==> |m[i]| == A.Length1
  {
    seq(A.Length0, i requires 0 <= i < A.Length0 reads A =>
      seq(A.Length1, j requires 0 <= j < A.Length1 reads A => A[i, j]))
  }

  /** Every entry of row `i` multiplied by `2^D[i]`. */
  function ScaledRows(m: seq<seq<real>>, d: seq<int>): (r: seq<seq<real>>)
    requires |d| == |m|
    ensures |r| == |m|
    ensures forall i :: 0 <= i < |m| ==> |r[i]| == |m[i]|
  {
    seq(|m|, i requires 0 <= i < |m| =>
      seq(|m[i]|, j requires 0 <= j < |m[i]| => Ldexp(m[i][j], d[i])))
  }

  /** Every entry of column `j` multiplied by `2^D[j]`. */
  function ScaledCols(m: seq<seq<real>>, d: seq<int>): (r: seq<seq<real>>)
    requires forall i :: 0 <= i < |m| ==> |m[i]| == |d|
    ensures |r| == |m|
    ensures forall i :: 0 <= i < |m| ==> |r[i]| == |d|
  {
    seq(|m|, i requires 0 <= i < |m| =>
      seq(|d|, j requires 0 <= j < |d| => Ldexp(m[i][j], d[j])))
  }

  function Negated(d: seq<int>): (r: seq<int>)
    ensures |r| == |d|
    ensures forall i :: 0 <= i < |d| ==> r[i] == -d[i]
  {
    seq(|d|, i requires 0 <= i < |d| => -d[i])
  }

  /** The inverse row scaling undoes the row scaling, and the other way round. */
  lemma RowScalingRoundTrip(m: seq<seq<real>>, d: seq<int>)
    requires |d| == |m|
    ensures ScaledRows(ScaledRows(m, d), Negated(d)) == m
    ensures ScaledRows(ScaledRows(m, Negated(d)), d) == m
  {
    var r1 := ScaledRows(ScaledRows(m, d), Negated(d));
    var r2 := ScaledRows(ScaledRows(m, Negated(d)), d);
    forall i | 0 <= i < |m|
      ensures r1[i] == m[i] && r2[i] == m[i]
    {
      forall j | 0 <= j < |m[i]|
        ensures r1[i][j] == m[i][j] && r2[i][j] == m[i][j]
      {
        LdexpRoundTrip(m[i][j], d[i]);
      }
    }
  }

  /** The inverse column scaling undoes the column scaling, and the other way round. */
  lemma ColScalingRoundTrip(m: seq<seq<real>>, d: seq<int>)
    requires forall i :: 0 <= i < |m| ==> |m[i]| == |d|
    ensures ScaledCols(ScaledCols(m, d), Negated(d)) == m
    ensures ScaledCols(ScaledCols(m, Negated(d)), d) == m
  {
    var r1 := ScaledCols(ScaledCols(m, d), Negated(d));
    var r2 := ScaledCols(ScaledCols(m, Negated(d)), d);
    forall i | 0 <= i < |m|
      ensures r1[i] == m[i] && r2[i] == m[i]
    {
      forall j | 0 <= j < |d|
        ensures r1[i][j] == m[i][j] && r2[i][j] == m[i][j]
      {
        LdexpRoundTrip(m[i][j], d[j]);
      }
    }
  }

  /** Multiplies every entry of row `i` of `A` by `2^e[i]`, row after row. */
  method ScaleRowsInPlace(A: array2<real>, e: seq<int>)
    requires |e| == A.Length0
    modifies A
    ensures Entries(A) == ScaledRows(old(Entries(A)), e)
  {
    ghost var m := Entries(A);
    var i := 0;
    while i < A.Length0
      invariant 0 <= i <= A.Length0
      invariant forall r, c :: 0 <= r < A.Length0 && 0 <= c < A.Length1 ==>
        A[r, c] == if r < i then Ldexp(m[r][c], e[r]) else m[r][c]
    {
      var j := 0;
      while j < A.Length1
        invariant 0 <= j <= A.Length1
        invariant forall r, c :: 0 <= r < A.Length0 && 0 <= c < A.Length1 ==>
          A[r, c] == if r < i || (r == i && c < j) then Ldexp(m[r][c], e[r]) else m[r][c]
      {
        A[i, j] := Ldexp(A[i, j], e[i]);
        j := j + 1;
      }
      i := i + 1;
    }
    assert forall r :: 0 <= r < A.Length0 ==> Entries(A)[r] == ScaledRows(m, e)[r];
  }

  /** Multiplies every entry of column `j` of `A` by `2^e[j]`, column after column. */
  method ScaleColsInPlace(A: array2<real>, e: seq<int>)
    requires |e| == A.Length1
    modifies A
    ensures Entries(A) == ScaledCols(old(Entries(A)), e)
  {
    ghost var m := Entries(A);
    var j := 0;
    while j < A.Length1
      invariant 0 <= j <= A.Length1
      invariant forall r, c :: 0 <= r < A.Length0 && 0 <= c < A.Length1 ==>
        A[r, c] == if c < j then Ldexp(m[r][c], e[c]) else m[r][c]
    {
      var i := 0;
      while i < A.Length0
        invariant 0 <= i <= A.Length0
        invariant forall r, c :: 0 <= r < A.Length0 && 0 <= c < A.Length1 ==>
          A[r, c] == if c < j || (c == j && r < i) then Ldexp(m[r][c], e[c]) else m[r][c]
      {
        A[i, j] := Ldexp(A[i, j], e[j]);
        i := i + 1;
      }
      j := j + 1;
    }
    assert forall r :: 0 <= r < A.Length0 ==> Entries(A)[r] == ScaledCols(m, e)[r];
  }

  /** `apply_right_bal_exp(D, A)`: row `i` scaled by `2^D[i]`; the row count must be `|D|`. */
  method ApplyRightBalExp(d: seq<int>, A: array2<real>) returns (res: Result<(), BalanceError>)
    modifies A
    ensures res.Err? <==> A.Length0 != |d|
    ensures res.Err? ==> res.error == FactorMismatch && Entries(A) == old(Entries(A))
    ensures res.Ok? ==> Entries(A) == ScaledRows(old(Entries(A)), d)
  {
    if A.Length0 != |d| {
      return Err(FactorMismatch);
    }
    ScaleRowsInPlace(A, d);
    res := Ok(());
  }

  /** `apply_left_bal_exp(A, D)`: column `j` scaled by `2^D[j]`; the column count must be `|D|`. */
  method ApplyLeftBalExp(A: array2<real>, d: seq<int>) returns (res: Result<(), BalanceError>)
    modifies A
    ensures res.Err? <==> A.Length1 != |d|
    ensures res.Err? ==> res.error == FactorMismatch && Entries(A) == old(Entries(A))
    ensures res.Ok? ==> Entries(A) == ScaledCols(old(Entries(A)), d)
  {
    if A.Length1 != |d| {
      return Err(FactorMismatch);
    }
    ScaleColsInPlace(A, d);
    res := Ok(());
  }

  /** `apply_right_bal_inv_exp(D, A)`: row `i` scaled by `2^-D[i]`. */
  method ApplyRightBalInvExp(d: seq<int>, A: array2<real>) returns (res: Result<(), BalanceError>)
    modifies A
    ensures res.Err? <==> A.Length0 != |d|
    ensures res.Err? ==> res.error == FactorMismatch && Entries(A) == old(Entries(A))
    ensures res.Ok? ==> Entries(A) == ScaledRows(old(Entries(A)), Negated(d))
  {
    if A.Length0 != |d| {
      return Err(FactorMismatch);
    }
    var nd := seq(|d|, i requires 0 <= i < |d| => -d[i]);
    ScaleRowsInPlace(A, nd);
    res := Ok(());
  }

  /** `apply_left_bal_inv_exp(A, D)`: column `j` scaled by `2^-D[j]`. */
  method ApplyLeftBalInvExp(A: array2<real>, d: seq<int>) returns (res: Result<(), BalanceError>)
    modifies A
    ensures res.Err? <==> A.Length1 != |d|
    ensures res.Err? ==> res.error == FactorMismatch && Entries(A) == old(Entries(A))
    ensures res.Ok? ==> Entries(A) == ScaledCols(old(Entries(A)), Negated(d))
  {
    if A.Length1 != |d| {
      return Err(FactorMismatch);
    }
    var nd := seq(|d|, i requires 0 <= i < |d| => -d[i]);
    ScaleColsInPlace(A, nd);
    res := Ok(());
  }

  // ---------------------------------------------------------------------------
  // Off-diagonal magnitudes.
  // ---------------------------------------------------------------------------

  function Abs(x: real): (a: real)
    ensures a >= 0.0 && (a == x || a == -x)
  {
    if x < 0.0 then -x else x
  }

  /** The sum of a sequence of reals, accumulated front to back. */
  function Sum(s: seq<real>): real
  {
    if |s| == 0 then 0.0 else Sum(s[..|s| - 1]) + s[|s| - 1]
  }

  predicate Square(m: seq<seq<real>>)
  {
    forall r :: 0 <= r < |m| ==> |m[r]| == |m|
  }

  /** `fabs(A(r, c))` off the diagonal, nothing on it. */
  function OffEntry(m: seq<seq<real>>, r: nat, c: nat): real
    requires Square(m) && r < |m| && c < |m|
  {
    if r == c then 0.0 else Abs(m[r][c])
  }

  function RowTerms(m: seq<seq<real>>, i: nat): (t: seq<real>)
    requires Square(m) && i < |m|
    ensures |t| == |m|
  {
    seq(|m|, c requires 0 <= c < |m| => OffEntry(m, i, c))
  }

  function ColTerms(m: seq<seq<real>>, i: nat): (t: seq<real>)
    requires Square(m) && i < |m|
    ensures |t| == |m|
  {
    seq(|m|, r requires 0 <= r < |m| => OffEntry(m, r, i))
  }

  /** `row_mag`: the absolute values of row `i` off the diagonal, summed. */
  function RowMagnitude(m: seq<seq<real>>, i: nat): real
    requires Square(m) && i < |m|
  {
    Sum(RowTerms(m, i))
  }

  /** `col_mag`: the absolute values of column `i` off the diagonal, summed. */
  function ColMagnitude(m: seq<seq<real>>, i: nat): real
    requires Square(m) && i < |m|
  {
    Sum(ColTerms(m, i))
  }

  /** All off-diagonal magnitude of the matrix: the quantity balancing drives down. */
  function OffMass(m: seq<seq<real>>): real
    requires Square(m)
  {
    Sum(seq(|m|, r requires 0 <= r < |m| => RowMagnitude(m, r)))
  }

  lemma {:induction false} SumNonNegative(s: seq<real>)
    requires forall k :: 0 <= k < |s| ==> s[k] >= 0.0
    ensures Sum(s) >= 0.0
  {
    if |s| > 0 {
      SumNonNegative(s[..|s| - 1]);
    }
  }

  /** Scaling every term by `2^e` scales the sum by `2^e`. */
  lemma {:induction false} SumLdexp(s: seq<real>, t: seq<real>, e: int)
    requires |t| == |s|
    requires forall k :: 0 <= k < |s| ==> t[k] == Ldexp(s[k], e)
    ensures Sum(t) == Ldexp(Sum(s), e)
  {
    if |s| > 0 {
      var n := |s| - 1;
      SumLdexp(s[..n], t[..n], e);
      LdexpDistributes(Sum(s[..n]), s[n], e);
    }
  }

  lemma {:induction false} SumOfDifference(s: seq<real>, t: seq<real>, d: seq<real>)
    requires |t| == |s| == |d|
    requires forall k :: 0 <= k < |s| ==> t[k] == s[k] + d[k]
    ensures Sum(t) == Sum(s) + Sum(d)
  {
    if |s| > 0 {
      SumOfDifference(s[..|s| - 1], t[..|t| - 1], d[..|d| - 1]);
    }
  }

  lemma {:induction false} SumOfSingle(d: seq<real>, i: nat)
    requires i < |d|
    requires forall k :: 0 <= k < |d| && k != i ==> d[k] == 0.0
    ensures Sum(d) == d[i]
  {
    if |d| - 1 > i {
      SumOfSingle(d[..|d| - 1], i);
    } else {
      SumOfZeros(d[..|d| - 1]);
    }
  }

  lemma {:induction false} SumOfZeros(d: seq<real>)
    requires forall k :: 0 <= k < |d| ==> d[k] == 0.0
    ensures Sum(d) == 0.0
  {
    if |d| > 0 {
      SumOfZeros(d[..|d| - 1]);
    }
  }

  lemma OffMassNonNegative(m: seq<seq<real>>)
    requires Square(m)
    ensures OffMass(m) >= 0.0
  {
    forall r | 0 <= r < |m|
      ensures RowMagnitude(m, r) >= 0.0
    {
      SumNonNegative(RowTerms(m, r));
    }
    SumNonNegative(seq(|m|, r requires 0 <= r < |m| => RowMagnitude(m, r)));
  }

  /** Reads `fabs` of row `i` and column `i` off the diagonal, as the inner `j` loop does. */
  method OffDiagonalMagnitudes(A: array2<real>, i: nat) returns (rowMag: real, colMag: real)
    requires A.Length0 == A.Length1 && i < A.Length0
    ensures rowMag == RowMagnitude(Entries(A), i)
    ensures colMag == ColMagnitude(Entries(A), i)
  {
    ghost var m := Entries(A);
    ghost var rt, ct := RowTerms(m, i), ColTerms(m, i);
    rowMag, colMag := 0.0, 0.0;
    for j := 0 to A.Length0
      invariant rowMag == Sum(rt[..j])
      invariant colMag == Sum(ct[..j])
    {
      if j != i {
        colMag := colMag + Abs(A[j, i]);
        rowMag := rowMag + Abs(A[i, j]);
      }
      assert rt[..j + 1][..j] == rt[..j] && ct[..j + 1][..j] == ct[..j];
    }
    assert rt[..A.Length0] == rt && ct[..A.Length0] == ct;
  }

  // ---------------------------------------------------------------------------
  // The exponent search.
  // ---------------------------------------------------------------------------

  lemma QuarterFloor(y: real)
    requires y > 1.0
    ensures (y / 4.0).Floor < y.Floor
  {
  }

  lemma RatioAboveOne(x: real, y: real)
    requires 0.0 < y < x
    ensures x / y > 1.0
  {
  }

  /** Quadrupling `c` divides the ratio `g / c` by four, and quartering `c` divides `c / g` by four. */
  lemma QuarterRatio(x: real, y: real)
    requires 0.0 < y < x
    ensures x / Ldexp(y, 2) == (x / y) / 4.0
    ensures Ldexp(x, -2) / y == (x / y) / 4.0
    ensures (x / y).Floor >= 1
  {
    assert Pow2(2) == 4.0 && Pow2(-2) == 0.25;
    RatioAboveOne(x, y);
  }

  /** The first `while`: quadruple `c`, counting up `f`, until `c` reaches `g`. */
  function ScaleUp(g: real, c: real, f: int): (r: (int, real))
    requires c > 0.0
    decreases if c < g then (g / c).Floor else 0
  {
    if c < g then
      QuarterRatio(g, c);
      QuarterFloor(g / c);
      ScaleUp(g, Ldexp(c, 2), f + 1)
    else (f, c)
  }

  /** The second `while`: quarter `c`, counting down `f`, until `c` is no more than `g`. */
  function ScaleDown(g: real, c: real, f: int): (r: (int, real))
    requires g > 0.0
    decreases if c > g then (c / g).Floor else 0
  {
    if c > g then
      QuarterRatio(c, g);
      QuarterFloor(c / g);
      ScaleDown(g, Ldexp(c, -2), f - 1)
    else (f, c)
  }

  /**
   * The exponent `f` the search settles on for magnitudes `row` and `col`, with the
   * column magnitude scaled by `4^f` that it ends with.
   */
  function BalancingExponent(row: real, col: real): (r: (int, real))
    requires row > 0.0 && col > 0.0
  {
    var (f, c) := ScaleUp(Ldexp(row, -1), col, 0);
    ScaleDown(Ldexp(row, 1), c, f)
  }

  lemma {:induction false} ScaleUpBrackets(g: real, c: real, f: int, col: real)
    requires c > 0.0 && c == Ldexp(col, 2 * f)
    ensures ScaleUp(g, c, f).1 == Ldexp(col, 2 * ScaleUp(g, c, f).0)
    ensures ScaleUp(g, c, f).1 >= g && ScaleUp(g, c, f).1 >= c
    decreases if c < g then (g / c).Floor else 0
  {
    if c < g {
      QuarterRatio(g, c);
      QuarterFloor(g / c);
      LdexpAdd(col, 2 * f, 2);
      ScaleUpBrackets(g, Ldexp(c, 2), f + 1, col);
    }
  }

  lemma {:induction false} ScaleDownBrackets(g: real, c: real, f: int, col: real, low: real)
    requires g > 0.0 && c == Ldexp(col, 2 * f) && c >= low && 4.0 * low <= g
    ensures ScaleDown(g, c, f).1 == Ldexp(col, 2 * ScaleDown(g, c, f).0)
    ensures low <= ScaleDown(g, c, f).1 <= g
    decreases if c > g then (c / g).Floor else 0
  {
    if c > g {
      QuarterRatio(c, g);
      QuarterFloor(c / g);
      assert Ldexp(c, -2) >= low by { assert Pow2(-2) == 0.25; }
      LdexpAdd(col, 2 * f, -2);
      ScaleDownBrackets(g, Ldexp(c, -2), f - 1, col, low);
    }
  }

  /**
   * The search ends with `4^f * col` within a factor of two of `row`: between
   * `row / 2` and `2 * row`.
   */
  lemma ExponentBrackets(row: real, col: real)
    requires row > 0.0 && col > 0.0
    ensures BalancingExponent(row, col).1 == Ldexp(col, 2 * BalancingExponent(row, col).0)
    ensures Ldexp(row, -1) <= BalancingExponent(row, col).1 <= Ldexp(row, 1)
  {
    assert Ldexp(col, 0) == col;
    ScaleUpBrackets(Ldexp(row, -1), col, 0, col);
    var (f, c) := ScaleUp(Ldexp(row, -1), col, 0);
    ScaleDownBrackets(Ldexp(row, 1), c, f, col, Ldexp(row, -1));
  }

  /** The two `while` loops of `balance` that pick the exponent for one index. */
  method SearchExponent(row: real, col: real) returns (f: int, c: real)
    requires row > 0.0 && col > 0.0
    ensures (f, c) == BalancingExponent(row, col)
  {
    var g := Ldexp(row, -1);
    f, c := 0, col;
    while c < g
      invariant c > 0.0
      invariant ScaleUp(g, c, f) == ScaleUp(g, col, 0)
      decreases if c < g then (g / c).Floor else 0
    {
      QuarterRatio(g, c);
      QuarterFloor(g / c);
      f := f + 1;
      c := Ldexp(c, 2);
    }
    ghost var f0, c0 := f, c;
    g := Ldexp(row, 1);
    while c > g
      invariant g > 0.0
      invariant ScaleDown(g, c, f) == ScaleDown(g, c0, f0)
      decreases if c > g then (c / g).Floor else 0
    {
      QuarterRatio(c, g);
      QuarterFloor(c / g);
      f := f - 1;
      c := Ldexp(c, -2);
    }
  }

  // ---------------------------------------------------------------------------
  // One rescaling step.
  // ---------------------------------------------------------------------------

  /** Column `i` multiplied by `2^e`. */
  function ColumnScaled(m: seq<seq<real>>, i: nat, e: int): (r: seq<seq<real>>)
    requires Square(m) && i < |m|
    ensures Square(r) && |r| == |m|
  {
    seq(|m|, a requires 0 <= a < |m| =>
      seq(|m|, b requires 0 <= b < |m| => if b == i then Ldexp(m[a][b], e) else m[a][b]))
  }

  /** Row `i` multiplied by `2^e`. */
  function RowScaled(m: seq<seq<real>>, i: nat, e: int): (r: seq<seq<real>>)
    requires Square(m) && i < |m|
    ensures Square(r) && |r| == |m|
  {
    seq(|m|, a requires 0 <= a < |m| =>
      seq(|m|, b requires 0 <= b < |m| => if a == i then Ldexp(m[a][b], e) else m[a][b]))
  }

  /**
   * The rescaling of index `i` by exponent `f` that the acceptance test of `balance`
   * measures: column `i` times `2^f`, then row `i` times `2^-f`.
   */
  function Rescaled(m: seq<seq<real>>, i: nat, f: int): (r: seq<seq<real>>)
    requires Square(m) && i < |m|
    ensures Square(r) && |r| == |m|
  {
    RowScaled(ColumnScaled(m, i, f), i, -f)
  }

  /** Entry by entry, a rescaling multiplies `(a, b)` by `2^(f[b == i] - f[a == i])`. */
  lemma RescaledEntry(m: seq<seq<real>>, i: nat, f: int, a: nat, b: nat)
    requires Square(m) && i < |m| && a < |m| && b < |m|
    ensures Rescaled(m, i, f)[a][b]
         == Ldexp(m[a][b], (if b == i then f else 0) - (if a == i then f else 0))
  {
    if a == i && b == i {
      LdexpAdd(m[a][b], f, -f);
    }
  }

  lemma RescaledRowTerm(m: seq<seq<real>>, i: nat, f: int, c: nat)
    requires Square(m) && i < |m| && c < |m|
    ensures RowTerms(Rescaled(m, i, f), i)[c] == Ldexp(RowTerms(m, i)[c], -f)
  {
    if c != i {
      RescaledEntry(m, i, f, i, c);
      LdexpAbs(m[i][c], -f);
    }
  }

  lemma RescaledColTerm(m: seq<seq<real>>, i: nat, f: int, c: nat)
    requires Square(m) && i < |m| && c < |m|
    ensures ColTerms(Rescaled(m, i, f), i)[c] == Ldexp(ColTerms(m, i)[c], f)
  {
    if c != i {
      RescaledEntry(m, i, f, c, i);
      LdexpAbs(m[c][i], f);
    }
  }

  /** Row `i` loses the factor `2^f` off the diagonal and column `i` gains it. */
  lemma RescaledMagnitudes(m: seq<seq<real>>, i: nat, f: int)
    requires Square(m) && i < |m|
    ensures RowMagnitude(Rescaled(m, i, f), i) == Ldexp(RowMagnitude(m, i), -f)
    ensures ColMagnitude(Rescaled(m, i, f), i) == Ldexp(ColMagnitude(m, i), f)
  {
    RescaledRowMagnitude(m, i, f);
    RescaledColMagnitude(m, i, f);
  }

  lemma RescaledRowMagnitude(m: seq<seq<real>>, i: nat, f: int)
    requires Square(m) && i < |m|
    ensures RowMagnitude(Rescaled(m, i, f), i) == Ldexp(RowMagnitude(m, i), -f)
  {
    var t, t' := RowTerms(m, i), RowTerms(Rescaled(m, i, f), i);
    forall c | 0 <= c < |m|
      ensures t'[c] == Ldexp(t[c], -f)
    {
      RescaledRowTerm(m, i, f, c);
    }
    SumLdexp(t, t', -f);
  }

  lemma RescaledColMagnitude(m: seq<seq<real>>, i: nat, f: int)
    requires Square(m) && i < |m|
    ensures ColMagnitude(Rescaled(m, i, f), i) == Ldexp(ColMagnitude(m, i), f)
  {
    var t, t' := ColTerms(m, i), ColTerms(Rescaled(m, i, f), i);
    forall c | 0 <= c < |m|
      ensures t'[c] == Ldexp(t[c], f)
    {
      RescaledColTerm(m, i, f, c);
    }
    SumLdexp(t, t', f);
  }

  /** Any other row changes only in its entry in column `i`. */
  lemma RescaledOtherRow(m: seq<seq<real>>, i: nat, f: int, r: nat)
    requires Square(m) && i < |m| && r < |m| && r != i
    ensures RowMagnitude(Rescaled(m, i, f), r)
         == RowMagnitude(m, r) + (OffEntry(Rescaled(m, i, f), r, i) - OffEntry(m, r, i))
  {
    var m' := Rescaled(m, i, f);
    var diff := seq(|m|, c requires 0 <= c < |m| =>
      if c == i then OffEntry(m', r, i) - OffEntry(m, r, i) else 0.0);
    forall c | 0 <= c < |m|
      ensures RowTerms(m', r)[c] == RowTerms(m, r)[c] + diff[c]
    {
      RescaledEntry(m, i, f, r, c);
    }
    SumOfDifference(RowTerms(m, r), RowTerms(m', r), diff);
    SumOfSingle(diff, i);
  }

  /**
   * Rescaling index `i` changes the off-diagonal mass of the matrix exactly by the
   * change in row `i` and column `i`.
   */
  lemma RescaledOffMass(m: seq<seq<real>>, i: nat, f: int)
    requires Square(m) && i < |m|
    ensures OffMass(Rescaled(m, i, f))
         == OffMass(m) - (RowMagnitude(m, i) + ColMagnitude(m, i))
            + (RowMagnitude(Rescaled(m, i, f), i) + ColMagnitude(Rescaled(m, i, f), i))
  {
    var m' := Rescaled(m, i, f);
    var n := |m|;
    var rows := seq(n, r requires 0 <= r < n => RowMagnitude(m, r));
    var rows' := seq(n, r requires 0 <= r < n => RowMagnitude(m', r));
    var deltas := seq(n, r requires 0 <= r < n => rows'[r] - rows[r]);
    var colDiff := seq(n, r requires 0 <= r < n => ColTerms(m', i)[r] - ColTerms(m, i)[r]);
    var single := seq(n, r requires 0 <= r < n =>
      if r == i then RowMagnitude(m', i) - RowMagnitude(m, i) else 0.0);
    SumOfDifference(rows, rows', deltas);
    SumOfDifference(ColTerms(m, i), ColTerms(m', i), colDiff);
    SumOfSingle(single, i);
    forall r | 0 <= r < n
      ensures deltas[r] == colDiff[r] + single[r]
    {
      if r != i {
        RescaledOtherRow(m, i, f, r);
      }
    }
    SumOfDifference(colDiff, deltas, single);
  }

  lemma ScaleInequality(row: real, col: real, x: real, y: real, s: real)
    requires x > 0.0 && y > 0.0 && x * y == 1.0
    requires row + col * (x * x) < 0.95 * (s * x)
    ensures row * y + col * x < 0.95 * s
  {
    var lhs := row + col * (x * x);
    assert lhs * y < (0.95 * (s * x)) * y;
    assert (0.95 * (s * x)) * y == 0.95 * s * (x * y);
    assert lhs * y == row * y + col * x * (x * y);
  }

  /**
   * The acceptance test of `balance`, `row + 4^f col < 0.95 * 2^f (row + col)`,
   * holds exactly when scaling the column by `2^f` and the row by `2^-f` shrinks
   * their magnitudes to less than 95% of what they were.
   */
  lemma AcceptanceShrinks(row: real, col: real, f: int, c: real)
    requires row > 0.0 && col > 0.0 && c == Ldexp(col, 2 * f)
    requires row + c < 0.95 * Ldexp(col + row, f)
    ensures Ldexp(row, -f) + Ldexp(col, f) < 0.95 * (row + col)
  {
    var x, y := Pow2(f), Pow2(-f);
    Pow2Add(f, -f);
    Pow2Add(f, f);
    assert f + f == 2 * f;
    ScaleInequality(row, col, x, y, col + row);
  }

  /** The least decrease in off-diagonal mass of an accepted step: `0.05 * 2 * epsilon`. */
  const MassStep: real := Epsilon / 10.0

  /** Index `i` passes every test under which `balance` rescales it. */
  predicate WouldRescale(m: seq<seq<real>>, i: nat)
    requires Square(m) && i < |m|
  {
    var row, col := RowMagnitude(m, i), ColMagnitude(m, i);
    !(col < Epsilon || row < Epsilon) &&
    var (f, c) := BalancingExponent(row, col);
    row + c < 0.95 * Ldexp(col + row, f)
  }

  /** An accepted step lowers the off-diagonal mass by more than `MassStep`. */
  lemma AcceptedStepLowersMass(m: seq<seq<real>>, i: nat)
    requires Square(m) && i < |m| && WouldRescale(m, i)
    ensures OffMass(Rescaled(m, i, BalancingExponent(RowMagnitude(m, i), ColMagnitude(m, i)).0))
          < OffMass(m) - MassStep
  {
    var row, col := RowMagnitude(m, i), ColMagnitude(m, i);
    var (f, c) := BalancingExponent(row, col);
    ExponentBrackets(row, col);
    AcceptanceShrinks(row, col, f, c);
    RescaledMagnitudes(m, i, f);
    RescaledOffMass(m, i, f);
  }

  /** The first `for` over `j` of an accepted step: column `i` scaled by `2^e`. */
  method ScaleColumn(A: array2<real>, i: nat, e: int)
    requires A.Length0 == A.Length1 && i < A.Length0
    modifies A
    ensures Entries(A) == ColumnScaled(old(Entries(A)), i, e)
  {
    ghost var m := Entries(A);
    for j := 0 to A.Length0
      invariant forall r, c :: 0 <= r < A.Length0 && 0 <= c < A.Length1 ==>
        A[r, c] == if c == i && r < j then Ldexp(m[r][c], e) else m[r][c]
    {
      A[j, i] := Ldexp(A[j, i], e);
    }
    assert forall r :: 0 <= r < A.Length0 ==> Entries(A)[r] == ColumnScaled(m, i, e)[r];
  }

  /** The second `for` over `j` of an accepted step: row `i` scaled by `2^e`. */
  method ScaleRow(A: array2<real>, i: nat, e: int)
    requires A.Length0 == A.Length1 && i < A.Length0
    modifies A
    ensures Entries(A) == RowScaled(old(Entries(A)), i, e)
  {
    ghost var m := Entries(A);
    for j := 0 to A.Length0
      invariant forall r, c :: 0 <= r < A.Length0 && 0 <= c < A.Length1 ==>
        A[r, c] == if r == i && c < j then Ldexp(m[r][c], e) else m[r][c]
    {
      A[i, j] := Ldexp(A[i, j], e);
    }
    assert forall r :: 0 <= r < A.Length0 ==> Entries(A)[r] == RowScaled(m, i, e)[r];
  }

  /**
   * One index of a pass of `balance`: measure row and column `i`, skip them when
   * either is below epsilon, search the exponent, and rescale when the test accepts.
   */
  method BalanceIndex(A: array2<real>, i: nat) returns (f: int, rescaled: bool)
    requires A.Length0 == A.Length1 && i < A.Length0
    modifies A
    ensures rescaled <==> old(WouldRescale(Entries(A), i))
    ensures rescaled ==> f == old(BalancingExponent(RowMagnitude(Entries(A), i), ColMagnitude(Entries(A), i))).0
    ensures rescaled ==> Entries(A) == Rescaled(old(Entries(A)), i, f)
    ensures !rescaled ==> Entries(A) == old(Entries(A))
  {
    var rowMag, colMag := OffDiagonalMagnitudes(A, i);
    if colMag < Epsilon || rowMag < Epsilon {
      return 0, false;
    }
    var c;
    f, c := SearchExponent(rowMag, colMag);
    var s := colMag + rowMag;
    if rowMag + c < 0.95 * Ldexp(s, f) {
      ScaleColumn(A, i, f);
      ScaleRow(A, i, -f);
      rescaled := true;
    } else {
      rescaled := false;
    }
  }

  /** `m` is `m0` balanced by the exponents `d`: entry `(r, c)` is scaled by `2^(d[c] - d[r])`. */
  ghost predicate BalancedBy(m0: seq<seq<real>>, m: seq<seq<real>>, d: seq<int>)
    requires Square(m0) && Square(m) && |m0| == |m| == |d|
  {
    forall r, c {:trigger m[r][c]} :: 0 <= r < |m| && 0 <= c < |m| ==>
      m[r][c] == Ldexp(m0[r][c], d[c] - d[r])
  }

  /** Rescaling index `i` by `f` and adding `f` to its exponent keeps the relation. */
  lemma RescaleKeepsBalancedBy(m0: seq<seq<real>>, m: seq<seq<real>>, d: seq<int>, i: nat, f: int)
    requires Square(m0) && Square(m) && |m0| == |m| == |d| && i < |m|
    requires BalancedBy(m0, m, d)
    ensures BalancedBy(m0, Rescaled(m, i, f), d[i := d[i] + f])
  {
    var d' := d[i := d[i] + f];
    forall r, c | 0 <= r < |m| && 0 <= c < |m|
      ensures Rescaled(m, i, f)[r][c] == Ldexp(m0[r][c], d'[c] - d'[r])
    {
      var delta := (if c == i then f else 0) - (if r == i then f else 0);
      RescaledEntry(m, i, f, r, c);
      LdexpAdd(m0[r][c], d[c] - d[r], delta);
      assert d'[c] - d'[r] == d[c] - d[r] + delta;
    }
  }

  lemma DivideMonotone(x: real, y: real, step: real)
    requires step > 0.0 && x <= y
    ensures x / step <= y / step
  {
  }

  lemma CancelFactor(a: real, step: real)
    requires step > 0.0
    ensures (a * step) / step == a
  {
  }

  lemma DivideShift(y: real, step: real)
    requires step > 0.0
    ensures (y - step) / step == y / step - 1.0
  {
    var q := y / step;
    var p := q - 1.0;
    assert q * step == y;
    assert p * step == y - step;
    CancelFactor(p, step);
    assert (y - step) / step == p;
  }

  /** Balancing by any exponents leaves the diagonal as it was. */
  lemma BalancedKeepsDiagonal(m0: seq<seq<real>>, m: seq<seq<real>>, d: seq<int>)
    requires Square(m0) && Square(m) && |m0| == |m| == |d|
    requires BalancedBy(m0, m, d)
    ensures forall i :: 0 <= i < |m| ==> m[i][i] == m0[i][i]
  {
    forall i | 0 <= i < |m|
      ensures m[i][i] == m0[i][i]
    {
      assert m[i][i] == Ldexp(m0[i][i], d[i] - d[i]);
      assert Pow2(0) == 1.0;
    }
  }

  lemma FloorSteps(x: real, y: real, step: real)
    requires step > 0.0 && x <= y
    ensures (x / step).Floor <= (y / step).Floor
    ensures x <= y - step ==> (x / step).Floor < (y / step).Floor
  {
    DivideMonotone(x, y, step);
    if x <= y - step {
      DivideMonotone(x, y - step, step);
      DivideShift(y, step);
    }
  }

  /**
   * One pass of the `while (keep_going)` loop of `balance`: every index in turn.
   * A pass that rescales nothing leaves every index settled; one that rescales
   * something lowers the off-diagonal mass by at least `MassStep`.
   */
  method BalancePass(A: array2<real>, d: seq<int>, ghost m0: seq<seq<real>>)
      returns (d': seq<int>, keepGoing: bool)
    requires A.Length0 == A.Length1 && |d| == A.Length0 && Square(m0) && |m0| == A.Length0
    requires BalancedBy(m0, Entries(A), d)
    modifies A
    ensures |d'| == |d| && BalancedBy(m0, Entries(A), d')
    ensures OffMass(Entries(A)) <= old(OffMass(Entries(A)))
    ensures keepGoing ==> OffMass(Entries(A)) <= old(OffMass(Entries(A))) - MassStep
    ensures !keepGoing ==> Entries(A) == old(Entries(A))
    ensures !keepGoing ==> forall i :: 0 <= i < A.Length0 ==> !WouldRescale(Entries(A), i)
  {
    ghost var start := Entries(A);
    keepGoing := false;
    d' := d;
    for i := 0 to A.Length0
      invariant |d'| == |d| && BalancedBy(m0, Entries(A), d')
      invariant OffMass(Entries(A)) <= OffMass(start)
      invariant keepGoing ==> OffMass(Entries(A)) <= OffMass(start) - MassStep
      invariant !keepGoing ==> Entries(A) == start
      invariant !keepGoing ==> forall k :: 0 <= k < i ==> !WouldRescale(start, k)
    {
      ghost var before := Entries(A);
      var f, rescaled := BalanceIndex(A, i);
      if rescaled {
        keepGoing := true;
        AcceptedStepLowersMass(before, i);
        RescaleKeepsBalancedBy(m0, before, d', i, f);
        d' := d'[i := d'[i] + f];
      }
    }
  }

  /**
   * `balance(A, D)` with exponents: repeat passes over every index until a pass
   * rescales nothing. The result is the vector `D` of base-2 exponents with
   * `A_out(r, c) = A_in(r, c) * 2^(D[c] - D[r])`, that is `A_out = D^-1 A_in D`.
   */
  method Balance(A: array2<real>) returns (res: Result<seq<int>, BalanceError>)
    modifies A
    ensures res.Err? <==> A.Length0 != A.Length1
    ensures res.Err? ==> res.error == NotSquare && Entries(A) == old(Entries(A))
    ensures res.Ok? ==> |res.value| == A.Length0
    ensures res.Ok? ==> BalancedBy(old(Entries(A)), Entries(A), res.value)
    ensures res.Ok? ==> forall i :: 0 <= i < A.Length0 ==> A[i, i] == old(A[i, i])
    ensures res.Ok? ==> forall i :: 0 <= i < A.Length0 ==> !WouldRescale(Entries(A), i)
  {
    if A.Length0 != A.Length1 {
      return Err(NotSquare);
    }
    var n := A.Length0;
    var d := seq(n, _ => 0);
    ghost var m0 := Entries(A);
    forall r, c | 0 <= r < n && 0 <= c < n
      ensures m0[r][c] == Ldexp(m0[r][c], d[c] - d[r])
    {
      assert Pow2(0) == 1.0;
    }
    var keepGoing := true;
    OffMassNonNegative(m0);
    while keepGoing
      invariant |d| == n && BalancedBy(m0, Entries(A), d)
      invariant OffMass(Entries(A)) >= 0.0
      invariant !keepGoing ==> forall i :: 0 <= i < n ==> !WouldRescale(Entries(A), i)
      decreases (if keepGoing then 1 else 0) + (OffMass(Entries(A)) / MassStep).Floor
    {
      ghost var start := Entries(A);
      d, keepGoing := BalancePass(A, d, m0);
      OffMassNonNegative(Entries(A));
      FloorSteps(OffMass(Entries(A)), OffMass(start), MassStep);
    }
    BalancedKeepsDiagonal(m0, Entries(A), d);
    forall i | 0 <= i < n
      ensures A[i, i] == m0[i][i]
    {
      assert Entries(A)[i][i] == A[i, i];
    }
    return Ok(d);
  }

  // ---------------------------------------------------------------------------
  // The code as written.
  // ---------------------------------------------------------------------------

  /**
   * The step as written: column `i` times `2^-f`, then row `i` times `2^f`, the
   * opposite of the direction the acceptance test measured.
   */
  function AsWrittenRescaled(m: seq<seq<real>>, i: nat, f: int): (r: seq<seq<real>>)
    requires Square(m) && i < |m|
    ensures Square(r) && |r| == |m|
  {
    RowScaled(ColumnScaled(m, i, -f), i, f)
  }

  /** A 2x2 matrix whose column 0 outweighs its row 0 sixteen to one. */
  const Skewed: seq<seq<real>> := [[0.0, 1.0], [16.0, 0.0]]

  lemma SkewedExponent()
    ensures BalancingExponent(1.0, 16.0) == (-2, 1.0)
  {
    assert Ldexp(1.0, -1) == 0.5 && Ldexp(1.0, 1) == 2.0;
    assert Ldexp(16.0, -2) == 4.0 && Ldexp(4.0, -2) == 1.0;
    assert ScaleUp(0.5, 16.0, 0) == (0, 16.0);
    assert ScaleDown(2.0, 1.0, -2) == (-2, 1.0);
    assert ScaleDown(2.0, 4.0, -1) == (-2, 1.0);
  }

  lemma SumPair(a: real, b: real)
    ensures Sum([a, b]) == a + b
  {
    assert [a, b][..1] == [a];
    assert [a][..0] == [];
    assert Sum([a]) == Sum([]) + a;
    assert Sum([a, b]) == Sum([a]) + b;
  }

  lemma SkewedMagnitudes()
    ensures RowMagnitude(Skewed, 0) == 1.0 && ColMagnitude(Skewed, 0) == 16.0
    ensures OffMass(Skewed) == 17.0
  {
    assert RowTerms(Skewed, 0) == [0.0, 1.0] && RowTerms(Skewed, 1) == [16.0, 0.0];
    assert ColTerms(Skewed, 0) == [0.0, 16.0];
    SumPair(0.0, 1.0);
    SumPair(16.0, 0.0);
    SumPair(0.0, 16.0);
    SumPair(1.0, 16.0);
    assert seq(2, r requires 0 <= r < 2 => RowMagnitude(Skewed, r)) == [1.0, 16.0];
  }

  /** The two-by-two off-diagonal mass: the two off-diagonal magnitudes. */
  lemma PairOffMass(m: seq<seq<real>>)
    requires Square(m) && |m| == 2
    ensures OffMass(m) == Abs(m[0][1]) + Abs(m[1][0])
  {
    assert RowTerms(m, 0) == [0.0, Abs(m[0][1])] && RowTerms(m, 1) == [Abs(m[1][0]), 0.0];
    SumPair(0.0, Abs(m[0][1]));
    SumPair(Abs(m[1][0]), 0.0);
    assert seq(2, r requires 0 <= r < 2 => RowMagnitude(m, r)) == [Abs(m[0][1]), Abs(m[1][0])];
    SumPair(Abs(m[0][1]), Abs(m[1][0]));
  }

  /**
   * On `Skewed`, index 0 passes the test with `f = -2`. The step as written raises the
   * off-diagonal mass from 17 to 64.25 (entries 1/4 and 64); the step the test
   * measured lowers it to 8 (entries 4 and 4).
   */
  lemma AsWrittenStepUnbalances()
    ensures WouldRescale(Skewed, 0)
    ensures OffMass(AsWrittenRescaled(Skewed, 0, -2)) == 64.25 > OffMass(Skewed)
    ensures OffMass(Rescaled(Skewed, 0, -2)) == 8.0 < OffMass(Skewed)
  {
    SkewedExponent();
    SkewedMagnitudes();
    assert Ldexp(17.0, -2) == 4.25;
    assert Pow2(2) == 4.0 && Pow2(-2) == 0.25;
    var w := AsWrittenRescaled(Skewed, 0, -2);
    assert w[0][1] == Ldexp(1.0, -2) == 0.25;
    assert w[1][0] == Ldexp(16.0, 2) == 64.0;
    PairOffMass(w);
    var c := Rescaled(Skewed, 0, -2);
    assert c[0][1] == Ldexp(1.0, 2) == 4.0;
    assert c[1][0] == Ldexp(16.0, -2) == 4.0;
    PairOffMass(c);
  }

  /** The shape guard as written refuses only a matrix with fewer rows than columns. */
  predicate AsWrittenRefusesShape(rows: nat, cols: nat)
  {
    rows < cols
  }

  /** The entries `(row, col)` the magnitude loop reads for index `i` of an `n`-row matrix. */
  function MagnitudeReads(n: nat, i: nat): (s: set<(nat, nat)>)
    ensures forall j :: 0 <= j < n && j != i ==> (i, j) in s && (j, i) in s
  {
    (set j: nat | j < n && j != i :: (i, j)) + (set j: nat | j < n && j != i :: (j, i))
  }

  /**
   * A 2x1 matrix passes the guard as written, and the magnitude loop of index 0
   * then reads `A(0, 1)`, outside its single column.
   */
  lemma AsWrittenGuardAdmitsTallMatrix()
    ensures !AsWrittenRefusesShape(2, 1)
    ensures (0, 1) in MagnitudeReads(2, 0)
  {
  }
}
