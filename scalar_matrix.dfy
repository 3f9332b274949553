/**
 * The scalar matrix `mat<T, mat_structure::scalar>`: a square matrix holding one
 * value `q` on its diagonal and zero elsewhere, stored as that value and the
 * dimension. Values of it are a datatype for the operators that build new
 * matrices; the operators that change a matrix in place act on a class with the
 * same two fields.
 */
module ScalarMatrices {
  import opened Wrappers

  /** The `std::range_error` the operators throw, with its message. */
  datatype MatError = RangeError(message: string)

  const DimensionMismatch := RangeError("Matrix dimension mismatch.")
  const OffDiagonalWrite := RangeError("Cannot write to the off-diagonal terms of a diagonal matrix!")

  /** The two fields; the row count is also the column count. */
  datatype ScalarMat = ScalarMat(q: real, rowCount: nat)

  /** Read-only `operator()(i, j)`: the diagonal value on the diagonal, zero off it. */
  function Element(m: ScalarMat, i: nat, j: nat): (e: real)
    ensures i == j ==> e == m.q
    ensures i != j ==> e == 0.0
  {
    if i == j then m.q else 0.0
  }

  /** The default constructor: an empty matrix holding zero. */
  function Empty(): (m: ScalarMat)
    ensures m.rowCount == 0
    ensures forall i: nat, j: nat :: Element(m, i, j) == 0.0
  {
    ScalarMat(0.0, 0)
  }

  /** The sized constructor: dimension `n`, every diagonal element `fill`. */
  function Sized(n: nat, fill: real): (m: ScalarMat)
    ensures m.rowCount == n
    ensures forall i: nat :: Element(m, i, i) == fill
  {
    ScalarMat(fill, n)
  }

  /** The identity constructor: the identity of dimension `n`, or the zero matrix. */
  function Identity(n: nat, identity: bool): (m: ScalarMat)
    ensures m.rowCount == n
    ensures forall i: nat, j: nat :: Element(m, i, j) == (if identity && i == j then 1.0 else 0.0)
  {
    ScalarMat(if identity then 1.0 else 0.0, n)
  }

  // ---------------------------------------------------------------------------
  // Trace, as the sum of the diagonal and as the stored product.
  // ---------------------------------------------------------------------------

  /** The sum of the first `n` diagonal elements. */
  function DiagonalSum(m: ScalarMat, n: nat): real
  {
    if n == 0 then 0.0 else DiagonalSum(m, n - 1) + Element(m, n - 1, n - 1)
  }

  /** `trace(M)`: the dimension times the diagonal value, which is the sum of the diagonal elements. */
  function Trace(m: ScalarMat): (t: real)
    ensures t == DiagonalSum(m, m.rowCount)
  {
    DiagonalSumOfScalar(m, m.rowCount);
    m.rowCount as real * m.q
  }

  lemma {:induction false} DiagonalSumOfScalar(m: ScalarMat, n: nat)
    ensures DiagonalSum(m, n) == n as real * m.q
  {
    if n > 0 {
      DiagonalSumOfScalar(m, n - 1);
      assert Element(m, n - 1, n - 1) == m.q;
      assert (n - 1) as real * m.q + m.q == ((n - 1) as real + 1.0) * m.q;
    }
  }

  // ---------------------------------------------------------------------------
  // Construction from a general matrix.
  // ---------------------------------------------------------------------------

  /** A general matrix given by its rows, all of the same length. */
  ghost predicate Rectangular(rows: seq<seq<real>>)
  {
    forall i :: 0 <= i < |rows| ==> |rows[i]| == |rows[0]|
  }

  function ColCount(rows: seq<seq<real>>): nat
  {
    if rows == [] then 0 else |rows[0]|
  }

  function MinDim(rows: seq<seq<real>>): nat
  {
    if |rows| < ColCount(rows) then |rows| else ColCount(rows)
  }

  /** The trace of a general matrix: the sum of its first `n` diagonal entries. */
  function GeneralTrace(rows: seq<seq<real>>, n: nat): real
    requires Rectangular(rows) && n <= MinDim(rows)
  {
    if n == 0 then 0.0 else GeneralTrace(rows, n - 1) + rows[n - 1][n - 1]
  }

  /**
   * The constructor from a general matrix: the dimension is the smaller of its row
   * and column counts, and the value its trace divided by that dimension.
   */
  function FromGeneral(rows: seq<seq<real>>): (m: ScalarMat)
    requires Rectangular(rows) && MinDim(rows) > 0
    ensures m.rowCount <= |rows| && m.rowCount <= ColCount(rows)
    ensures m.rowCount == |rows| || m.rowCount == ColCount(rows)
  {
    var n := MinDim(rows);
    ScalarMat(GeneralTrace(rows, n) / n as real, n)
  }

  /** The constructor from a general matrix conserves the trace. */
  lemma FromGeneralKeepsTrace(rows: seq<seq<real>>)
    requires Rectangular(rows) && MinDim(rows) > 0
    ensures Trace(FromGeneral(rows)) == GeneralTrace(rows, MinDim(rows))
  {
  }

  // ---------------------------------------------------------------------------
  // Operators building new matrices.
  // ---------------------------------------------------------------------------

  /** `M1 + M2`. */
  function Add(a: ScalarMat, b: ScalarMat): (r: Result<ScalarMat, MatError>)
    ensures r.Err? <==> a.rowCount != b.rowCount
    ensures r.Err? ==> r.error == DimensionMismatch
    ensures r.Ok? ==> r.value.rowCount == a.rowCount
    ensures r.Ok? ==> forall i: nat, j: nat :: Element(r.value, i, j) == Element(a, i, j) + Element(b, i, j)
  {
    if a.rowCount != b.rowCount then Err(DimensionMismatch)
    else Ok(ScalarMat(a.q + b.q, a.rowCount))
  }

  /** `M1 - M2`. */
  function Sub(a: ScalarMat, b: ScalarMat): (r: Result<ScalarMat, MatError>)
    ensures r.Err? <==> a.rowCount != b.rowCount
    ensures r.Err? ==> r.error == DimensionMismatch
    ensures r.Ok? ==> r.value.rowCount == a.rowCount
    ensures r.Ok? ==> forall i: nat, j: nat :: Element(r.value, i, j) == Element(a, i, j) - Element(b, i, j)
  {
    if a.rowCount != b.rowCount then Err(DimensionMismatch)
    else Ok(ScalarMat(a.q - b.q, a.rowCount))
  }

  /** Unary `-M`. */
  function Neg(m: ScalarMat): (r: ScalarMat)
    ensures r.rowCount == m.rowCount
    ensures forall i: nat, j: nat :: Element(r, i, j) == -Element(m, i, j)
  {
    ScalarMat(-m.q, m.rowCount)
  }

  /** `transpose(M)`: a scalar matrix is its own transpose. */
  function Transpose(m: ScalarMat): (r: ScalarMat)
    ensures r.rowCount == m.rowCount
    ensures forall i: nat, j: nat :: Element(r, i, j) == Element(m, j, i)
  {
    m
  }

  /** Subtracting what was added gives the matrix back. */
  lemma AddThenSub(a: ScalarMat, b: ScalarMat)
    requires a.rowCount == b.rowCount
    ensures Add(a, b).Ok? && Sub(Add(a, b).value, b) == Ok(a)
  {
  }

  /**
   * `get_block(M, offset, size)`: the block of `size` rows and columns starting at
   * diagonal position `offset`, which must fit in the matrix.
   */
  function GetBlock(m: ScalarMat, offset: nat, size: nat): (r: Result<ScalarMat, MatError>)
    ensures r.Err? <==> offset + size > m.rowCount
    ensures r.Err? ==> r.error == DimensionMismatch
    ensures r.Ok? ==> r.value.rowCount == size
    ensures r.Ok? ==> forall i: nat, j: nat :: i < size && j < size ==> Element(r.value, i, j) == Element(m, offset + i, offset + j)
  {
    if offset + size > m.rowCount then Err(DimensionMismatch)
    else Ok(ScalarMat(m.q, size))
  }

  // ---------------------------------------------------------------------------
  // Vector products.
  // ---------------------------------------------------------------------------

  /** Row `i` of the matrix times `v`, summed over the first `n` columns. */
  function RowDot(m: ScalarMat, i: nat, v: seq<real>, n: nat): real
    requires n <= |v|
  {
    if n == 0 then 0.0 else RowDot(m, i, v, n - 1) + Element(m, i, n - 1) * v[n - 1]
  }

  /** Column `j` of the matrix times `v`, summed over the first `n` rows. */
  function ColDot(m: ScalarMat, j: nat, v: seq<real>, n: nat): real
    requires n <= |v|
  {
    if n == 0 then 0.0 else ColDot(m, j, v, n - 1) + v[n - 1] * Element(m, n - 1, j)
  }

  lemma {:induction false} RowDotPicksDiagonal(m: ScalarMat, i: nat, v: seq<real>, n: nat)
    requires n <= |v|
    ensures RowDot(m, i, v, n) == if i < n then m.q * v[i] else 0.0
  {
    if n > 0 {
      RowDotPicksDiagonal(m, i, v, n - 1);
    }
  }

  lemma {:induction false} ColDotPicksDiagonal(m: ScalarMat, j: nat, v: seq<real>, n: nat)
    requires n <= |v|
    ensures ColDot(m, j, v, n) == if j < n then v[j] * m.q else 0.0
  {
    if n > 0 {
      ColDotPicksDiagonal(m, j, v, n - 1);
    }
  }

  /** `M * V`: the column vector's size must be the column count. */
  function MulVector(m: ScalarMat, v: seq<real>): (r: Result<seq<real>, MatError>)
    ensures r.Err? <==> |v| != m.rowCount
    ensures r.Err? ==> r.error == DimensionMismatch
    ensures r.Ok? ==> |r.value| == |v| && forall i :: 0 <= i < |v| ==> r.value[i] == RowDot(m, i, v, |v|)
  {
    if |v| != m.rowCount then Err(DimensionMismatch)
    else
      var r := seq(|v|, i requires 0 <= i < |v| => v[i] * m.q);
      assert forall i :: 0 <= i < |v| ==> r[i] == RowDot(m, i, v, |v|) by {
        forall i | 0 <= i < |v| ensures r[i] == RowDot(m, i, v, |v|) {
          RowDotPicksDiagonal(m, i, v, |v|);
        }
      }
      Ok(r)
  }

  /** `V * M`: the row vector's size must be the row count. */
  function VectorMul(v: seq<real>, m: ScalarMat): (r: Result<seq<real>, MatError>)
    ensures r.Err? <==> |v| != m.rowCount
    ensures r.Err? ==> r.error == DimensionMismatch
    ensures r.Ok? ==> |r.value| == |v| && forall j :: 0 <= j < |v| ==> r.value[j] == ColDot(m, j, v, |v|)
  {
    if |v| != m.rowCount then Err(DimensionMismatch)
    else
      var r := seq(|v|, j requires 0 <= j < |v| => v[j] * m.q);
      assert forall j :: 0 <= j < |v| ==> r[j] == ColDot(m, j, v, |v|) by {
        forall j | 0 <= j < |v| ensures r[j] == ColDot(m, j, v, |v|) {
          ColDotPicksDiagonal(m, j, v, |v|);
        }
      }
      Ok(r)
  }

  // ---------------------------------------------------------------------------
  // The matrix as an object changed in place.
  // ---------------------------------------------------------------------------

  class ScalarMatrix {
    var q: real
    var rowCount: nat

    function Value(): ScalarMat
      reads this
    {
      ScalarMat(q, rowCount)
    }

    /** The sized constructor. */
    constructor (n: nat, fill: real)
      ensures Value() == Sized(n, fill)
    {
      q := fill;
      rowCount := n;
    }

    /** `get_row_count` and `get_col_count`: the one dimension. */
    function GetRowCount(): (n: nat)
      reads this
      ensures n == Value().rowCount
    {
      rowCount
    }

    /** Writable `operator()(i, j) = v`: only a diagonal element can be written, and it sets the value. */
    method SetElement(i: nat, j: nat, v: real) returns (res: Result<(), MatError>)
      modifies this
      ensures i == j ==> res.Ok? && Value() == ScalarMat(v, old(rowCount))
      ensures i != j ==> res == Err(OffDiagonalWrite) && Value() == old(Value())
    {
      if i == j {
        q := v;
        res := Ok(());
      } else {
        res := Err(OffDiagonalWrite);
      }
    }

    /** `set_row_count`: sets the one dimension; the value is kept. */
    method SetRowCount(n: nat)
      modifies this
      ensures Value() == ScalarMat(old(q), n)
    {
      rowCount := n;
    }

    /** `set_col_count`: sets the one dimension as well. */
    method SetColCount(n: nat)
      modifies this
      ensures Value() == ScalarMat(old(q), n)
    {
      rowCount := n;
    }

    /** `resize`: only the requested row count is used. */
    method Resize(rows: nat, cols: nat)
      modifies this
      ensures Value() == ScalarMat(old(q), rows)
    {
      SetRowCount(rows);
    }

    /** `swap(lhs, rhs)`. */
    method Swap(other: ScalarMatrix)
      modifies this, other
      ensures Value() == old(other.Value()) && other.Value() == old(Value())
    {
      q, other.q := other.q, q;
      rowCount, other.rowCount := other.rowCount, rowCount;
    }

    /** `+=`: the sum, or a dimension mismatch leaving the matrix as it was. */
    method AddAssign(m: ScalarMat) returns (res: Result<(), MatError>)
      modifies this
      ensures Add(old(Value()), m).Ok? ==> res.Ok? && Value() == Add(old(Value()), m).value
      ensures Add(old(Value()), m).Err? ==> res == Err(DimensionMismatch) && Value() == old(Value())
    {
      if m.rowCount != rowCount {
        return Err(DimensionMismatch);
      }
      q := q + m.q;
      res := Ok(());
    }

    /** `-=`: the difference, or a dimension mismatch leaving the matrix as it was. */
    method SubAssign(m: ScalarMat) returns (res: Result<(), MatError>)
      modifies this
      ensures Sub(old(Value()), m).Ok? ==> res.Ok? && Value() == Sub(old(Value()), m).value
      ensures Sub(old(Value()), m).Err? ==> res == Err(DimensionMismatch) && Value() == old(Value())
    {
      if m.rowCount != rowCount {
        return Err(DimensionMismatch);
      }
      q := q - m.q;
      res := Ok(());
    }

    /** `*=` by a scalar: every element is scaled, the dimension kept. */
    method ScaleAssign(s: real)
      modifies this
      ensures rowCount == old(rowCount)
      ensures forall i: nat, j: nat :: Element(Value(), i, j) == Element(old(Value()), i, j) * s
    {
      q := q * s;
    }

    /**
     * `*=` by a scalar matrix: the matrix product, whose elements are the products
     * of the diagonal values; or a dimension mismatch leaving the matrix as it was.
     */
    method MulAssign(m: ScalarMat) returns (res: Result<(), MatError>)
      modifies this
      ensures res.Err? <==> m.rowCount != old(rowCount)
      ensures res.Err? ==> res.error == DimensionMismatch && Value() == old(Value())
      ensures res.Ok? ==> rowCount == old(rowCount)
      ensures res.Ok? ==> forall i: nat, j: nat :: Element(Value(), i, j) == Element(old(Value()), i, j) * Element(m, i, j)
    {
      if rowCount != m.rowCount {
        return Err(DimensionMismatch);
      }
      q := q * m.q;
      res := Ok(());
    }
  }
}
