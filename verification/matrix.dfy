// The two-dimensional matrix container of the RBF solver
// (RBFNodes/core/matrix.py): construction, resizing, copying, row-major
// flattening, row and column access, normalisation by factors and the
// shape guard of the linear solve.

module RbfMatrix {
  import opened Wrappers

  /** `m` has exactly `rows` rows of `cols` values each. */
  predicate Rect(m: seq<seq<real>>, rows: nat, cols: nat)
  {
    |m| == rows && forall i :: 0 <= i < |m| ==> |m[i]| == cols
  }

  /** Two rectangular tables with the same cells are the same table. */
  lemma RectExt(m1: seq<seq<real>>, m2: seq<seq<real>>, rows: nat, cols: nat)
    requires Rect(m1, rows, cols) && Rect(m2, rows, cols)
    requires forall i, j :: 0 <= i < rows && 0 <= j < cols ==> m1[i][j] == m2[i][j]
    ensures m1 == m2
  {
    forall i | 0 <= i < rows ensures m1[i] == m2[i] {
      assert forall j :: 0 <= j < cols ==> m1[i][j] == m2[i][j];
    }
  }

  /** The row-major concatenation of the rows of `m`. */
  function Flat(m: seq<seq<real>>): seq<real>
  {
    if m == [] then [] else m[0] + Flat(m[1..])
  }

  lemma {:induction false} FlatLength(m: seq<seq<real>>, rows: nat, cols: nat)
    requires Rect(m, rows, cols)
    ensures |Flat(m)| == rows * cols
    decreases rows
  {
    if rows > 0 {
      FlatLength(m[1..], rows - 1, cols);
      assert rows * cols == cols + (rows - 1) * cols;
    }
  }

  /** Row-major layout: cell (i, j) sits at position i·cols + j of the
    * flattened table. */
  lemma {:induction false} FlatAt(m: seq<seq<real>>, rows: nat, cols: nat, i: nat, j: nat)
    requires Rect(m, rows, cols) && i < rows && j < cols
    ensures i * cols + j < |Flat(m)| && Flat(m)[i * cols + j] == m[i][j]
    decreases i
  {
    FlatLength(m, rows, cols);
    if i > 0 {
      FlatAt(m[1..], rows - 1, cols, i - 1, j);
      assert i * cols + j == cols + ((i - 1) * cols + j);
    }
  }

  /** Python slice `v[:n]`, which clips at the end of the list. */
  function Take(v: seq<real>, n: nat): seq<real>
  {
    if n <= |v| then v[..n] else v
  }

  /** Python slice `v[n:]`, which clips at the end of the list. */
  function Drop(v: seq<real>, n: nat): seq<real>
  {
    if n <= |v| then v[n..] else []
  }

  /** `[v[i:i + cols] for i in range(0, rows·cols, cols)]`: the first
    * rows·cols values cut into rows of `cols` values. */
  function Unflatten(v: seq<real>, rows: nat, cols: nat): seq<seq<real>>
    decreases rows
  {
    if rows == 0 then [] else [Take(v, cols)] + Unflatten(Drop(v, cols), rows - 1, cols)
  }

  /** Enough values cut into `rows` rows of `cols` give a rectangular
    * table. */
  lemma {:induction false} UnflattenRect(v: seq<real>, rows: nat, cols: nat)
    requires |v| >= rows * cols
    ensures Rect(Unflatten(v, rows, cols), rows, cols)
    decreases rows
  {
    if rows > 0 {
      assert rows * cols == cols + (rows - 1) * cols;
      UnflattenRect(Drop(v, cols), rows - 1, cols);
      var u := Unflatten(v, rows, cols);
      assert u == [Take(v, cols)] + Unflatten(Drop(v, cols), rows - 1, cols);
      forall i | 0 <= i < |u|
        ensures |u[i]| == cols
      {
        if i > 0 {
          assert u[i] == Unflatten(Drop(v, cols), rows - 1, cols)[i - 1];
        }
      }
    }
  }

  /** Cutting a flattened table (followed by anything) back into rows
    * gives the table again. */
  lemma {:induction false} UnflattenFlat(m: seq<seq<real>>, rows: nat, cols: nat, extra: seq<real>)
    requires Rect(m, rows, cols)
    ensures Unflatten(Flat(m) + extra, rows, cols) == m
    decreases rows
  {
    if rows > 0 {
      var v := Flat(m) + extra;
      assert v == m[0] + (Flat(m[1..]) + extra);
      assert Take(v, cols) == m[0];
      assert Drop(v, cols) == Flat(m[1..]) + extra;
      UnflattenFlat(m[1..], rows - 1, cols, extra);
      assert m == [m[0]] + m[1..];
    }
  }

  /** The value a cell takes under `normalize`: divided by its factor
    * when the factor is positive, untouched otherwise. */
  function Scaled(v: real, f: real): real
  {
    if f > 0.0 then v / f else v
  }

  /** Message of the shape guard of `solve`. */
  const NonSquareMessage := "The number of poses between input and output is different"

  class Matrix {
    var mat: seq<seq<real>>
    var rows: nat
    var cols: nat

    ghost predicate Valid()
      reads this
    {
      Rect(mat, rows, cols)
    }

    /** `Matrix(rowSize, colSize)`: rowSize rows of colSize zeros. */
    constructor (rowSize: nat, colSize: nat)
      ensures Valid() && rows == rowSize && cols == colSize
      ensures forall i, j :: 0 <= i < rows && 0 <= j < cols ==> mat[i][j] == 0.0
    {
      var m := Fill(rowSize, colSize, 0.0);
      mat, rows, cols := m, rowSize, colSize;
    }

    /** `fill`: a new table of the given size, every cell `fill`. */
    static method Fill(rowSize: nat, colSize: nat, fill: real) returns (m: seq<seq<real>>)
      ensures Rect(m, rowSize, colSize)
      ensures forall i, j :: 0 <= i < rowSize && 0 <= j < colSize ==> m[i][j] == fill
    {
      m := [];
      var i := 0;
      while i < rowSize
        invariant 0 <= i <= rowSize
        invariant Rect(m, i, colSize)
        invariant forall a, b :: 0 <= a < i && 0 <= b < colSize ==> m[a][b] == fill
      {
        var col: seq<real> := [];
        var j := 0;
        while j < colSize
          invariant 0 <= j <= colSize
          invariant |col| == j
          invariant forall b :: 0 <= b < j ==> col[b] == fill
        {
          col := col + [fill];
          j := j + 1;
        }
        m := m + [col];
        i := i + 1;
      }
    }

    /** `__getitem__` with a (row, column) pair. */
    function Get(i: nat, j: nat): real
      reads this
      requires Valid() && i < rows && j < cols
    {
      mat[i][j]
    }

    /** `__setitem__` with a (row, column) pair: exactly one cell changes. */
    method Set(i: nat, j: nat, value: real)
      requires Valid() && i < rows && j < cols
      modifies this
      ensures Valid() && rows == old(rows) && cols == old(cols)
      ensures mat == old(mat)[i := old(mat)[i][j := value]]
    {
      mat := mat[i := mat[i][j := value]];
    }

    /** `copy`: a new matrix with the same size and cells; it is a fresh
      * object, so writing to it leaves this matrix as it was. */
    method Copy() returns (n: Matrix)
      requires Valid()
      ensures fresh(n) && n.Valid()
      ensures n.rows == rows && n.cols == cols && n.mat == mat
    {
      n := new Matrix(rows, cols);
      var i := 0;
      while i < rows
        invariant 0 <= i <= rows
        invariant n.Valid() && n.rows == rows && n.cols == cols
        invariant forall a, b :: 0 <= a < rows && 0 <= b < cols ==>
          n.mat[a][b] == (if a < i then mat[a][b] else 0.0)
      {
        var j := 0;
        while j < cols
          invariant 0 <= j <= cols
          invariant n.Valid() && n.rows == rows && n.cols == cols
          invariant forall a, b :: 0 <= a < rows && 0 <= b < cols ==>
            n.mat[a][b] == (if a < i || (a == i && b < j) then mat[a][b] else 0.0)
        {
          n.Set(i, j, mat[i][j]);
          j := j + 1;
        }
        i := i + 1;
      }
      RectExt(n.mat, mat, rows, cols);
    }

    /** `flatten`: the cells in row-major order, so that cutting the result
      * into rows of `cols` values gives the table back (see also FlatAt). */
    function Flatten(): (r: seq<real>)
      reads this
      requires Valid()
      ensures |r| == rows * cols
      ensures Unflatten(r, rows, cols) == mat
    {
      FlatLength(mat, rows, cols);
      UnflattenFlat(mat, rows, cols, []);
      assert Flat(mat) + [] == Flat(mat);
      Flat(mat)
    }

    /** `normalize(factor, rows)`: refuses a factor list whose length is
      * not the number of rows (row mode) or columns (column mode) and then
      * changes nothing; otherwise divides every cell by the factor of its
      * row (column) when that factor is positive. */
    method Normalize(factor: seq<real>, byRows: bool) returns (ok: bool)
      requires Valid()
      modifies this
      ensures Valid() && rows == old(rows) && cols == old(cols)
      ensures ok == (if byRows then |factor| == rows else |factor| == cols)
      ensures !ok ==> mat == old(mat)
      ensures ok ==> forall i, j :: 0 <= i < rows && 0 <= j < cols ==>
        mat[i][j] == Scaled(old(mat)[i][j], if byRows then factor[i] else factor[j])
    {
      if byRows {
        if rows != |factor| {
          return false;
        }
        NormalizeRows(factor);
      } else {
        if cols != |factor| {
          return false;
        }
        NormalizeCols(factor);
      }
      ok := true;
    }

    /** `_normalizeRows`. */
    method NormalizeRows(factor: seq<real>)
      requires Valid() && |factor| == rows
      modifies this
      ensures Valid() && rows == old(rows) && cols == old(cols)
      ensures forall i, j :: 0 <= i < rows && 0 <= j < cols ==>
        mat[i][j] == Scaled(old(mat)[i][j], factor[i])
    {
      var i := 0;
      while i < rows
        invariant 0 <= i <= rows
        invariant Valid() && rows == old(rows) && cols == old(cols)
        invariant forall a, b :: 0 <= a < rows && 0 <= b < cols ==>
          mat[a][b] == (if a < i then Scaled(old(mat)[a][b], factor[a]) else old(mat)[a][b])
      {
        var j := 0;
        while j < cols
          invariant 0 <= j <= cols
          invariant Valid() && rows == old(rows) && cols == old(cols)
          invariant forall a, b :: 0 <= a < rows && 0 <= b < cols ==>
            mat[a][b] == (if a < i || (a == i && b < j) then Scaled(old(mat)[a][b], factor[a]) else old(mat)[a][b])
        {
          if factor[i] > 0.0 {
            mat := mat[i := mat[i][j := mat[i][j] / factor[i]]];
          }
          j := j + 1;
        }
        i := i + 1;
      }
    }

    /** `_normalizeCols`. */
    method NormalizeCols(factor: seq<real>)
      requires Valid() && |factor| == cols
      modifies this
      ensures Valid() && rows == old(rows) && cols == old(cols)
      ensures forall i, j :: 0 <= i < rows && 0 <= j < cols ==>
        mat[i][j] == Scaled(old(mat)[i][j], factor[j])
    {
      var j := 0;
      while j < cols
        invariant 0 <= j <= cols
        invariant Valid() && rows == old(rows) && cols == old(cols)
        invariant forall a, b :: 0 <= a < rows && 0 <= b < j ==> mat[a][b] == Scaled(old(mat)[a][b], factor[b])
        invariant forall a, b :: 0 <= a < rows && j <= b < cols ==> mat[a][b] == old(mat)[a][b]
      {
        var i := 0;
        while i < rows
          invariant 0 <= i <= rows
          invariant Valid() && rows == old(rows) && cols == old(cols)
          invariant forall a, b :: 0 <= a < rows && 0 <= b < j ==> mat[a][b] == Scaled(old(mat)[a][b], factor[b])
          invariant forall a :: 0 <= a < i ==> mat[a][j] == Scaled(old(mat)[a][j], factor[j])
          invariant forall a :: i <= a < rows ==> mat[a][j] == old(mat)[a][j]
          invariant forall a, b :: 0 <= a < rows && j < b < cols ==> mat[a][b] == old(mat)[a][b]
        {
          if factor[j] > 0.0 {
            mat := mat[i := mat[i][j := mat[i][j] / factor[j]]];
          }
          i := i + 1;
        }
        j := j + 1;
      }
    }

    /** `setSize(rowSize, colSize, fill, clear)`: the new table has the
      * requested size; with `clear` every cell is `fill`, otherwise a cell
      * inside both the old and the new size keeps its value and every
      * other cell is `fill`. */
    method SetSize(rowSize: nat, colSize: nat, fill: real, clear: bool)
      requires Valid()
      modifies this
      ensures Valid() && rows == rowSize && cols == colSize
      ensures forall i, j :: 0 <= i < rowSize && 0 <= j < colSize ==>
        mat[i][j] == (if !clear && i < old(rows) && j < old(cols) then old(mat)[i][j] else fill)
    {
      var m: seq<seq<real>>;
      if clear {
        m := Fill(rowSize, colSize, fill);
      } else {
        m := [];
        var i := 0;
        while i < rowSize
          invariant 0 <= i <= rowSize
          invariant Rect(m, i, colSize)
          invariant forall a, b :: 0 <= a < i && 0 <= b < colSize ==>
            m[a][b] == (if a < rows && b < cols then mat[a][b] else fill)
        {
          var col: seq<real> := [];
          var j := 0;
          while j < colSize
            invariant 0 <= j <= colSize
            invariant |col| == j
            invariant forall b :: 0 <= b < j ==> col[b] == (if i < rows && b < cols then mat[i][b] else fill)
          {
            if i < rows && j < cols {
              col := col + [mat[i][j]];
            } else {
              col := col + [fill];
            }
            j := j + 1;
          }
          m := m + [col];
          i := i + 1;
        }
      }
      mat, rows, cols := m, rowSize, colSize;
    }

    /** `getRowVector(index)`: the values of one row, in column order. */
    function RowVector(index: nat): (v: seq<real>)
      reads this
      requires Valid() && index < rows
      ensures |v| == cols
      ensures forall j :: 0 <= j < cols ==> v[j] == Get(index, j)
    {
      mat[index]
    }

    /** `getColumnVector(index)`: one value per row, taken from column
      * `index`, in row order. */
    method ColumnVector(index: nat) returns (vec: seq<real>)
      requires Valid() && index < cols
      ensures |vec| == rows
      ensures forall i :: 0 <= i < rows ==> vec[i] == mat[i][index]
    {
      vec := [];
      var i := 0;
      while i < rows
        invariant 0 <= i <= rows
        invariant |vec| == i
        invariant forall a :: 0 <= a < i ==> vec[a] == mat[a][index]
      {
        vec := vec + [mat[i][index]];
        i := i + 1;
      }
    }

    /** The shape guard of `solve`: a non-square matrix is refused with a
      * message before anything is modified. */
    function SolveShapeError(): (err: Option<string>)
      reads this
      ensures err.Some? <==> rows != cols
      ensures err.Some? ==> err.value == NonSquareMessage
    {
      if rows != cols then Some(NonSquareMessage) else None
    }
  }

  /** `normalizeVector(vec, factors)`: with a factor list of a different
    * length the vector comes back unchanged; otherwise every value whose
    * factor is positive is divided by it. */
  method NormalizeVector(vec: seq<real>, factors: seq<real>) returns (r: seq<real>)
    ensures |vec| != |factors| ==> r == vec
    ensures |r| == |vec|
    ensures |vec| == |factors| ==> forall i :: 0 <= i < |vec| ==> r[i] == Scaled(vec[i], factors[i])
  {
    if |vec| != |factors| {
      return vec;
    }
    r := vec;
    var i := 0;
    while i < |vec|
      invariant 0 <= i <= |vec|
      invariant |r| == |vec|
      invariant forall k :: 0 <= k < |vec| ==> r[k] == (if k < i then Scaled(vec[k], factors[k]) else vec[k])
    {
      if factors[i] > 0.0 {
        r := r[i := r[i] / factors[i]];
      }
      i := i + 1;
    }
  }
}
