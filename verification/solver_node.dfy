// The RBF solver node (RBFNodes/editor/nodes/rbf.py): its stored pose
// and weight matrices, kept in 32 fixed vector properties of 32 values
// each, together with the row and column counters, the radius selection
// and the active flag.

module RbfSolverNode {
  import opened RbfMatrix

  /** Values per vector array property (rbf.py:14). */
  const MaxLen: nat := 32
  /** Vector array properties per matrix: poseMatrix0..31, weightMatrix0..31. */
  const NumArrays: nat := 32

  datatype MatrixName = PoseMatrix | WeightMatrix
  datatype RadiusType = Mean | Variance | StandardDeviation | Custom

  /** What reading a stored matrix gives: nothing for an empty size, the
    * matrix, or the failure of reading past the last vector property. */
  datatype Fetch = NoMatrix | Fetched(mat: seq<seq<real>>) | MissingArray

  /** `math.ceil(size / MAX_LEN)`. */
  function ArrayCount(size: nat): nat
  {
    (size + MaxLen - 1) / MaxLen
  }

  /** ArrayCount is the ceiling: just enough arrays for `size` values. */
  lemma ArrayCountBounds(size: nat)
    ensures ArrayCount(size) * MaxLen >= size
    ensures ArrayCount(size) == 0 || (ArrayCount(size) - 1) * MaxLen < size
  {
  }

  function Zeros(n: nat): (z: seq<real>)
    ensures |z| == n && forall k :: 0 <= k < n ==> z[k] == 0.0
  {
    seq(n, _ => 0.0)
  }

  /** The value list extended with zeros to fill whole arrays. */
  function Padded(values: seq<real>): (p: seq<real>)
    ensures |p| == ArrayCount(|values|) * MaxLen
    ensures p[..|values|] == values
  {
    ArrayCountBounds(|values|);
    values + Zeros(ArrayCount(|values|) * MaxLen - |values|)
  }

  /** The k-th 32-value chunk of the padded value list. */
  function Chunk(values: seq<real>, k: nat): (c: seq<real>)
    requires k < ArrayCount(|values|)
    ensures |c| == MaxLen
  {
    Padded(values)[k * MaxLen .. k * MaxLen + MaxLen]
  }

  /** `allValues.extend(...)` over a list of arrays, in order. */
  function Concat(arrays: seq<seq<real>>): seq<real>
  {
    if arrays == [] then [] else Concat(arrays[..|arrays| - 1]) + arrays[|arrays| - 1]
  }

  predicate ValidArrays(a: seq<seq<real>>)
  {
    |a| == NumArrays && forall k :: 0 <= k < |a| ==> |a[k]| == MaxLen
  }

  /** Reading back the first n stored chunks gives the first 32·n padded
    * values. */
  lemma {:induction false} ConcatChunks(values: seq<real>, arrays: seq<seq<real>>, n: nat)
    requires n <= ArrayCount(|values|) && n <= |arrays|
    requires forall k :: 0 <= k < n ==> arrays[k] == Chunk(values, k)
    ensures Concat(arrays[..n]) == Padded(values)[..n * MaxLen]
    decreases n
  {
    if n > 0 {
      var p := Padded(values);
      ConcatChunks(values, arrays, n - 1);
      assert arrays[..n][..n - 1] == arrays[..n - 1];
      assert Concat(arrays[..n]) == Concat(arrays[..n - 1]) + arrays[n - 1];
      assert p[..(n - 1) * MaxLen] + p[(n - 1) * MaxLen .. n * MaxLen] == p[..n * MaxLen];
    }
  }

  /** The round trip of the storage: a table of rows·cols values, with
    * 0 < rows·cols ≤ 32·32, stored chunk by chunk and read back from the
    * first ArrayCount arrays and cut into rows, is the same table. */
  lemma StoreThenRead(m: seq<seq<real>>, rows: nat, cols: nat, arrays: seq<seq<real>>)
    requires Rect(m, rows, cols)
    requires ArrayCount(|Flat(m)|) <= |arrays|
    requires forall k :: 0 <= k < ArrayCount(|Flat(m)|) ==> arrays[k] == Chunk(Flat(m), k)
    ensures Unflatten(Concat(arrays[..ArrayCount(|Flat(m)|)]), rows, cols) == m
  {
    var values := Flat(m);
    var n := ArrayCount(|values|);
    ConcatChunks(values, arrays, n);
    var p := Padded(values);
    assert p[..n * MaxLen] == p;
    assert p == values + p[|values|..];
    UnflattenFlat(m, rows, cols, p[|values|..]);
  }

  /** The stored arrays, read back, hold 32 values each. */
  lemma {:induction false} ConcatLength(arrays: seq<seq<real>>)
    requires forall k :: 0 <= k < |arrays| ==> |arrays[k]| == MaxLen
    ensures |Concat(arrays)| == |arrays| * MaxLen
    decreases |arrays|
  {
    if arrays != [] {
      ConcatLength(arrays[..|arrays| - 1]);
    }
  }

  /** What `getMatrix(name, rows, cols)` reads from the given arrays. */
  function ReadArrays(arrays: seq<seq<real>>, rows: nat, cols: nat): Fetch
  {
    var size := rows * cols;
    if size == 0 then NoMatrix
    else if ArrayCount(size) > |arrays| then MissingArray
    else Fetched(Unflatten(Concat(arrays[..ArrayCount(size)]), rows, cols))
  }

  /** A matrix read from valid arrays has `rows` rows of `cols` values. */
  lemma ReadArraysRect(arrays: seq<seq<real>>, rows: nat, cols: nat)
    requires ValidArrays(arrays)
    requires ReadArrays(arrays, rows, cols).Fetched?
    ensures Rect(ReadArrays(arrays, rows, cols).mat, rows, cols)
  {
    var n := ArrayCount(rows * cols);
    ArrayCountBounds(rows * cols);
    ConcatLength(arrays[..n]);
    UnflattenRect(Concat(arrays[..n]), rows, cols);
  }

  /** Arrays 0..n-1 hold the first n chunks of `values`, the others
    * their values from `before`. */
  predicate ChunksUpTo(arrays: seq<seq<real>>, before: seq<seq<real>>, values: seq<real>, n: nat)
    requires n <= ArrayCount(|values|)
  {
    |arrays| == |before| == NumArrays &&
    forall k :: 0 <= k < NumArrays ==> arrays[k] == (if k < n then Chunk(values, k) else before[k])
  }

  /** Storing chunk n next extends the stored chunks by one. */
  lemma ChunksNext(arrays: seq<seq<real>>, before: seq<seq<real>>, values: seq<real>, n: nat)
    requires n < ArrayCount(|values|) && n < NumArrays && ChunksUpTo(arrays, before, values, n)
    ensures ChunksUpTo(arrays[n := Padded(values)[n * MaxLen .. n * MaxLen + MaxLen]], before, values, n + 1)
  {
  }

  /** Nothing is read for a zero size. */
  lemma ReadEmpty(arrays: seq<seq<real>>)
    ensures ReadArrays(arrays, 0, 0) == NoMatrix
  {
  }

  class SolverNode {
    var poseArrays: seq<seq<real>>
    var weightArrays: seq<seq<real>>
    var poseMatrixRows: nat
    var poseMatrixColumns: nat
    var weightMatrixRows: nat
    var weightMatrixColumns: nat
    var radiusType: RadiusType
    var radius: real
    var negativeWeights: bool
    var activeValue: bool
    var meanDistance: real
    var variance: real

    ghost predicate Valid()
      reads this`poseArrays, this`weightArrays
    {
      ValidArrays(poseArrays) && ValidArrays(weightArrays)
    }

    /** A new node with the property defaults of rbf.py:54-135. */
    constructor ()
      ensures Valid()
      ensures poseMatrixRows == 0 && poseMatrixColumns == 0
      ensures weightMatrixRows == 0 && weightMatrixColumns == 0
      ensures radiusType == StandardDeviation && radius == 1.0 && negativeWeights
      ensures !activeValue && meanDistance == 1.0 && variance == 1.0
    {
      poseArrays := seq(NumArrays, _ => Zeros(MaxLen));
      weightArrays := seq(NumArrays, _ => Zeros(MaxLen));
      poseMatrixRows, poseMatrixColumns := 0, 0;
      weightMatrixRows, weightMatrixColumns := 0, 0;
      radiusType, radius, negativeWeights := StandardDeviation, 1.0, true;
      activeValue, meanDistance, variance := false, 1.0, 1.0;
    }

    function Arrays(name: MatrixName): seq<seq<real>>
      reads this`poseArrays, this`weightArrays
    {
      if name == PoseMatrix then poseArrays else weightArrays
    }

    /** What `getPoseMatrix()` / `getWeightMatrix()` return right now. */
    function Stored(name: MatrixName): Fetch
      reads this`poseArrays, this`poseMatrixRows, this`poseMatrixColumns
      reads this`weightArrays, this`weightMatrixRows, this`weightMatrixColumns
    {
      if name == PoseMatrix then StoredPose() else StoredWeights()
    }

    function StoredPose(): Fetch
      reads this`poseArrays, this`poseMatrixRows, this`poseMatrixColumns
    {
      ReadArrays(poseArrays, poseMatrixRows, poseMatrixColumns)
    }

    function StoredWeights(): Fetch
      reads this`weightArrays, this`weightMatrixRows, this`weightMatrixColumns
    {
      ReadArrays(weightArrays, weightMatrixRows, weightMatrixColumns)
    }

    /** `setFloatVector(index, values, name)`: replaces one array. */
    method SetFloatVector(index: nat, values: seq<real>, name: MatrixName)
      requires Valid() && index < NumArrays && |values| == MaxLen
      modifies this`poseArrays, this`weightArrays
      ensures Valid()
      ensures Arrays(name) == old(Arrays(name))[index := values]
      ensures name == PoseMatrix ==> weightArrays == old(weightArrays)
      ensures name == WeightMatrix ==> poseArrays == old(poseArrays)
    {
      if name == PoseMatrix {
        poseArrays := poseArrays[index := values];
      } else {
        weightArrays := weightArrays[index := values];
      }
    }

    /** `setMatrix(mat, name)`: the row-major values go, 32 at a time, into
      * arrays 0, 1, …, the last chunk padded with zeros; arrays past the
      * needed count keep their values. A matrix of more than 32·32 values
      * fills arrays 0..31 and then fails, since there is no 33rd array. */
    method SetMatrix(mat: Matrix, name: MatrixName) returns (ok: bool)
      requires Valid() && mat.Valid()
      modifies this`poseArrays, this`weightArrays
      ensures Valid()
      ensures ok == (ArrayCount(mat.rows * mat.cols) <= NumArrays)
      ensures forall k :: 0 <= k < NumArrays ==>
        Arrays(name)[k] == (if k < ArrayCount(mat.rows * mat.cols) then Chunk(mat.Flatten(), k) else old(Arrays(name))[k])
      ensures name == PoseMatrix ==> weightArrays == old(weightArrays)
      ensures name == WeightMatrix ==> poseArrays == old(poseArrays)
    {
      var values := mat.Flatten();
      var size := |values|;
      var count := ArrayCount(size);
      ArrayCountBounds(size);
      var padded := Padded(values);
      ghost var before := Arrays(name);
      var arrayIndex := 0;
      var i := 0;
      while i < size
        invariant arrayIndex <= count && i == arrayIndex * MaxLen
        invariant arrayIndex <= NumArrays
        invariant Valid()
        invariant ChunksUpTo(Arrays(name), before, values, arrayIndex)
        invariant name == PoseMatrix ==> weightArrays == old(weightArrays)
        invariant name == WeightMatrix ==> poseArrays == old(poseArrays)
        decreases size - i
      {
        if arrayIndex >= NumArrays {
          // No poseMatrix32 / weightMatrix32 property exists.
          return false;
        }
        ChunksNext(Arrays(name), before, values, arrayIndex);
        SetFloatVector(arrayIndex, padded[i .. i + MaxLen], name);
        arrayIndex := arrayIndex + 1;
        i := i + MaxLen;
      }
      ok := true;
    }

    /** `setPoseMatrix(mat)`: records the size, then stores the values.
      * Afterwards `getPoseMatrix()` gives back exactly `mat` (nothing when
      * it has no cells); a matrix over the capacity leaves the new size
      * recorded and the stored matrix unreadable. */
    method SetPoseMatrix(mat: Matrix) returns (ok: bool)
      requires Valid() && mat.Valid()
      modifies this`poseArrays, this`weightArrays, this`poseMatrixRows, this`poseMatrixColumns
      ensures Valid()
      ensures poseMatrixRows == mat.rows && poseMatrixColumns == mat.cols
      ensures ok == (mat.rows * mat.cols <= NumArrays * MaxLen)
      ensures Stored(PoseMatrix) ==
        if mat.rows * mat.cols == 0 then NoMatrix else if ok then Fetched(mat.mat) else MissingArray
      ensures weightArrays == old(weightArrays)
    {
      poseMatrixRows := mat.rows;
      poseMatrixColumns := mat.cols;
      ok := SetMatrix(mat, PoseMatrix);
      ArrayCountBounds(mat.rows * mat.cols);
      if ok && mat.rows * mat.cols > 0 {
        assert mat.Flatten() == Flat(mat.mat);
        FlatLength(mat.mat, mat.rows, mat.cols);
        StoreThenRead(mat.mat, mat.rows, mat.cols, poseArrays);
      }
    }

    /** `setWeightMatrix(mat)`: as SetPoseMatrix, for the weight arrays. */
    method SetWeightMatrix(mat: Matrix) returns (ok: bool)
      requires Valid() && mat.Valid()
      modifies this`poseArrays, this`weightArrays, this`weightMatrixRows, this`weightMatrixColumns
      ensures Valid()
      ensures weightMatrixRows == mat.rows && weightMatrixColumns == mat.cols
      ensures ok == (mat.rows * mat.cols <= NumArrays * MaxLen)
      ensures Stored(WeightMatrix) ==
        if mat.rows * mat.cols == 0 then NoMatrix else if ok then Fetched(mat.mat) else MissingArray
      ensures poseArrays == old(poseArrays)
    {
      weightMatrixRows := mat.rows;
      weightMatrixColumns := mat.cols;
      ok := SetMatrix(mat, WeightMatrix);
      ArrayCountBounds(mat.rows * mat.cols);
      if ok && mat.rows * mat.cols > 0 {
        assert mat.Flatten() == Flat(mat.mat);
        FlatLength(mat.mat, mat.rows, mat.cols);
        StoreThenRead(mat.mat, mat.rows, mat.cols, weightArrays);
      }
    }

    /** `getMatrix(name, rows, cols)`: nothing for rows·cols = 0;
      * otherwise the values of the first ArrayCount arrays cut into rows of
      * `cols`; reading past the 32nd array fails. */
    method GetMatrix(name: MatrixName, rows: nat, cols: nat) returns (r: Fetch)
      requires Valid()
      ensures r == ReadArrays(Arrays(name), rows, cols)
      ensures r.NoMatrix? <==> rows * cols == 0
      ensures r.Fetched? ==> |r.mat| == rows
    {
      var size := rows * cols;
      if size == 0 {
        return NoMatrix;
      }
      var allValues: seq<real> := [];
      var count := ArrayCount(size);
      var a := 0;
      while a < count
        invariant 0 <= a <= count && a <= NumArrays
        invariant allValues == Concat(Arrays(name)[..a])
      {
        if a >= NumArrays {
          // No poseMatrix32 / weightMatrix32 property exists.
          return MissingArray;
        }
        assert Arrays(name)[..a + 1][..a] == Arrays(name)[..a];
        allValues := allValues + Arrays(name)[a];
        a := a + 1;
      }
      UnflattenLength(allValues, rows, cols);
      r := Fetched(Unflatten(allValues, rows, cols));
    }

    /** `getPoseMatrix()`. */
    method GetPoseMatrix() returns (r: Fetch)
      requires Valid()
      ensures r == Stored(PoseMatrix)
    {
      r := GetMatrix(PoseMatrix, poseMatrixRows, poseMatrixColumns);
    }

    /** `getWeightMatrix()`. */
    method GetWeightMatrix() returns (r: Fetch)
      requires Valid()
      ensures r == Stored(WeightMatrix)
    {
      r := GetMatrix(WeightMatrix, weightMatrixRows, weightMatrixColumns);
    }

    /** `reset()`: inactive, zero statistics, zero sizes and all 64 arrays
      * zeroed, so that neither matrix can be read any more. */
    method Reset()
      requires Valid()
      modifies this`activeValue, this`meanDistance, this`variance, this`poseArrays, this`weightArrays
      modifies this`poseMatrixRows, this`poseMatrixColumns, this`weightMatrixRows, this`weightMatrixColumns
      ensures Valid()
      ensures !activeValue && meanDistance == 0.0 && variance == 0.0
      ensures poseMatrixRows == 0 && poseMatrixColumns == 0
      ensures weightMatrixRows == 0 && weightMatrixColumns == 0
      ensures forall k :: 0 <= k < NumArrays ==> poseArrays[k] == Zeros(MaxLen) && weightArrays[k] == Zeros(MaxLen)
      ensures Stored(PoseMatrix) == NoMatrix && Stored(WeightMatrix) == NoMatrix
    {
      activeValue := false;
      meanDistance := 0.0;
      variance := 0.0;
      poseMatrixRows, poseMatrixColumns := 0, 0;
      weightMatrixRows, weightMatrixColumns := 0, 0;
      ZeroArrays();
      ReadEmpty(poseArrays);
      ReadEmpty(weightArrays);
    }

    /** The loop of `reset()` that zeroes both sets of arrays. */
    method ZeroArrays()
      requires Valid()
      modifies this`poseArrays, this`weightArrays
      ensures Valid()
      ensures forall k :: 0 <= k < NumArrays ==> poseArrays[k] == Zeros(MaxLen) && weightArrays[k] == Zeros(MaxLen)
    {
      var values := Zeros(MaxLen);
      var i := 0;
      while i < NumArrays
        invariant 0 <= i <= NumArrays
        invariant Valid()
        invariant forall k :: 0 <= k < i ==> poseArrays[k] == values && weightArrays[k] == values
      {
        SetFloatVector(i, values, PoseMatrix);
        SetFloatVector(i, values, WeightMatrix);
        i := i + 1;
      }
    }

    /** `getRadius()`: the statistic or the custom value selected by
      * `radiusType`; `stdDev` is the host's square root of `variance`. */
    function GetRadius(stdDev: real): (r: real)
      reads this
      ensures radiusType == Mean ==> r == meanDistance
      ensures radiusType == Variance ==> r == variance
      ensures radiusType == StandardDeviation ==> r == stdDev
      ensures radiusType == Custom ==> r == radius
    {
      match radiusType
      case Mean => meanDistance
      case Variance => variance
      case StandardDeviation => stdDev
      case Custom => radius
    }

    /** The `active` getter: an active node with nothing found on its
      * first input and its first output switches itself off. `inputFound`
      * and `outputFound` are the results of the two socket queries. */
    method Active(inputFound: bool, outputFound: bool) returns (state: bool)
      modifies this`activeValue
      ensures activeValue == (old(activeValue) && (inputFound || outputFound))
      ensures state == activeValue
    {
      if activeValue {
        if !inputFound && !outputFound {
          activeValue := false;
        }
      }
      state := activeValue;
    }

    /** The `active` setter: stores the given state. */
    method SetActive(state: bool)
      modifies this`activeValue
      ensures activeValue == state
    {
      activeValue := state;
    }
  }

  /** Cutting into `rows` rows gives `rows` rows. */
  lemma {:induction false} UnflattenLength(v: seq<real>, rows: nat, cols: nat)
    ensures |Unflatten(v, rows, cols)| == rows
    decreases rows
  {
    if rows > 0 {
      UnflattenLength(Drop(v, cols), rows - 1, cols);
    }
  }
}
