// The bookkeeping of the RBF solve and evaluation (RBFNodes/core/rbf.py):
// the pose tables, the pose matrix with its appended norm row, the size
// limits, the storage of both matrices, the weighted sum of the
// evaluation and the write-back of the outputs with the negative-weight
// clamp and the quaternion blocks. The numerics (distances, kernels,
// Gaussian elimination) are computed by the host and enter as values or
// functions.

module RbfSolve {
  import opened Wrappers
  import opened RbfMatrix
  import opened RbfSolverNode
  import opened RbfPoses

  // ------------------------------------------------------------------
  // Pose tables.
  // ------------------------------------------------------------------

  /** The driver (or driven) values of a pose node, object by object. */
  function PoseValues(p: PoseNode, isDriver: bool): seq<real>
  {
    if isDriver then Values(p.driverData) else Values(p.drivenData)
  }

  /** No pose has more values than the first one, which sets the column
    * count of the table. */
  predicate FirstIsWidest(poses: seq<PoseNode>, isDriver: bool)
  {
    |poses| > 0 &&
    forall i :: 0 <= i < |poses| ==> |PoseValues(poses[i], isDriver)| <= |PoseValues(poses[0], isDriver)|
  }

  function Columns(poses: seq<PoseNode>, isDriver: bool): nat
    requires |poses| > 0
  {
    |PoseValues(poses[0], isDriver)|
  }

  /** The table of `propertyDataToMatrix`: row i holds the values of pose
    * i in order, then zeros up to the column count. */
  function PoseTable(poses: seq<PoseNode>, isDriver: bool): (t: seq<seq<real>>)
    requires FirstIsWidest(poses, isDriver)
    ensures Rect(t, |poses|, Columns(poses, isDriver))
    ensures forall i :: 0 <= i < |poses| ==>
      t[i][..|PoseValues(poses[i], isDriver)|] == PoseValues(poses[i], isDriver)
    ensures forall i, j :: 0 <= i < |poses| && |PoseValues(poses[i], isDriver)| <= j < Columns(poses, isDriver) ==> t[i][j] == 0.0
  {
    var cols := Columns(poses, isDriver);
    seq(|poses|, i requires 0 <= i < |poses| =>
      var row := PoseValues(poses[i], isDriver);
      seq(cols, j requires 0 <= j < cols => if j < |row| then row[j] else 0.0))
  }

  /** `propertyDataToMatrix(nodes, isDriver)`: a new matrix of one row
    * per pose and as many columns as the first pose has values, filled
    * cell by cell from the value lists. */
  method PropertyDataToMatrix(poses: seq<PoseNode>, isDriver: bool) returns (m: Matrix)
    requires FirstIsWidest(poses, isDriver)
    ensures fresh(m) && m.Valid()
    ensures m.rows == |poses| && m.cols == Columns(poses, isDriver)
    ensures m.mat == PoseTable(poses, isDriver)
  {
    var propSize := PoseDataSize(if isDriver then poses[0].driverData else poses[0].drivenData);
    m := new Matrix(|poses|, propSize);
    ghost var table := PoseTable(poses, isDriver);
    var i := 0;
    while i < |poses|
      invariant 0 <= i <= |poses|
      invariant fresh(m) && m.Valid() && m.rows == |poses| && m.cols == propSize
      invariant forall a, b :: 0 <= a < |poses| && 0 <= b < propSize ==>
        m.mat[a][b] == if a < i then table[a][b] else 0.0
    {
      var allValues := Values(if isDriver then poses[i].driverData else poses[i].drivenData);
      assert allValues == PoseValues(poses[i], isDriver);
      var j := 0;
      while j < |allValues|
        invariant 0 <= j <= |allValues|
        invariant fresh(m) && m.Valid() && m.rows == |poses| && m.cols == propSize
        invariant forall a, b :: 0 <= a < |poses| && 0 <= b < propSize ==>
          m.mat[a][b] == if a < i || (a == i && b < j) then table[a][b] else 0.0
      {
        assert table[i][..|allValues|][j] == allValues[j];
        m.Set(i, j, allValues[j]);
        j := j + 1;
      }
      i := i + 1;
    }
    RectExt(m.mat, table, |poses|, propSize);
  }

  /** The input table divided column by column by its positive norms
    * (`normalize(inputNorms, rows=False)`). */
  function NormalizedTable(t: seq<seq<real>>, norms: seq<real>): (n: seq<seq<real>>)
    requires Rect(t, |t|, |norms|)
    ensures Rect(n, |t|, |norms|)
    ensures forall i, j :: 0 <= i < |t| && 0 <= j < |norms| ==> n[i][j] == Scaled(t[i][j], norms[j])
  {
    seq(|t|, i requires 0 <= i < |t| => seq(|norms|, j requires 0 <= j < |norms| => Scaled(t[i][j], norms[j])))
  }

  /** The stored pose matrix: the normalized input table with the norm
    * factors appended as its last row. */
  function PoseMatrixTable(poses: seq<PoseNode>, norms: seq<real>): (t: seq<seq<real>>)
    requires FirstIsWidest(poses, true) && |norms| == Columns(poses, true)
    ensures Rect(t, |poses| + 1, |norms|) && t[|poses|] == norms
  {
    NormalizedTable(PoseTable(poses, true), norms) + [norms]
  }

  // ------------------------------------------------------------------
  // Solving.
  // ------------------------------------------------------------------

  /** The host's solve of one output column: the weights of the poses,
    * or the message of a failed decomposition. */
  datatype SolveOutcome = Weights(w: seq<real>) | Failed(message: string)

  datatype SolveResult =
    | Solved
    | NoPoses
    | PoseMatrixTooLarge
    | WeightMatrixTooLarge
    | Decomposition(message: string)
    | StorageFailed

  /** The first column whose solve failed, if any. */
  function FirstFailure(solutions: seq<SolveOutcome>): (k: nat)
    ensures k <= |solutions|
    ensures forall i :: 0 <= i < k ==> solutions[i].Weights?
    ensures k < |solutions| ==> solutions[k].Failed?
  {
    if solutions == [] then 0
    else if solutions[0].Failed? then 0
    else 1 + FirstFailure(solutions[1..])
  }

  predicate WeightsFit(solutions: seq<SolveOutcome>, poseCount: nat)
  {
    forall i :: 0 <= i < |solutions| && solutions[i].Weights? ==> |solutions[i].w| == poseCount
  }

  /** The weight matrix: column i holds the weights solved for output i. */
  function WeightTable(solutions: seq<SolveOutcome>, poseCount: nat): (t: seq<seq<real>>)
    requires forall i :: 0 <= i < |solutions| ==> solutions[i].Weights? && |solutions[i].w| == poseCount
    ensures Rect(t, poseCount, |solutions|)
    ensures forall j, i :: 0 <= j < poseCount && 0 <= i < |solutions| ==> t[j][i] == solutions[i].w[j]
  {
    seq(poseCount, j requires 0 <= j < poseCount =>
      seq(|solutions|, i requires 0 <= i < |solutions| => solutions[i].w[j]))
  }

  /** Weight a of column b, when that column was solved. */
  function SolvedCell(solutions: seq<SolveOutcome>, a: nat, b: nat): real
    requires b < |solutions|
  {
    if solutions[b].Weights? && a < |solutions[b].w| then solutions[b].w[a] else 0.0
  }

  /** The solve loop: stops at the first failed column, otherwise builds
    * the weight matrix column by column. */
  method BuildWeightMatrix(solutions: seq<SolveOutcome>, poseCount: nat) returns (m: Matrix, failure: nat)
    requires WeightsFit(solutions, poseCount)
    ensures fresh(m) && m.Valid()
    ensures failure == FirstFailure(solutions)
    ensures failure == |solutions| ==> m.rows == poseCount && m.cols == |solutions| && m.mat == WeightTable(solutions, poseCount)
  {
    m := new Matrix(poseCount, |solutions|);
    var i := 0;
    while i < |solutions|
      invariant 0 <= i <= |solutions|
      invariant fresh(m) && m.Valid() && m.rows == poseCount && m.cols == |solutions|
      invariant forall k :: 0 <= k < i ==> solutions[k].Weights?
      invariant forall a, b :: 0 <= a < poseCount && 0 <= b < |solutions| ==>
        m.mat[a][b] == if b < i then SolvedCell(solutions, a, b) else 0.0
    {
      if solutions[i].Failed? {
        FirstFailureAt(solutions, i);
        return m, i;
      }
      var w := solutions[i].w;
      var j := 0;
      while j < poseCount
        invariant 0 <= j <= poseCount
        invariant fresh(m) && m.Valid() && m.rows == poseCount && m.cols == |solutions|
        invariant forall a, b :: 0 <= a < poseCount && 0 <= b < |solutions| ==>
          m.mat[a][b] == if b < i || (b == i && a < j) then SolvedCell(solutions, a, b) else 0.0
      {
        m.Set(j, i, w[j]);
        j := j + 1;
      }
      i := i + 1;
    }
    FirstFailureAt(solutions, |solutions|);
    RectExt(m.mat, WeightTable(solutions, poseCount), poseCount, |solutions|);
    failure := |solutions|;
  }

  /** The first failure is the first index that failed (or the length
    * when none did). */
  lemma {:induction false} FirstFailureAt(solutions: seq<SolveOutcome>, k: nat)
    requires k <= |solutions|
    requires forall i :: 0 <= i < k ==> solutions[i].Weights?
    requires k < |solutions| ==> solutions[k].Failed?
    ensures FirstFailure(solutions) == k
    decreases k
  {
    if k > 0 {
      FirstFailureAt(solutions[1..], k - 1);
    }
  }

  /** The input matrix of the poses, normalized by its column norms, and
    * a copy of it with the norms appended as an extra row. */
  method ExtendedPoseMatrix(poses: seq<PoseNode>, inputNorms: seq<real>) returns (ext: Matrix)
    requires FirstIsWidest(poses, true) && |inputNorms| == Columns(poses, true)
    ensures fresh(ext) && ext.Valid()
    ensures ext.rows == |poses| + 1 && ext.cols == |inputNorms|
    ensures ext.mat == PoseMatrixTable(poses, inputNorms)
  {
    var inputMat := PropertyDataToMatrix(poses, true);
    var normalized := inputMat.Normalize(inputNorms, false);
    RectExt(inputMat.mat, NormalizedTable(PoseTable(poses, true), inputNorms), |poses|, |inputNorms|);
    ext := inputMat.Copy();
    ext.mat := ext.mat + [inputNorms];
    ext.rows := ext.rows + 1;
  }

  /** The radius after a solve: the new statistic selected by the radius
    * type, or the unchanged custom radius. */
  function RadiusAfterSolve(radiusType: RadiusType, radius: real, meanDistance: real, variance: real, stdDev: real): real
  {
    match radiusType
    case Mean => meanDistance
    case Variance => variance
    case StandardDeviation => stdDev
    case Custom => radius
  }

  /** The distance statistics are recorded; unless the radius is custom,
    * it is replaced by the selected statistic, the node being switched
    * off during the change and on afterwards. */
  method RecordStatistics(node: SolverNode, meanDistance: real, variance: real, stdDev: real)
    modifies node`meanDistance, node`variance, node`radius, node`activeValue
    ensures node.meanDistance == meanDistance && node.variance == variance
    ensures node.radiusType == Custom ==> node.radius == old(node.radius) && node.activeValue == old(node.activeValue)
    ensures node.radiusType == Mean ==> node.radius == meanDistance
    ensures node.radiusType == Variance ==> node.radius == variance
    ensures node.radiusType == StandardDeviation ==> node.radius == stdDev
    ensures node.radiusType != Custom ==> node.activeValue
  {
    node.meanDistance := meanDistance;
    node.variance := variance;
    if node.radiusType != Custom {
      node.activeValue := false;
      node.radius := node.GetRadius(stdDev);
      node.activeValue := true;
    }
  }

  /** The result of `solveWeightMatrix` for the given sizes: the checks
    * in the order of the source, storing the pose matrix (which fails past
    * the 32·32 capacity) before solving, and storing the weight matrix
    * after all columns are solved. */
  function ExpectedResult(poseCount: nat, inputSize: nat, outputSize: nat, maxSize: nat,
                          solutions: seq<SolveOutcome>): SolveResult
  {
    if poseCount == 0 then NoPoses
    else if (poseCount + 1) * inputSize > maxSize then PoseMatrixTooLarge
    else if poseCount * outputSize > maxSize then WeightMatrixTooLarge
    else if (poseCount + 1) * inputSize > NumArrays * MaxLen then StorageFailed
    else if FirstFailure(solutions) < |solutions| then Decomposition(solutions[FirstFailure(solutions)].message)
    else if poseCount * |solutions| > NumArrays * MaxLen then StorageFailed
    else Solved
  }

  /** Within the capacity of the arrays, the storage never fails, and the
    * solve succeeds exactly when there are poses, both matrices fit and
    * every column is solved. */
  lemma StorageWithinCapacity(poseCount: nat, inputSize: nat, outputSize: nat, maxSize: nat, solutions: seq<SolveOutcome>)
    requires maxSize <= NumArrays * MaxLen && |solutions| == outputSize
    ensures ExpectedResult(poseCount, inputSize, outputSize, maxSize, solutions) != StorageFailed
    ensures ExpectedResult(poseCount, inputSize, outputSize, maxSize, solutions) == Solved <==>
      poseCount > 0 && (poseCount + 1) * inputSize <= maxSize && poseCount * outputSize <= maxSize &&
      forall i :: 0 <= i < |solutions| ==> solutions[i].Weights?
  {
    if FirstFailure(solutions) < |solutions| {
      assert solutions[FirstFailure(solutions)].Failed?;
    }
  }

  /** The size checks decide the result alone unless they pass; then the
    * solve and the storage of the weights decide it. */
  lemma ExpectedStages(poseCount: nat, inputSize: nat, outputSize: nat, maxSize: nat, solutions: seq<SolveOutcome>)
    ensures var sized := ExpectedResult(poseCount, inputSize, outputSize, maxSize, []);
      ExpectedResult(poseCount, inputSize, outputSize, maxSize, solutions) ==
        if sized != Solved then sized
        else if FirstFailure(solutions) < |solutions| then Decomposition(solutions[FirstFailure(solutions)].message)
        else if poseCount * |solutions| > NumArrays * MaxLen then StorageFailed
        else Solved
  {
    assert FirstFailure([]) == 0;
  }

  /** What the pose stage leaves on the node: the pose matrix with its
    * norm row, the statistics and the radius of the radius type. */
  ghost predicate PoseStageDone(node: SolverNode, poses: seq<PoseNode>, inputNorms: seq<real>,
                                meanDistance: real, variance: real, stdDev: real,
                                radiusType: RadiusType, radius: real, wasActive: bool)
    requires FirstIsWidest(poses, true) && |inputNorms| == Columns(poses, true)
    reads node
  {
    node.poseMatrixRows == |poses| + 1 && node.poseMatrixColumns == |inputNorms| &&
    (|inputNorms| > 0 ==> node.Stored(PoseMatrix) == Fetched(PoseMatrixTable(poses, inputNorms))) &&
    node.meanDistance == meanDistance && node.variance == variance &&
    node.radius == RadiusAfterSolve(radiusType, radius, meanDistance, variance, stdDev) &&
    node.activeValue == (wasActive || radiusType != Custom)
  }

  /** `solveWeightMatrix(rbfNode)`, with the host's numerics given:
    * `inputNorms` the column norms of the input table, `meanDistance`,
    * `variance` and `stdDev` the statistics of the pose distances, and
    * `solutions` the solve of each output column. The result is
    * `ExpectedResult`; without poses, or with a matrix over `maxSize`
    * values, nothing changes; once the pose matrix is stored, the
    * statistics are recorded and a non-custom radius is replaced by the
    * selected statistic (which also switches the node on); the weight
    * matrix is stored only when every column is solved. */
  method SolveWeightMatrix(node: SolverNode, poses: seq<PoseNode>, inputNorms: seq<real>, maxSize: nat,
                           meanDistance: real, variance: real, stdDev: real, solutions: seq<SolveOutcome>)
    returns (r: SolveResult)
    requires node.Valid()
    requires |poses| > 0 ==> FirstIsWidest(poses, true) && FirstIsWidest(poses, false)
    requires |poses| > 0 ==> |inputNorms| == Columns(poses, true) && |solutions| == Columns(poses, false)
    requires WeightsFit(solutions, |poses|)
    modifies node`poseArrays, node`weightArrays, node`poseMatrixRows, node`poseMatrixColumns
    modifies node`weightMatrixRows, node`weightMatrixColumns
    modifies node`meanDistance, node`variance, node`radius, node`activeValue
    ensures node.Valid()
    ensures r == ExpectedResult(|poses|, |inputNorms|, |solutions|, maxSize, solutions)
    ensures r == NoPoses || r == PoseMatrixTooLarge || r == WeightMatrixTooLarge ==> unchanged(node)
    ensures r == Solved || r.Decomposition? ==>
      PoseStageDone(node, poses, inputNorms, meanDistance, variance, stdDev,
                    old(node.radiusType), old(node.radius), old(node.activeValue))
    ensures r.Decomposition? ==> node.weightArrays == old(node.weightArrays)
    ensures r == Solved && |solutions| > 0 ==> node.Stored(WeightMatrix) == Fetched(WeightTable(solutions, |poses|))
  {
    if |poses| == 0 {
      return NoPoses;
    }
    ExpectedStages(|poses|, |inputNorms|, |solutions|, maxSize, solutions);
    var failure := StorePoseMatrix(node, poses, inputNorms, maxSize, |solutions|);
    if failure.Some? {
      return failure.value;
    }
    r := SolveStage(node, poses, inputNorms, meanDistance, variance, stdDev, solutions);
  }

  lemma CountsPositive(a: nat, b: nat)
    requires a > 0
    ensures b > 0 ==> a * b > 0
  {
  }

  /** The stage after the pose matrix is stored: the statistics, the
    * radius, the solve and the weight matrix. */
  method SolveStage(node: SolverNode, poses: seq<PoseNode>, inputNorms: seq<real>,
                    meanDistance: real, variance: real, stdDev: real, solutions: seq<SolveOutcome>)
    returns (r: SolveResult)
    requires node.Valid() && |poses| > 0 && FirstIsWidest(poses, true) && |inputNorms| == Columns(poses, true)
    requires WeightsFit(solutions, |poses|)
    requires node.poseMatrixRows == |poses| + 1 && node.poseMatrixColumns == |inputNorms|
    requires |inputNorms| > 0 ==> node.StoredPose() == Fetched(PoseMatrixTable(poses, inputNorms))
    modifies node`poseArrays, node`weightArrays, node`weightMatrixRows, node`weightMatrixColumns
    modifies node`meanDistance, node`variance, node`radius, node`activeValue
    ensures node.Valid()
    ensures r == (if FirstFailure(solutions) < |solutions| then Decomposition(solutions[FirstFailure(solutions)].message)
                  else if |poses| * |solutions| > NumArrays * MaxLen then StorageFailed
                  else Solved)
    ensures r == Solved || r.Decomposition? ==>
      PoseStageDone(node, poses, inputNorms, meanDistance, variance, stdDev,
                    old(node.radiusType), old(node.radius), old(node.activeValue))
    ensures r.Decomposition? ==> node.weightArrays == old(node.weightArrays)
    ensures r == Solved && |solutions| > 0 ==> node.Stored(WeightMatrix) == Fetched(WeightTable(solutions, |poses|))
  {
    CountsPositive(|poses|, |solutions|);
    ghost var radiusType, radius, wasActive := node.radiusType, node.radius, node.activeValue;
    RecordStatistics(node, meanDistance, variance, stdDev);
    assert PoseStageDone(node, poses, inputNorms, meanDistance, variance, stdDev, radiusType, radius, wasActive);
    ghost var poseStage := (node.poseArrays, node.poseMatrixRows, node.poseMatrixColumns);
    r := StoreWeights(node, solutions, |poses|);
    assert poseStage == (node.poseArrays, node.poseMatrixRows, node.poseMatrixColumns);
    assert PoseStageDone(node, poses, inputNorms, meanDistance, variance, stdDev, radiusType, radius, wasActive);
  }

  /** The size checks and the storage of the pose matrix: a pose matrix
    * (with its norm row) or a weight matrix over `maxSize` values is
    * refused before anything changes; otherwise the pose matrix is
    * stored, which fails only past the capacity of the 32 arrays. */
  method StorePoseMatrix(node: SolverNode, poses: seq<PoseNode>, inputNorms: seq<real>, maxSize: nat, outputSize: nat)
    returns (failure: Option<SolveResult>)
    requires node.Valid() && FirstIsWidest(poses, true) && FirstIsWidest(poses, false)
    requires |inputNorms| == Columns(poses, true) && outputSize == Columns(poses, false)
    modifies node`poseArrays, node`weightArrays, node`poseMatrixRows, node`poseMatrixColumns
    ensures node.Valid() && node.weightArrays == old(node.weightArrays)
    ensures var expected := ExpectedResult(|poses|, |inputNorms|, outputSize, maxSize, []);
      failure == (if expected == Solved then None else Some(expected))
    ensures failure == Some(PoseMatrixTooLarge) || failure == Some(WeightMatrixTooLarge) ==>
      node.poseArrays == old(node.poseArrays) && node.poseMatrixRows == old(node.poseMatrixRows) &&
      node.poseMatrixColumns == old(node.poseMatrixColumns)
    ensures failure.None? ==> node.poseMatrixRows == |poses| + 1 && node.poseMatrixColumns == |inputNorms|
    ensures failure.None? && |inputNorms| > 0 ==> node.StoredPose() == Fetched(PoseMatrixTable(poses, inputNorms))
  {
    var ext := ExtendedPoseMatrix(poses, inputNorms);
    var outputMat := PropertyDataToMatrix(poses, false);
    if ext.rows * ext.cols > maxSize {
      return Some(PoseMatrixTooLarge);
    }
    if outputMat.rows * outputMat.cols > maxSize {
      return Some(WeightMatrixTooLarge);
    }
    var stored := node.SetPoseMatrix(ext);
    if !stored {
      // No poseMatrix32 property exists.
      return Some(StorageFailed);
    }
    failure := None;
  }

  /** The solve loop and the storage of the weight matrix: the first
    * failed column ends the solve with its message and nothing stored. */
  method StoreWeights(node: SolverNode, solutions: seq<SolveOutcome>, poseCount: nat) returns (r: SolveResult)
    requires node.Valid() && WeightsFit(solutions, poseCount)
    modifies node`poseArrays, node`weightArrays, node`weightMatrixRows, node`weightMatrixColumns
    ensures node.Valid() && node.poseArrays == old(node.poseArrays)
    ensures r == (if FirstFailure(solutions) < |solutions| then Decomposition(solutions[FirstFailure(solutions)].message)
                  else if poseCount * |solutions| > NumArrays * MaxLen then StorageFailed
                  else Solved)
    ensures r.Decomposition? ==> node.weightArrays == old(node.weightArrays)
    ensures r == Solved && poseCount * |solutions| > 0 ==> node.Stored(WeightMatrix) == Fetched(WeightTable(solutions, poseCount))
  {
    var weightMat, failure := BuildWeightMatrix(solutions, poseCount);
    if failure < |solutions| {
      return Decomposition(solutions[failure].message);
    }
    var stored := node.SetWeightMatrix(weightMat);
    if !stored {
      // No weightMatrix32 property exists.
      return StorageFailed;
    }
    r := Solved;
  }

  // ------------------------------------------------------------------
  // Kernels.
  // ------------------------------------------------------------------

  datatype Kernel = Linear | Gaussian1 | Gaussian2 | ThinPlate | MultiQuadratic | InverseMultiQuadratic

  /** `interpolateRbf(value, width, kernel)`, with the host's `exp`, `log`
    * and `sqrt`: a width of 0 counts as 1; the linear kernel is the
    * identity, and the thin plate kernel keeps a non-positive scaled
    * value as it is. */
  function InterpolateRbf(value: real, width: real, kernel: Kernel,
                          exp: real -> real, log: real -> real, sqrt: real -> real): (r: real)
    requires kernel == InverseMultiQuadratic ==> forall x :: x > 0.0 ==> sqrt(x) > 0.0
    ensures kernel == Linear ==> r == value
  {
    var w := if width == 0.0 then 1.0 else width;
    assert w * w > 0.0;
    match kernel
    case Linear => value
    case Gaussian1 =>
      var inv := 1.0 / w;
      exp(-(inv * inv) * value)
    case Gaussian2 =>
      var w2 := w * 0.707;
      exp(-(value * value) / (2.0 * w2 * w2))
    case ThinPlate =>
      var v := value / w;
      if v > 0.0 then v * v * log(v) else v
    case MultiQuadratic => sqrt(value * value + w * w)
    case InverseMultiQuadratic =>
      assert value * value + w * w > 0.0;
      1.0 / sqrt(value * value + w * w)
  }

  /** A zero width is the unit width, for every kernel. */
  lemma ZeroWidthIsUnit(value: real, kernel: Kernel, exp: real -> real, log: real -> real, sqrt: real -> real)
    requires kernel == InverseMultiQuadratic ==> forall x :: x > 0.0 ==> sqrt(x) > 0.0
    ensures InterpolateRbf(value, 0.0, kernel, exp, log, sqrt) == InterpolateRbf(value, 1.0, kernel, exp, log, sqrt)
  {
  }

  /** The thin plate kernel at a non-positive value is the value divided
    * by the width. */
  lemma ThinPlateNonPositive(value: real, width: real, exp: real -> real, log: real -> real, sqrt: real -> real)
    requires width > 0.0 && value <= 0.0
    ensures InterpolateRbf(value, width, ThinPlate, exp, log, sqrt) == value / width
  {
    assert value / width <= 0.0;
  }

  // ------------------------------------------------------------------
  // Evaluation and write-back.
  // ------------------------------------------------------------------

  /** The kind of node an output property belongs to: a single float
    * output, a rotation output in a quaternion or axis-angle mode, or any
    * other vector output. */
  datatype OutputKind = FloatOutput | QuatRotationOutput | ArrayOutput

  /** `(node, index)` of `getOutputProperties`. */
  datatype OutProp = OutProp(node: nat, kind: OutputKind, index: nat)

  /** What the write-back does for one output value. `SetRotation` hands
    * the three values of the exponential map to the host's quaternion
    * conversion, which sets all four components. */
  datatype Action =
    | SetFloat(node: nat, value: real)
    | SetRotation(node: nat, expMap: seq<real>)
    | SetComponent(node: nat, index: nat, value: real)
    | Skip

  /** Whether the quaternion output at i starts a block: it is a
    * quaternion output and none of the three before it started one. */
  predicate QuatStart(props: seq<OutProp>, i: nat)
    requires i < |props|
    decreases i
  {
    props[i].kind == QuatRotationOutput &&
    !(i >= 1 && QuatStart(props, i - 1)) &&
    !(i >= 2 && QuatStart(props, i - 2)) &&
    !(i >= 3 && QuatStart(props, i - 3))
  }

  /** A block start has the three values of its exponential map. */
  predicate CompleteBlocks(props: seq<OutProp>)
  {
    forall i :: 0 <= i < |props| && QuatStart(props, i) ==> i + 2 < |props|
  }

  /** A negative value is written as 0 unless negative weights are on. */
  function Clamped(value: real, negativeWeights: bool): (v: real)
    ensures !negativeWeights ==> v >= 0.0
    ensures value >= 0.0 || negativeWeights ==> v == value
  {
    if value < 0.0 && !negativeWeights then 0.0 else value
  }

  function ActionAt(values: seq<real>, props: seq<OutProp>, negativeWeights: bool, i: nat): Action
    requires |values| == |props| && CompleteBlocks(props) && i < |props|
  {
    var p := props[i];
    match p.kind
    case FloatOutput => SetFloat(p.node, Clamped(values[i], negativeWeights))
    case QuatRotationOutput =>
      if QuatStart(props, i) then SetRotation(p.node, values[i .. i + 3]) else Skip
    case ArrayOutput => SetComponent(p.node, p.index, Clamped(values[i], negativeWeights))
  }

  /** The actions of the write-back loop, one per output. */
  function OutputActions(values: seq<real>, props: seq<OutProp>, negativeWeights: bool): (a: seq<Action>)
    requires |values| == |props| && CompleteBlocks(props)
    ensures |a| == |props|
  {
    seq(|props|, i requires 0 <= i < |props| => ActionAt(values, props, negativeWeights, i))
  }

  /** The block end seen at the head of iteration i of the loop: three
    * past the latest block start among the four previous indices, or −1. */
  function BlockEndBefore(props: seq<OutProp>, i: nat): int
    requires i <= |props|
  {
    if i >= 1 && QuatStart(props, i - 1) then i + 2
    else if i >= 2 && QuatStart(props, i - 2) then i + 1
    else if i >= 3 && QuatStart(props, i - 3) then i
    else if i >= 4 && QuatStart(props, i - 4) then i - 1
    else -1
  }

  /** Block starts are at least four apart. */
  lemma StartsApart(props: seq<OutProp>, i: nat, k: nat)
    requires i < k < |props| && k <= i + 3 && QuatStart(props, i)
    ensures !QuatStart(props, k)
  {
  }

  /** The write-back loop of `getPoseWeights`, with its `quatBlockEnd`
    * marker: every float or vector output gets its clamped value, the
    * first quaternion output of a block sets the whole rotation from its
    * exponential map, and the quaternion outputs of the three following
    * indices are skipped. */
  method WriteOutputs(values: seq<real>, props: seq<OutProp>, negativeWeights: bool) returns (actions: seq<Action>)
    requires |values| == |props| && CompleteBlocks(props)
    ensures actions == OutputActions(values, props, negativeWeights)
  {
    actions := [];
    var quatBlockEnd := -1;
    var i := 0;
    while i < |props|
      invariant 0 <= i <= |props|
      invariant quatBlockEnd == BlockEndBefore(props, i)
      invariant |actions| == i
      invariant forall k :: 0 <= k < i ==> actions[k] == ActionAt(values, props, negativeWeights, k)
    {
      var action;
      action, quatBlockEnd := WriteOne(values, props, negativeWeights, i, quatBlockEnd);
      actions := actions + [action];
      i := i + 1;
    }
  }

  /** One iteration of the write-back loop: the action for output `i`
    * and the block end for the next iteration. */
  method WriteOne(values: seq<real>, props: seq<OutProp>, negativeWeights: bool, i: nat, blockEnd: int)
    returns (action: Action, nextEnd: int)
    requires |values| == |props| && CompleteBlocks(props) && i < |props|
    requires blockEnd == BlockEndBefore(props, i)
    ensures action == ActionAt(values, props, negativeWeights, i)
    ensures nextEnd == BlockEndBefore(props, i + 1)
  {
    nextEnd := blockEnd;
    if i > nextEnd {
      nextEnd := -1;
    }
    assert nextEnd == -1 <==>
      !(i >= 1 && QuatStart(props, i - 1)) && !(i >= 2 && QuatStart(props, i - 2)) && !(i >= 3 && QuatStart(props, i - 3));
    var p := props[i];
    var value := values[i];
    if value < 0.0 && !negativeWeights {
      value := 0.0;
    }
    if p.kind == FloatOutput {
      action := SetFloat(p.node, value);
    } else if p.kind == QuatRotationOutput {
      if nextEnd == -1 {
        assert QuatStart(props, i);
        action := SetRotation(p.node, [values[i], values[i + 1], values[i + 2]]);
        nextEnd := i + 3;
      } else {
        action := Skip;
      }
    } else {
      action := SetComponent(p.node, p.index, value);
    }
  }

  /** The rotation of a block start covers the following three indices:
    * a quaternion output there is skipped. */
  lemma {:induction false} BlockSkipped(values: seq<real>, props: seq<OutProp>, negativeWeights: bool, i: nat, k: nat)
    requires |values| == |props| && CompleteBlocks(props)
    requires i < k < |props| && k <= i + 3 && QuatStart(props, i)
    requires props[k].kind == QuatRotationOutput
    ensures OutputActions(values, props, negativeWeights)[k] == Skip
  {
    StartsApart(props, i, k);
  }

  /** A run of four quaternion outputs from a block start sets the
    * rotation once, from the first three values of the run. */
  lemma {:induction false} QuaternionRunWrittenOnce(values: seq<real>, props: seq<OutProp>, negativeWeights: bool, i: nat)
    requires |values| == |props| && CompleteBlocks(props)
    requires i + 4 <= |props|
    requires forall k :: i <= k < i + 4 ==> props[k].kind == QuatRotationOutput
    requires QuatStart(props, i)
    ensures OutputActions(values, props, negativeWeights)[i] == SetRotation(props[i].node, values[i .. i + 3])
    ensures forall k :: i < k < i + 4 ==> OutputActions(values, props, negativeWeights)[k] == Skip
  {
    forall k | i < k < i + 4
      ensures OutputActions(values, props, negativeWeights)[k] == Skip
    {
      BlockSkipped(values, props, negativeWeights, i, k);
    }
  }

  /** Without negative weights no written value is negative. */
  lemma NoNegativeWrites(values: seq<real>, props: seq<OutProp>, i: nat)
    requires |values| == |props| && CompleteBlocks(props) && i < |props|
    ensures OutputActions(values, props, false)[i].SetFloat? ==> OutputActions(values, props, false)[i].value >= 0.0
    ensures OutputActions(values, props, false)[i].SetComponent? ==> OutputActions(values, props, false)[i].value >= 0.0
  {
  }

  /** `normalizeVector` as a value. */
  function Normalized(vec: seq<real>, factors: seq<real>): (r: seq<real>)
    ensures |r| == |vec|
  {
    if |vec| != |factors| then vec
    else seq(|vec|, i requires 0 <= i < |vec| => Scaled(vec[i], factors[i]))
  }

  /** Σ over the first n poses of weight(i, j) · activation(distance of
    * pose i to the driver). */
  function WeightedSum(poses: seq<seq<real>>, weights: seq<seq<real>>, driver: seq<real>,
                       distance: (seq<real>, seq<real>) -> real, activation: real -> real, n: nat, j: nat): real
    requires n <= |poses| && n <= |weights| && forall i :: 0 <= i < n ==> j < |weights[i]|
  {
    if n == 0 then 0.0
    else WeightedSum(poses, weights, driver, distance, activation, n - 1, j) +
         weights[n - 1][j] * activation(distance(poses[n - 1], driver))
  }

  /** The output values of the evaluation, one per weight column. */
  function OutputValues(poses: seq<seq<real>>, weights: seq<seq<real>>, driver: seq<real>,
                        distance: (seq<real>, seq<real>) -> real, activation: real -> real,
                        poseCount: nat, outSize: nat): (v: seq<real>)
    requires poseCount <= |poses| && poseCount <= |weights|
    requires forall i :: 0 <= i < poseCount ==> |weights[i]| == outSize
    ensures |v| == outSize
    ensures forall j :: 0 <= j < outSize ==> v[j] == WeightedSum(poses, weights, driver, distance, activation, poseCount, j)
  {
    seq(outSize, j requires 0 <= j < outSize => WeightedSum(poses, weights, driver, distance, activation, poseCount, j))
  }

  /** The accumulation loop of `getPoseWeights`: pose by pose, every
    * output adds the pose's weight times its activation. */
  method AccumulateOutputs(poses: seq<seq<real>>, weights: seq<seq<real>>, driver: seq<real>,
                           distance: (seq<real>, seq<real>) -> real, activation: real -> real,
                           poseCount: nat, outSize: nat) returns (outValues: seq<real>)
    requires poseCount <= |poses| && poseCount <= |weights|
    requires forall i :: 0 <= i < poseCount ==> |weights[i]| == outSize
    ensures outValues == OutputValues(poses, weights, driver, distance, activation, poseCount, outSize)
  {
    outValues := seq(outSize, _ => 0.0);
    var i := 0;
    while i < poseCount
      invariant 0 <= i <= poseCount
      invariant |outValues| == outSize
      invariant forall j :: 0 <= j < outSize ==> outValues[j] == WeightedSum(poses, weights, driver, distance, activation, i, j)
    {
      var a := activation(distance(poses[i], driver));
      var j := 0;
      while j < outSize
        invariant 0 <= j <= outSize
        invariant |outValues| == outSize
        invariant forall k :: 0 <= k < outSize ==>
          outValues[k] == WeightedSum(poses, weights, driver, distance, activation, if k < j then i + 1 else i, k)
      {
        outValues := outValues[j := outValues[j] + weights[i][j] * a];
        j := j + 1;
      }
      i := i + 1;
    }
  }

  datatype WeightsOutcome =
    | NoUpdate
    | ReadFailed
    | PropertiesMismatch
    | Written(actions: seq<Action>)

  /** The evaluation is possible: both matrices are stored, there are
    * driver values, and the weight matrix has a row per pose. */
  predicate Evaluable(node: SolverNode, driverValues: seq<real>)
    reads node
  {
    node.Stored(PoseMatrix).Fetched? && node.Stored(WeightMatrix).Fetched? && |driverValues| > 0 &&
    node.poseMatrixRows - 1 <= node.weightMatrixRows
  }

  /** The output values computed from the stored matrices: the driver
    * normalized by the last (norm) row of the pose matrix, and the
    * weighted sums over all other rows. */
  function EvaluatedValues(node: SolverNode, driverValues: seq<real>, distance: (seq<real>, seq<real>) -> real,
                           activation: real -> real): (v: seq<real>)
    reads node
    requires node.Valid() && Evaluable(node, driverValues)
    ensures |v| == node.weightMatrixColumns
  {
    ReadArraysRect(node.poseArrays, node.poseMatrixRows, node.poseMatrixColumns);
    ReadArraysRect(node.weightArrays, node.weightMatrixRows, node.weightMatrixColumns);
    var poseMat := node.Stored(PoseMatrix).mat;
    var poseCount := node.poseMatrixRows - 1;
    var driver := Normalized(driverValues, poseMat[poseCount]);
    OutputValues(poseMat, node.Stored(WeightMatrix).mat, driver, distance, activation, poseCount, node.weightMatrixColumns)
  }

  /** `getPoseWeights(rbfNode)`, with the host's driver values, distance
    * (`getRadius`) and `activation` (`interpolateRbf` at the node's
    * radius and kernel). Nothing happens when a stored matrix or the
    * driver values are missing; the driver is normalized with the norm
    * row; the output values are the weighted sums over all stored poses;
    * an output count that differs from the number of output properties
    * switches the node off; otherwise the write-back actions follow. */
  method GetPoseWeights(node: SolverNode, driverValues: seq<real>, distance: (seq<real>, seq<real>) -> real,
                        activation: real -> real, props: seq<OutProp>) returns (r: WeightsOutcome)
    requires node.Valid() && CompleteBlocks(props)
    modifies node`activeValue
    ensures node.Stored(PoseMatrix).NoMatrix? ==> r == NoUpdate
    ensures node.Stored(PoseMatrix).Fetched? && node.Stored(WeightMatrix).NoMatrix? ==> r == NoUpdate
    ensures node.Stored(PoseMatrix).Fetched? && node.Stored(WeightMatrix).Fetched? && |driverValues| == 0 ==> r == NoUpdate
    ensures r == PropertiesMismatch <==> Evaluable(node, driverValues) && node.weightMatrixColumns != |props|
    ensures r == PropertiesMismatch ==> !node.activeValue
    ensures r != PropertiesMismatch ==> node.activeValue == old(node.activeValue)
    ensures r.Written? <==> Evaluable(node, driverValues) && node.weightMatrixColumns == |props|
    ensures r.Written? ==>
      r.actions == OutputActions(EvaluatedValues(node, driverValues, distance, activation), props, node.negativeWeights)
  {
    var poseFetch := node.GetPoseMatrix();
    if poseFetch.NoMatrix? {
      return NoUpdate;
    }
    if poseFetch.MissingArray? {
      return ReadFailed;
    }
    var poseMat := poseFetch.mat;
    ReadArraysRect(node.poseArrays, node.poseMatrixRows, node.poseMatrixColumns);
    var poseSize := node.poseMatrixRows - 1;
    var weightFetch := node.GetWeightMatrix();
    if weightFetch.NoMatrix? {
      return NoUpdate;
    }
    if weightFetch.MissingArray? {
      return ReadFailed;
    }
    var weightMat := weightFetch.mat;
    ReadArraysRect(node.weightArrays, node.weightMatrixRows, node.weightMatrixColumns);
    var outSize := node.weightMatrixColumns;
    if |driverValues| == 0 {
      return NoUpdate;
    }
    var norms := poseMat[poseSize];
    var driver := NormalizeVector(driverValues, norms);
    assert driver == Normalized(driverValues, norms);
    if poseSize > node.weightMatrixRows {
      // `weightMat[i, j]` past the last weight row.
      return ReadFailed;
    }
    var outValues := AccumulateOutputs(poseMat, weightMat, driver, distance, activation, poseSize, outSize);
    if outSize != |props| {
      node.activeValue := false;
      return PropertiesMismatch;
    }
    var actions := WriteOutputs(outValues, props, node.negativeWeights);
    r := Written(actions);
  }
}
